/**
 The builder and the loader agree: a program takes as many sectors in the image as the
 loader passes over to reach the next header, so that the loader finds the programs that
 were packed and brings their text and data into memory.
 */
module BootLayout {
  import opened Options
  import opened BootArith
  import Image
  import Loader

  // What the loader reads in struct exec.
  function HeaderOf(f: seq<Byte>): (h: Loader.Header)
    requires |f| >= Image.A_MINHDR && Sizes(f)
  {
    Loader.Header(Image.Long(f, 8), Image.Long(f, 12), Image.Long(f, 16), Image.Long(f, 24), f[4],
                  Image.Sep(f), Image.Pal(f), f[2] % 2 == 1)
  }

  // No size is negative.
  predicate Sizes(f: seq<Byte>)
    requires |f| >= Image.A_MINHDR
  {
    Image.Long(f, 8) >= 0 && Image.Long(f, 12) >= 0 && Image.Long(f, 16) >= 0 && Image.Long(f, 24) >= 0
  }

  // A program of a size that 32-bit arithmetic can handle.
  predicate Bootable(p: Image.File) {
    && Image.Executable(p) && Sizes(p.data)
    && var h := HeaderOf(p.data); Loader.Represented(h) && Loader.TextLen(h) + h.data < TWO32 - 2 * SECTOR
  }

  ghost predicate AllBootable(ps: seq<Image.File>) {
    forall k {:trigger Bootable(ps[k])} :: 0 <= k < |ps| ==> Bootable(ps[k])
  }

  // The header in a sector of the image.
  function Parsed(sector: seq<Byte>): (h: Option<Loader.Header>)
  {
    if |sector| < SECTOR then None
    else
      var exec := sector[Image.NAME_SIZE..Image.NAME_SIZE + Image.EXEC_SIZE];
      if Image.GoodMagic(exec) && Sizes(exec) then Some(HeaderOf(exec)) else None
  }

  // Sector v of an image.
  function SectorOf(image: seq<Byte>, v: nat): (s: Option<seq<Byte>>)
  {
    if (v + 1) * SECTOR <= |image| then Some(image[v * SECTOR..(v + 1) * SECTOR]) else None
  }

  // The loader reads this image,
  ghost predicate Reads(l: Loader.ImageLoader, image: seq<Byte>) {
    forall v: nat {:trigger l.sector(v)} :: SectorOf(image, v).Some? ==> l.sector(v) == SectorOf(image, v)
  }

  // and finds no header behind it.
  ghost predicate EndsAt(l: Loader.ImageLoader, image: seq<Byte>) {
    forall v: nat {:trigger l.HeaderAt(v)} :: v * SECTOR >= |image| ==> l.HeaderAt(v).None?
  }

  // ---------------------------------------------------------- programs in an image

  // A program as it lies in an image: a sector with its header, then so many sectors with its
  // text and its data, each padded; text is empty when it comes with the data.
  datatype Program = Program(head: seq<Byte>, header: Loader.Header, sectors: nat, text: seq<Byte>, data: seq<Byte>)

  function Laid(g: Program): (r: seq<Byte>) {
    g.head + (Image.Padded(g.text) + Image.Padded(g.data))
  }

  // The loader knows the header, and the header the sizes.
  ghost predicate Sound(l: Loader.ImageLoader, g: Program) {
    && |g.head| == SECTOR && l.parse(g.head) == Some(g.header) && Loader.ProcSize(g.header) == g.sectors
    && Loader.TextPart(g.header) == |g.text| && Loader.DataLen(g.header) == |g.data|
    && |Laid(g)| == SECTOR * (1 + g.sectors)
  }

  ghost predicate AllSound(l: Loader.ImageLoader, gs: seq<Program>) {
    forall k {:trigger gs[k]} :: 0 <= k < |gs| ==> Sound(l, gs[k])
  }

  function LaidAll(gs: seq<Program>): (r: seq<Byte>) {
    if gs == [] then [] else Laid(gs[0]) + LaidAll(gs[1..])
  }

  // The sectors that hold the headers of gs, laid out from sector v on.
  function Heads(gs: seq<Program>, v: nat): (r: seq<nat>)
    ensures |r| == |gs|
  {
    if gs == [] then [] else [v] + Heads(gs[1..], v + 1 + gs[0].sectors)
  }

  // Programs gs lie at sector v of an image, up to its end.
  ghost predicate LaidAt(image: seq<Byte>, gs: seq<Program>, v: int) {
    0 <= v && v * SECTOR <= |image| && image[v * SECTOR..] == LaidAll(gs)
  }

  // One program lies at sector v.
  ghost predicate OneAt(image: seq<Byte>, g: Program, v: int) {
    0 <= v && v * SECTOR + |Laid(g)| <= |image| && image[v * SECTOR..v * SECTOR + |Laid(g)|] == Laid(g)
  }

  lemma SplitLaid(image: seq<Byte>, x: nat, first: seq<Byte>, rest: seq<Byte>)
    requires x <= |image| && image[x..] == first + rest
    ensures x + |first| <= |image| && image[x..x + |first|] == first && image[x + |first|..] == rest
  {
    assert image[x..x + |first|] == image[x..][..|first|];
    assert image[x + |first|..] == image[x..][|first|..];
  }

  // A program is found where it lies.
  lemma HeaderFound(l: Loader.ImageLoader, image: seq<Byte>, g: Program, v: nat)
    requires Reads(l, image) && Sound(l, g) && OneAt(image, g, v)
    ensures l.HeaderAt(v) == Some(g.header) && l.After(v) == v + 1 + g.sectors
  {
    assert image[v * SECTOR..(v + 1) * SECTOR] == image[v * SECTOR..v * SECTOR + |Laid(g)|][..SECTOR];
    assert Laid(g)[..SECTOR] == g.head;
  }

  lemma NextLaid(l: Loader.ImageLoader, image: seq<Byte>, gs: seq<Program>, v: nat)
    requires Reads(l, image) && AllSound(l, gs) && gs != [] && LaidAt(image, gs, v)
    ensures OneAt(image, gs[0], v) && l.HeaderAt(v) == Some(gs[0].header)
    ensures l.After(v) == v + 1 + gs[0].sectors && LaidAt(image, gs[1..], l.After(v))
  {
    assert Sound(l, gs[0]);
    SplitLaid(image, v * SECTOR, Laid(gs[0]), LaidAll(gs[1..]));
    HeaderFound(l, image, gs[0], v);
  }

  // The headers of the programs from sector v on are a chain to the end of the image.
  lemma {:induction false} ChainOfLaid(l: Loader.ImageLoader, image: seq<Byte>, gs: seq<Program>, v: nat)
    returns (end: nat)
    requires Reads(l, image) && AllSound(l, gs) && LaidAt(image, gs, v)
    ensures l.Chain(v, Heads(gs, v), end) && end * SECTOR == |image|
    decreases |gs|
  {
    if gs == [] {
      end := v;
    } else {
      NextLaid(l, image, gs, v);
      var w := v + 1 + gs[0].sectors;
      end := ChainOfLaid(l, image, gs[1..], w);
      ChainCons(l, v, Heads(gs[1..], w), end);
      HeadsCons(gs, v);
    }
  }

  lemma HeadsCons(gs: seq<Program>, v: nat)
    requires gs != []
    ensures Heads(gs, v) == [v] + Heads(gs[1..], v + 1 + gs[0].sectors)
  {
  }

  lemma ChainCons(l: Loader.ImageLoader, v: nat, heads: seq<nat>, end: int)
    requires l.HeaderAt(v).Some? && l.Chain(l.After(v), heads, end)
    ensures l.Chain(v, [v] + heads, end)
  {
    assert ([v] + heads)[1..] == heads;
  }

  // From a sector on there is one chain that reaches a sector without a header.
  lemma {:induction false} OneChain(l: Loader.ImageLoader, v: int, heads: seq<nat>, end: nat, others: seq<nat>, w: int)
    requires l.Chain(v, heads, end) && l.HeaderAt(end).None? && l.Chain(v, others, w) && w >= end
    ensures others == heads && w == end
    decreases |heads|
  {
    if heads != [] {
      ChainForward(l, v, heads, end);
      if others != [] {
        assert others[0] == heads[0];
        OneChain(l, l.After(v), heads[1..], end, others[1..], w);
      }
    }
  }

  lemma {:induction false} ChainForward(l: Loader.ImageLoader, v: int, heads: seq<nat>, w: int)
    requires l.Chain(v, heads, w)
    ensures v <= w && (heads != [] ==> v < w)
    decreases |heads|
  {
    if heads != [] {
      Loader.ProcSizeNat(l.HeaderAt(heads[0]).value);
      ChainForward(l, l.After(heads[0]), heads[1..], w);
    }
  }

  /** Whatever chain of headers leads the loader to the end of an image, it is that of the
      programs in it: none is missed, and no other sector is taken for a header. */
  lemma HeadersOfImage(l: Loader.ImageLoader, gs: seq<Program>, heads: seq<nat>, w: int)
    requires AllSound(l, gs) && Reads(l, LaidAll(gs)) && EndsAt(l, LaidAll(gs)) && l.Chain(0, heads, w) && w * SECTOR >= |LaidAll(gs)|
    ensures heads == Heads(gs, 0) && w * SECTOR == |LaidAll(gs)|
  {
    var image := LaidAll(gs);
    assert image[0..] == image;
    var end := ChainOfLaid(l, image, gs, 0);
    OneChain(l, 0, Heads(gs, 0), end, heads, w);
  }

  // Each program lies at its header.
  lemma {:induction false} LaidHere(l: Loader.ImageLoader, image: seq<Byte>, gs: seq<Program>, v: nat, k: nat)
    requires Reads(l, image) && AllSound(l, gs) && LaidAt(image, gs, v) && k < |gs|
    ensures Sound(l, gs[k]) && OneAt(image, gs[k], Heads(gs, v)[k])
    decreases |gs|
  {
    NextLaid(l, image, gs, v);
    if k > 0 {
      LaidHere(l, image, gs[1..], l.After(v), k - 1);
      HeadsAt(gs, v, k);
    }
  }

  lemma HeadsAt(gs: seq<Program>, v: nat, k: nat)
    requires 0 < k < |gs|
    ensures gs[k] == gs[1..][k - 1] && Heads(gs, v)[k] == Heads(gs[1..], v + 1 + gs[0].sectors)[k - 1]
  {
  }

  // ------------------------------------------------------------------ text and data

  lemma PaddedSectors(s: seq<Byte>)
    ensures |Image.Padded(s)| == SECTOR * Loader.Sectors(|s|)
  {
    RoundUpMultiple(|s|, SECTOR);
  }

  lemma ByteOfImage(l: Loader.ImageLoader, image: seq<Byte>, v: nat, j: nat)
    requires Reads(l, image) && (v + j / SECTOR + 1) * SECTOR <= |image|
    ensures l.ImageByte(v, j) == image[v * SECTOR + j]
  {
    var w := v + j / SECTOR;
    assert SectorOf(image, w).value[j % SECTOR] == image[w * SECTOR + j % SECTOR];
  }

  // Sectors from v on hold s, padded.
  ghost predicate SectorsHold(l: Loader.ImageLoader, v: nat, s: seq<Byte>) {
    forall j :: 0 <= j < |Image.Padded(s)| ==> l.ImageByte(v, j) == Image.Padded(s)[j]
  }

  // Behind its header sector v, the segments of a program are stored.
  ghost predicate Stored(l: Loader.ImageLoader, g: Program, v: nat) {
    && Loader.TextPart(g.header) == |g.text| && Loader.DataLen(g.header) == |g.data|
    && SectorsHold(l, v + 1, g.text) && SectorsHold(l, v + 1 + Loader.Sectors(|g.text|), g.data)
  }

  lemma SectorsOf(l: Loader.ImageLoader, image: seq<Byte>, v: nat, s: seq<Byte>)
    requires Reads(l, image) && v * SECTOR + |Image.Padded(s)| <= |image|
    requires image[v * SECTOR..v * SECTOR + |Image.Padded(s)|] == Image.Padded(s)
    ensures SectorsHold(l, v, s)
  {
    PaddedSectors(s);
    forall j | 0 <= j < |Image.Padded(s)| ensures l.ImageByte(v, j) == Image.Padded(s)[j] {
      ByteOfImage(l, image, v, j);
      assert image[v * SECTOR + j] == image[v * SECTOR..v * SECTOR + |Image.Padded(s)|][j];
    }
  }

  lemma Slices(image: seq<Byte>, x: nat, head: seq<Byte>, t: seq<Byte>, d: seq<Byte>)
    requires x + |head| + |t| + |d| <= |image| && image[x..x + |head| + |t| + |d|] == head + (t + d)
    ensures var y := x + |head|; image[y..y + |t|] == t && image[y + |t|..y + |t| + |d|] == d
  {
    var y, all := x + |head|, image[x..x + |head| + |t| + |d|];
    assert image[y..y + |t|] == all[|head|..|head| + |t|];
    assert image[y + |t|..y + |t| + |d|] == all[|head| + |t|..];
  }

  lemma TextHeld(l: Loader.ImageLoader, image: seq<Byte>, g: Program, v: nat)
    requires Reads(l, image) && |g.head| == SECTOR && OneAt(image, g, v)
    ensures SectorsHold(l, v + 1, g.text)
  {
    Slices(image, v * SECTOR, g.head, Image.Padded(g.text), Image.Padded(g.data));
    SectorsOf(l, image, v + 1, g.text);
  }

  lemma DataHeld(l: Loader.ImageLoader, image: seq<Byte>, g: Program, v: nat)
    requires Reads(l, image) && |g.head| == SECTOR && OneAt(image, g, v)
    ensures SectorsHold(l, v + 1 + Loader.Sectors(|g.text|), g.data)
  {
    DataStart(g, v);
    Slices(image, v * SECTOR, g.head, Image.Padded(g.text), Image.Padded(g.data));
    SectorsOf(l, image, v + 1 + Loader.Sectors(|g.text|), g.data);
  }

  lemma DataStart(g: Program, v: nat)
    requires |g.head| == SECTOR
    ensures (v + 1 + Loader.Sectors(|g.text|)) * SECTOR == v * SECTOR + |g.head| + |Image.Padded(g.text)|
    ensures Loader.Sectors(|g.text|) >= 0
  {
    PaddedSectors(g.text);
  }

  lemma SegmentsRead(l: Loader.ImageLoader, image: seq<Byte>, g: Program, v: nat)
    requires Reads(l, image) && Sound(l, g) && OneAt(image, g, v)
    ensures Stored(l, g, v)
  {
    TextHeld(l, image, g, v);
    DataHeld(l, image, g, v);
  }

  // Memory from a on holds the bytes in s.
  ghost predicate BytesAt(m: seq<Byte>, a: int, s: seq<Byte>) {
    0 <= a && (s != [] ==> a + |s| <= |m|) && forall j :: 0 <= j < |s| && a + j < |m| ==> m[a + j] == s[j]
  }

  ghost predicate Clear(m: seq<Byte>, from: int, to: int) {
    forall k :: 0 <= k < |m| && from <= k < to ==> m[k] == 0
  }

  // A segment read from padded sectors: its bytes, and zeros to the end of the click.
  lemma FilledHas(l: Loader.ImageLoader, m: seq<Byte>, a: int, v: nat, s: seq<Byte>)
    requires LegalClick(l.click) && l.FilledIn(m, a, v, |s|) && SectorsHold(l, v, s)
    ensures BytesAt(m, a, s) && Clear(m, a + |s|, a + RoundUp(|s|, l.click))
  {
    var u := Unit(l.click);
    UnitDivides(l.click);
    Loader.ExtendBound(|s|, u, SECTOR);
    Loader.UnitBelow(|s|, l.click);
    forall k | a <= k < |m| && k < a + RoundUp(|s|, u) ensures m[k] == Image.Padded(s)[k - a] {
      assert m[k] == l.ImageByte(v, k - a);
    }
  }

  // A program in memory: text at a, data at its data segment, and zeros right behind the
  // data to the end of its bss.
  ghost predicate InPlace(l: Loader.ImageLoader, m: seq<Byte>, g: Program, a: int, kernel: bool)
    requires l.click > 0
  {
    var ds, end := Loader.DsStart(a, g.header, l.click), Loader.BssEnd(a, g.header, l.flags, kernel, l.click);
    BytesAt(m, a, g.text) && BytesAt(m, ds, g.data) && Clear(m, ds + |g.data|, end)
  }

  lemma ClearJoin(m: seq<Byte>, a: int, b: int, c: int)
    requires Clear(m, a, b) && Clear(m, b, c)
    ensures Clear(m, a, c)
  {
  }

  /** A program that the loader has in memory is the one in the image: its text and data lie
      where its segments start, and its bss is clear right from the end of its data. */
  lemma LoadedIsStored(l: Loader.ImageLoader, m: seq<Byte>, g: Program, sp: Loader.Span, kernel: bool)
    requires LegalClick(l.click) && Stored(l, g, sp.head) && l.HeaderAt(sp.head) == Some(g.header) && l.InSpan(m, sp, kernel)
    ensures InPlace(l, m, g, sp.start, kernel)
  {
    TextInPlace(l, m, g, sp, kernel);
    DataInPlace(l, m, g, sp, kernel);
  }

  lemma TextInPlace(l: Loader.ImageLoader, m: seq<Byte>, g: Program, sp: Loader.Span, kernel: bool)
    requires LegalClick(l.click) && Stored(l, g, sp.head) && l.HeaderAt(sp.head) == Some(g.header) && l.InSpan(m, sp, kernel)
    ensures BytesAt(m, sp.start, g.text)
  {
    TextFilled(l, m, g, sp, kernel);
    FilledHas(l, m, sp.start, sp.head + 1, g.text);
  }

  lemma TextFilled(l: Loader.ImageLoader, m: seq<Byte>, g: Program, sp: Loader.Span, kernel: bool)
    requires l.click > 0 && l.HeaderAt(sp.head) == Some(g.header) && Loader.TextPart(g.header) == |g.text|
    requires l.InSpan(m, sp, kernel)
    ensures l.FilledIn(m, sp.start, sp.head + 1, |g.text|)
  {
  }

  lemma DataInPlace(l: Loader.ImageLoader, m: seq<Byte>, g: Program, sp: Loader.Span, kernel: bool)
    requires LegalClick(l.click) && Stored(l, g, sp.head) && l.HeaderAt(sp.head) == Some(g.header) && l.InSpan(m, sp, kernel)
    ensures var ds := Loader.DsStart(sp.start, g.header, l.click);
      BytesAt(m, ds, g.data) && Clear(m, ds + |g.data|, Loader.BssEnd(sp.start, g.header, l.flags, kernel, l.click))
  {
    var ds := Loader.DsStart(sp.start, g.header, l.click);
    DataFilled(l, m, g, sp, kernel);
    DataJoined(l, m, ds, sp.head + 1 + Loader.Sectors(|g.text|), g.data,
               Loader.BssEnd(sp.start, g.header, l.flags, kernel, l.click));
  }

  lemma DataFilled(l: Loader.ImageLoader, m: seq<Byte>, g: Program, sp: Loader.Span, kernel: bool)
    requires l.click > 0 && l.HeaderAt(sp.head) == Some(g.header) && l.InSpan(m, sp, kernel)
    requires Loader.TextPart(g.header) == |g.text| && Loader.DataLen(g.header) == |g.data|
    ensures var ds := Loader.DsStart(sp.start, g.header, l.click);
      && l.FilledIn(m, ds, sp.head + 1 + Loader.Sectors(|g.text|), |g.data|)
      && Clear(m, ds + RoundUp(|g.data|, l.click), Loader.BssEnd(sp.start, g.header, l.flags, kernel, l.click))
  {
  }

  lemma DataJoined(l: Loader.ImageLoader, m: seq<Byte>, ds: int, v: nat, data: seq<Byte>, end: int)
    requires LegalClick(l.click) && l.FilledIn(m, ds, v, |data|) && SectorsHold(l, v, data)
    requires Clear(m, ds + RoundUp(|data|, l.click), end)
    ensures BytesAt(m, ds, data) && Clear(m, ds + |data|, end)
  {
    FilledHas(l, m, ds, v, data);
    ClearJoin(m, ds + |data|, ds + RoundUp(|data|, l.click), end);
  }

  lemma StoredHere(l: Loader.ImageLoader, gs: seq<Program>, i: nat)
    requires AllSound(l, gs) && Reads(l, LaidAll(gs)) && i < |gs|
    ensures var v := Heads(gs, 0)[i]; l.HeaderAt(v) == Some(gs[i].header) && Stored(l, gs[i], v)
  {
    var image := LaidAll(gs);
    assert image[0..] == image;
    LaidHere(l, image, gs, 0, i);
    HeaderFound(l, image, gs[i], Heads(gs, 0)[i]);
    SegmentsRead(l, image, gs[i], Heads(gs, 0)[i]);
  }

  // If span k is that of program i, it holds that program.
  ghost predicate InPlaceAt(l: Loader.ImageLoader, m: seq<Byte>, gs: seq<Program>, spans: seq<Loader.Span>, k: nat, i: nat)
    requires l.click > 0 && k < |spans| && i < |gs|
  {
    spans[k].head == Heads(gs, 0)[i] ==> InPlace(l, m, gs[i], spans[k].start, k == 0)
  }

  // --------------------------------------------------------------- packed programs

  // What make_image makes of a file.
  function ProgramOf(p: Image.File): (g: Program)
    requires Bootable(p)
  {
    var f := p.data;
    var body, text := Image.BodyOf(f), if Image.Sep(f) then Image.TextLen(f) else 0;
    Loader.ProcSizeNat(HeaderOf(f));
    Program(Image.HeaderSector(p.name, Image.Strip(Image.ExecOf(f))), HeaderOf(f), Loader.ProcSize(HeaderOf(f)),
            body[..text], body[text..])
  }

  ghost function ProgramsOf(ps: seq<Image.File>): (gs: seq<Program>)
    requires AllBootable(ps)
    ensures |gs| == |ps|
  {
    seq(|ps|, k requires 0 <= k < |ps| => assert Bootable(ps[k]); ProgramOf(ps[k]))
  }

  lemma ProgramPacked(p: Image.File)
    requires Bootable(p)
    ensures Laid(ProgramOf(p)) == Image.Packed(p)
  {
    var g := ProgramOf(p);
    if !Image.Sep(p.data) {
      Loader.RoundUpZero(SECTOR);
      assert g.data == Image.BodyOf(p.data);
      assert Image.Padded(g.text) + Image.Padded(g.data) == Image.Padded(g.data);
    }
  }

  // Stripping the symbols does not change what the loader reads.
  lemma SameHeader(f: seq<Byte>)
    requires Image.Complete(f) && Sizes(f)
    ensures var exec := Image.Strip(Image.ExecOf(f)); Image.GoodMagic(exec) && Sizes(exec) && HeaderOf(exec) == HeaderOf(f)
  {
    Image.SameHeader(f);
  }

  lemma HeaderParsed(p: Image.File)
    requires Bootable(p)
    ensures Parsed(ProgramOf(p).head) == Some(HeaderOf(p.data))
  {
    var exec := Image.Strip(Image.ExecOf(p.data));
    var sector := Image.HeaderSector(p.name, exec);
    SameHeader(p.data);
    assert sector[Image.NAME_SIZE..Image.NAME_SIZE + Image.EXEC_SIZE] == exec;
  }

  /** A file takes as many sectors in the image as the loader passes over to reach the next
      header. */
  lemma PackedSize(p: Image.File)
    requires Bootable(p)
    ensures |Image.Packed(p)| == SECTOR * (1 + Loader.ProcSize(HeaderOf(p.data))) && Loader.ProcSize(HeaderOf(p.data)) >= 0
  {
    var h, g := HeaderOf(p.data), ProgramOf(p);
    Loader.SectorsOfProc(h);
    Loader.ProcSizeNat(h);
    ProgramSizes(p);
    PaddedSectors(g.text);
    PaddedSectors(g.data);
    ProgramPacked(p);
  }

  lemma ProgramSizes(p: Image.File)
    requires Bootable(p)
    ensures var h, g := HeaderOf(p.data), ProgramOf(p); Loader.TextPart(h) == |g.text| && Loader.DataLen(h) == |g.data|
  {
    Loader.Sizes(HeaderOf(p.data));
  }

  // The loader finds headers where struct exec is.
  ghost predicate Parses(l: Loader.ImageLoader) {
    forall b: seq<Byte> {:trigger l.parse(b)} :: l.parse(b) == Parsed(b)
  }

  lemma ProgramSound(l: Loader.ImageLoader, p: Image.File)
    requires Parses(l) && Bootable(p)
    ensures Sound(l, ProgramOf(p))
  {
    HeaderParsed(p);
    ProgramSizes(p);
    PackedSize(p);
    ProgramPacked(p);
  }

  lemma ProgramsSound(l: Loader.ImageLoader, ps: seq<Image.File>)
    requires Parses(l) && AllBootable(ps)
    ensures AllSound(l, ProgramsOf(ps))
  {
    forall k | 0 <= k < |ps| ensures Sound(l, ProgramsOf(ps)[k]) {
      assert Bootable(ps[k]);
      ProgramSound(l, ps[k]);
    }
  }

  lemma AllAre(ps: seq<Image.File>)
    requires AllBootable(ps)
    ensures Image.AllExecutable(ps)
  {
    forall k | 0 <= k < |ps| ensures Image.Executable(ps[k]) {
      assert Bootable(ps[k]);
    }
  }

  /** The image that make_image writes. */
  lemma {:induction false} ImageIsLaid(ps: seq<Image.File>)
    requires AllBootable(ps) && Image.AllExecutable(ps)
    ensures LaidAll(ProgramsOf(ps)) == Image.PackedAll(ps)
    decreases |ps|
  {
    if ps != [] {
      FirstProgram(ps);
      ImageIsLaid(ps[1..]);
      Image.FirstAndRest(ps);
    }
  }

  lemma FirstProgram(ps: seq<Image.File>)
    requires AllBootable(ps) && ps != []
    ensures AllBootable(ps[1..]) && Image.AllExecutable(ps[1..]) && Image.Executable(ps[0])
    ensures ProgramsOf(ps)[1..] == ProgramsOf(ps[1..]) && Laid(ProgramsOf(ps)[0]) == Image.Packed(ps[0])
  {
    assert Bootable(ps[0]);
    forall k | 0 <= k < |ps[1..]| ensures Bootable(ps[1..][k]) {
      assert Bootable(ps[k + 1]);
    }
    AllAre(ps[1..]);
    ProgramPacked(ps[0]);
  }

  /** The loader run over an image that was built from ps: if it succeeds, its processes are
      the selected ones of ps in their order, and in memory that is not overlapped each has
      its text and data where its segments start. */
  method BootPacked(l: Loader.ImageLoader, ghost ps: seq<Image.File>, size: nat, base0: nat, limit0: nat, base1: nat, limit1: nat,
                    ghost disk: nat)
    returns (ok: bool, procs: seq<Loader.Process>, ghost spans: seq<Loader.Span>)
    requires AllBootable(ps) && Image.AllExecutable(ps) && Parses(l) && Sized(l, disk)
    requires Reads(l, Image.PackedAll(ps)) && EndsAt(l, Image.PackedAll(ps))
    requires size * SECTOR >= |Image.PackedAll(ps)| && LegalClick(l.click)
    requires base1 % l.click == 0 && base0 <= Loader.MAX_LIMIT && base1 + l.click < TWO32
    requires limit0 <= l.memory.Length && limit1 <= l.memory.Length && limit0 <= Loader.MAX_LIMIT && limit1 <= Loader.MAX_LIMIT
    modifies l`vsec, l`addr, l.memory
    ensures ok ==> size * SECTOR == |Image.PackedAll(ps)|
    ensures ok ==> Booted(l, ProgramsOf(ps), procs, spans, base0, base1)
    ensures ok && Loader.Apart(l.flags.high, base0, limit0, base1, limit1) && Loader.Roomy(spans) ==>
      forall k, i :: 0 <= k < |spans| && 0 <= i < |ps| ==> InPlaceAt(l, l.memory[..], ProgramsOf(ps), spans, k, i)
  {
    ghost var heads, why, gs := [], Loader.TooMany, ProgramsOf(ps);
    ProgramsSound(l, ps);
    ImageIsLaid(ps);
    LoaderReady(l, disk);
    ok, procs, heads, why, spans := l.ExecImage(size, base0, limit0, base1, limit1, disk);
    if ok {
      HeadersOfImage(l, gs, heads, l.vsec);
      AllInPlace(l, gs, spans, base0, limit0, base1, limit1);
    }
  }

  // The address behind the unmapped page of a segment.
  function Mapped(x: int, h: Loader.Header, click: int): (r: int) {
    (x + if h.uzp then click else 0) % TWO32
  }

  lemma MappedBack(a: int, h: Loader.Header, click: int)
    requires 0 <= a < TWO32
    ensures Mapped((a - if h.uzp then click else 0) % TWO32, h, click) == a
  {
    var shift := if h.uzp then click else 0;
    var q := (a - shift) / TWO32;
    assert (a - shift) % TWO32 + shift == a - q * TWO32;
    BootArith.DivMod(a - q * TWO32, -q, a, TWO32);
  }

  // The addresses q of a program lead to its text and data: behind the unmapped page, if there
  // is one, cs to its text, ds to its data or, without a text segment of its own, to its text;
  // and data to its data.
  ghost predicate Points(m: seq<Byte>, q: Loader.Process, h: Loader.Header, click: int, body: seq<Byte>, text: nat)
    requires text <= |body|
  {
    && BytesAt(m, Mapped(q.cs, h, click), body[..text])
    && BytesAt(m, Mapped(q.ds, h, click), if h.sep then body[text..] else body)
    && BytesAt(m, q.data, body[text..])
  }

  /** The addresses the monitor keeps for a program in memory lead to the text and data that
      were in its file. */
  lemma AddressesPoint(l: Loader.ImageLoader, m: seq<Byte>, p: Image.File, a: nat, kernel: bool)
    requires Bootable(p) && l.click > 0 && InPlace(l, m, ProgramOf(p), a, kernel)
    requires Loader.DsStart(a, HeaderOf(p.data), l.click) + |Image.BodyOf(p.data)| < TWO32
    ensures var f, h := p.data, HeaderOf(p.data);
      && 0 <= Image.TextLen(f) <= |Image.BodyOf(f)|
      && Points(m, Loader.Placed(a, h, l.flags, kernel, l.click), h, l.click, Image.BodyOf(f), Image.TextLen(f))
  {
    TextSize(p);
    if Image.Sep(p.data) {
      SeparatePoint(l, m, p, a, kernel);
    } else {
      CommonPoint(l, m, p, a, kernel);
    }
  }

  lemma TextSize(p: Image.File)
    requires Bootable(p)
    ensures var h := HeaderOf(p.data);
      && Loader.TextLen(h) == Image.TextLen(p.data) && h.sep == Image.Sep(p.data)
      && 0 <= Image.TextLen(p.data) <= |Image.BodyOf(p.data)|
  {
    Loader.Sizes(HeaderOf(p.data));
  }

  lemma SeparatePoint(l: Loader.ImageLoader, m: seq<Byte>, p: Image.File, a: nat, kernel: bool)
    requires Bootable(p) && l.click > 0 && InPlace(l, m, ProgramOf(p), a, kernel) && Image.Sep(p.data)
    requires Loader.DsStart(a, HeaderOf(p.data), l.click) < TWO32 && 0 <= Image.TextLen(p.data) <= |Image.BodyOf(p.data)|
    requires Loader.TextLen(HeaderOf(p.data)) == Image.TextLen(p.data)
    ensures var f, h := p.data, HeaderOf(p.data);
      Points(m, Loader.Placed(a, h, l.flags, kernel, l.click), h, l.click, Image.BodyOf(f), Image.TextLen(f))
  {
    PlacedAt(a, HeaderOf(p.data), l.flags, kernel, l.click);
  }

  lemma CommonPoint(l: Loader.ImageLoader, m: seq<Byte>, p: Image.File, a: nat, kernel: bool)
    requires Bootable(p) && l.click > 0 && InPlace(l, m, ProgramOf(p), a, kernel) && !Image.Sep(p.data)
    requires 0 <= Image.TextLen(p.data) <= |Image.BodyOf(p.data)| && a + |Image.BodyOf(p.data)| < TWO32
    requires Loader.TextLen(HeaderOf(p.data)) == Image.TextLen(p.data)
    ensures var f, h := p.data, HeaderOf(p.data);
      Points(m, Loader.Placed(a, h, l.flags, kernel, l.click), h, l.click, Image.BodyOf(f), Image.TextLen(f))
  {
    CommonBody(l, m, p, a, kernel);
    CommonPoints(m, HeaderOf(p.data), a, l.flags, kernel, l.click, Image.BodyOf(p.data), Image.TextLen(p.data));
  }

  lemma CommonPoints(m: seq<Byte>, h: Loader.Header, a: nat, f: Loader.Flags, kernel: bool, click: int,
                     body: seq<Byte>, text: nat)
    requires click > 0 && !h.sep && text <= |body| && a + |body| < TWO32 && Loader.TextLen(h) == text && BytesAt(m, a, body)
    ensures Points(m, Loader.Placed(a, h, f, kernel, click), h, click, body, text)
  {
    PartsAt(m, a, body, text);
    CommonStart(a, h, click);
    PlacedAt(a, h, f, kernel, click);
  }

  lemma CommonBody(l: Loader.ImageLoader, m: seq<Byte>, p: Image.File, a: nat, kernel: bool)
    requires Bootable(p) && l.click > 0 && InPlace(l, m, ProgramOf(p), a, kernel) && !Image.Sep(p.data)
    ensures BytesAt(m, a, Image.BodyOf(p.data))
  {
    CommonStart(a, HeaderOf(p.data), l.click);
    assert Image.BodyOf(p.data)[0..] == Image.BodyOf(p.data);
  }

  lemma CommonStart(a: int, h: Loader.Header, click: int)
    requires click > 0 && !h.sep
    ensures Loader.DsStart(a, h, click) == a
  {
  }

  // The addresses of a program that starts at a.
  lemma PlacedAt(a: nat, h: Loader.Header, f: Loader.Flags, kernel: bool, click: int)
    requires click > 0 && Loader.TextLen(h) >= 0
    requires if h.sep then Loader.DsStart(a, h, click) < TWO32 else a + Loader.TextLen(h) < TWO32
    ensures var q, ds := Loader.Placed(a, h, f, kernel, click), Loader.DsStart(a, h, click);
      && Mapped(q.cs, h, click) == a && Mapped(q.ds, h, click) == ds
      && q.data == if h.sep then ds else a + Loader.TextLen(h)
  {
    MappedBack(a, h, click);
    MappedBack(Loader.DsStart(a, h, click), h, click);
  }

  lemma PartsAt(m: seq<Byte>, a: int, s: seq<Byte>, n: nat)
    requires n <= |s| && BytesAt(m, a, s)
    ensures BytesAt(m, a, s[..n]) && BytesAt(m, a + n, s[n..])
  {
    forall j | 0 <= j < |s| - n && a + n + j < |m| ensures m[a + n + j] == s[n..][j] {
      assert m[a + (n + j)] == s[n + j];
    }
  }

  // The processes and spans are those of the selected programs.
  ghost predicate Booted(l: Loader.ImageLoader, gs: seq<Program>, procs: seq<Loader.Process>, spans: seq<Loader.Span>,
                         base0: int, base1: int)
    requires l.click > 0
  {
    var picked := l.Chosen(Heads(gs, 0));
    l.Layout(procs, picked, base0, base1) && l.SpansOf(spans, procs, picked, base0, base1)
  }

  // There are sectors below number disk only.
  ghost predicate Sized(l: Loader.ImageLoader, disk: nat) {
    forall v: nat {:trigger l.sector(v)} :: l.sector(v).Some? ==> v < disk && |l.sector(v).value| == SECTOR
  }

  lemma LoaderReady(l: Loader.ImageLoader, disk: nat)
    requires Parses(l) && Sized(l, disk) && LegalClick(l.click)
    ensures l.Booting(disk)
  {
    forall b: seq<Byte> | l.parse(b).Some? ensures Loader.Longs(l.parse(b).value) {
    }
  }

  lemma AllInPlace(l: Loader.ImageLoader, gs: seq<Program>, spans: seq<Loader.Span>,
                   base0: int, limit0: int, base1: int, limit1: int)
    requires AllSound(l, gs) && Reads(l, LaidAll(gs)) && LegalClick(l.click)
    requires l.Whole(l.memory[..], spans, base0, limit0, base1, limit1)
    ensures Loader.Apart(l.flags.high, base0, limit0, base1, limit1) && Loader.Roomy(spans) ==>
      forall k, i :: 0 <= k < |spans| && 0 <= i < |gs| ==> InPlaceAt(l, l.memory[..], gs, spans, k, i)
  {
    if Loader.Apart(l.flags.high, base0, limit0, base1, limit1) && Loader.Roomy(spans) {
      forall k, i | 0 <= k < |spans| && 0 <= i < |gs| ensures InPlaceAt(l, l.memory[..], gs, spans, k, i) {
        if spans[k].head == Heads(gs, 0)[i] {
          StoredHere(l, gs, i);
          LoadedIsStored(l, l.memory[..], gs[i], spans[k], k == 0);
        }
      }
    }
  }
}
