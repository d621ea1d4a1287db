/**
 The image builder: executables laid out in padded sectors behind a header sector each,
 and the extraction that takes them out again.
 */
module Image {
  import opened Options
  import opened BootArith

  // A program given to make_image, and a file written by extract_image.
  datatype File = File(name: seq<Byte>, data: seq<Byte>)

  const NAME_SIZE := 64      // IM_NAME_MAX + 1
  const EXEC_SIZE := 48      // sizeof(struct exec)
  const A_MINHDR := 32

  function Zeros(n: nat): (z: seq<Byte>)
    ensures |z| == n && forall k :: 0 <= k < n ==> z[k] == 0
  {
    seq(n, _ => 0)
  }

  // ------------------------------------------------------------- struct exec

  // A long, least significant byte first.
  function Long(h: seq<Byte>, i: nat): (n: int)
    requires i + 4 <= |h|
  {
    var u: int := h[i] as int + 0x100 * h[i + 1] as int + 0x1_0000 * h[i + 2] as int + 0x100_0000 * h[i + 3] as int;
    if u < 0x8000_0000 then u else u - TWO32
  }

  predicate Pal(h: seq<Byte>)
    requires |h| >= A_MINHDR
  {
    h[2] / 0x02 % 2 == 1
  }

  predicate Sep(h: seq<Byte>)
    requires |h| >= A_MINHDR
  {
    h[2] / 0x20 % 2 == 1
  }

  // The length of text, with the header in front for a page aligned program.
  function TextLen(h: seq<Byte>): (n: int)
    requires |h| >= A_MINHDR
  {
    Long(h, 8) + if Pal(h) then h[4] else 0
  }

  function DataLen(h: seq<Byte>): (n: int)
    requires |h| >= A_MINHDR
  {
    Long(h, 12)
  }

  predicate GoodMagic(h: seq<Byte>)
    requires |h| >= A_MINHDR
  {
    h[0] == 1 && h[1] == 3
  }

  // Without its symbol table: a_syms is 0 and A_NSYM is off.
  function Strip(h: seq<Byte>): (r: seq<Byte>)
    requires |h| == EXEC_SIZE
    ensures |r| == |h| && GoodMagic(r) == GoodMagic(h) && r[4] == h[4]
    ensures Pal(r) == Pal(h) && Sep(r) == Sep(h) && TextLen(r) == TextLen(h) && DataLen(r) == DataLen(h)
  {
    h[2 := h[2] - h[2] / 4 % 2 * 4][28 := 0][29 := 0][30 := 0][31 := 0]
  }

  /** What stripping does to a header: a_syms is 0, the symbol table flag is off, and every
      other byte and every other flag is as it was. */
  lemma StripIs(h: seq<Byte>)
    requires |h| == EXEC_SIZE
    ensures var r := Strip(h);
      && Long(r, 28) == 0 && r[2] / 4 % 2 == 0 && r[2] % 4 == h[2] % 4 && r[2] / 8 == h[2] / 8
      && forall k :: 0 <= k < EXEC_SIZE && k != 2 && !(28 <= k < 32) ==> r[k] == h[k]
  {
    FlagOff(h[2], Strip(h)[2]);
  }

  lemma FlagOff(a: int, b: int)
    requires 0 <= a < 256 && b == a - a / 4 % 2 * 4
    ensures b / 4 % 2 == 0 && b % 4 == a % 4 && b / 8 == a / 8
  {
    assert a / 4 % 2 == 0 || a / 4 % 2 == 1;
  }

  // --------------------------------------------------------------- make_image

  // read_header: the header of a file as it lies in memory.
  function ExecOf(file: seq<Byte>): (h: seq<Byte>)
    requires |file| >= A_MINHDR && A_MINHDR <= file[4] <= EXEC_SIZE && file[4] <= |file|
    ensures |h| == EXEC_SIZE && forall k :: 0 <= k < file[4] ==> h[k] == file[k]
  {
    file[..file[4]] + Zeros(EXEC_SIZE - file[4])
  }

  // A file that make_image can copy: a good header of a size that fits, and all the
  // bytes of text and data it promises.
  predicate Executable(p: File) {
    |p.name| < NAME_SIZE && (forall k :: 0 <= k < |p.name| ==> p.name[k] != 0) && Complete(p.data)
  }

  predicate Complete(f: seq<Byte>) {
    && |f| >= A_MINHDR && GoodMagic(f) && A_MINHDR <= f[4] <= EXEC_SIZE && f[4] <= |f|
    && Long(f, 8) >= 0 && Long(f, 12) >= 0 && BodyStart(f) + TextLen(f) + DataLen(f) <= |f|
  }

  // Where copying starts: a page aligned program is copied from its header on.
  function BodyStart(file: seq<Byte>): (r: nat)
    requires |file| >= A_MINHDR
  {
    if Pal(file) then 0 else file[4]
  }

  // copyexec: bytes padded to fill a sector.
  function Padded(s: seq<Byte>): (r: seq<Byte>)
    ensures |r| == RoundUp(|s|, SECTOR) && r[..|s|] == s
  {
    s + Zeros(RoundUp(|s|, SECTOR) - |s|)
  }

  function HeaderSector(name: seq<Byte>, h: seq<Byte>): (r: seq<Byte>)
    requires |name| < NAME_SIZE && |h| == EXEC_SIZE
    ensures |r| == SECTOR
  {
    name + Zeros(NAME_SIZE - |name|) + h + Zeros(SECTOR - NAME_SIZE - EXEC_SIZE)
  }

  // The bytes that are copied.
  function BodyOf(f: seq<Byte>): (r: seq<Byte>)
    requires Complete(f)
    ensures |r| == TextLen(f) + DataLen(f)
  {
    f[BodyStart(f)..BodyStart(f) + TextLen(f) + DataLen(f)]
  }

  function Segments(f: seq<Byte>): (r: seq<Byte>)
    requires Complete(f)
  {
    Pack(BodyOf(f), TextLen(f), Sep(f))
  }

  // Separate I and D: text and data padded separately.  Common: kept together.
  function Pack(body: seq<Byte>, text: nat, sep: bool): (r: seq<Byte>)
    requires text <= |body|
  {
    if sep then Padded(body[..text]) + Padded(body[text..]) else Padded(body)
  }

  // What one program adds to the image.
  function Packed(p: File): (r: seq<Byte>)
    requires Executable(p)
    ensures |r| >= SECTOR
  {
    HeaderSector(p.name, Strip(ExecOf(p.data))) + Segments(p.data)
  }

  ghost predicate AllExecutable(ps: seq<File>) {
    forall k {:trigger Executable(ps[k])} :: 0 <= k < |ps| ==> Executable(ps[k])
  }

  function Flatten(parts: seq<seq<Byte>>): (r: seq<Byte>) {
    if parts == [] then [] else parts[0] + Flatten(parts[1..])
  }

  lemma {:induction false} FlattenAppend(parts: seq<seq<Byte>>, p: seq<Byte>)
    ensures Flatten(parts + [p]) == Flatten(parts) + p
  {
    if parts == [] {
      assert parts + [p] == [p] && [p][1..] == [];
    } else {
      assert (parts + [p])[1..] == parts[1..] + [p];
      FlattenAppend(parts[1..], p);
    }
  }

  ghost function Parts(ps: seq<File>): (r: seq<seq<Byte>>)
    requires AllExecutable(ps)
    ensures |r| == |ps|
  {
    seq(|ps|, k requires 0 <= k < |ps| => assert Executable(ps[k]); Packed(ps[k]))
  }

  // The whole image.
  ghost function PackedAll(ps: seq<File>): (r: seq<Byte>)
    requires AllExecutable(ps)
  {
    Flatten(Parts(ps))
  }

  // ------------------------------------------------------------- extract_image

  // A C string in a buffer.
  function CString(b: seq<Byte>): (r: seq<Byte>)
    ensures |r| <= |b|
  {
    if b == [] || b[0] == 0 then [] else [b[0]] + CString(b[1..])
  }

  // extractexec: n bytes out of whole sectors, and what follows them.
  function Unpad(image: seq<Byte>, n: int): (r: Option<(seq<Byte>, seq<Byte>)>)
    ensures r.Some? ==> |r.value.1| <= |image|
  {
    if n <= 0 then Some(([], image))
    else if |image| < RoundUp(n, SECTOR) then None
    else Some((image[..n], image[RoundUp(n, SECTOR)..]))
  }

  // The text and data of the program at the front of an image, and what follows.
  function TakeBody(image: seq<Byte>, text: int, data: int, sep: bool): (r: Option<(seq<Byte>, seq<Byte>)>)
    ensures r.Some? ==> |r.value.1| <= |image|
  {
    if sep then
      var t := Unpad(image, text);
      if t.None? then None
      else
        var d := Unpad(t.value.1, data);
        if d.None? then None else Some((t.value.0 + d.value.0, d.value.1))
    else Unpad(image, text + data)
  }

  // The files in an image, None when extraction stops with an error.
  function Unpacked(image: seq<Byte>): (r: Option<seq<File>>)
    decreases |image|, 0
  {
    if image == [] then Some([])
    else if |image| < SECTOR then None
    else UnpackedBehind(CString(image[..NAME_SIZE]), image[NAME_SIZE..NAME_SIZE + EXEC_SIZE], image[SECTOR..])
  }

  // ... from the text of the program with header h on.
  function UnpackedBehind(name: seq<Byte>, h: seq<Byte>, image: seq<Byte>): (r: Option<seq<File>>)
    requires |h| == EXEC_SIZE
    decreases |image|, 1
  {
    if !GoodMagic(h) || h[4] < A_MINHDR || h[4] > EXEC_SIZE then None
    else
      var body := TakeBody(image, TextLen(h), DataLen(h), Sep(h));
      if body.None? then None
      else
        var rest := Unpacked(body.value.1);
        if rest.None? then None else Some([File(name, Written(h, body.value.0))] + rest.value)
  }

  // What is written for a program: a page aligned one has its header in its text.
  function Written(h: seq<Byte>, body: seq<Byte>): (r: seq<Byte>)
    requires |h| == EXEC_SIZE && h[4] <= EXEC_SIZE
  {
    if Pal(h) then body else h[..h[4]] + body
  }

  // What comes back for a program.
  function Returned(p: File): (r: File)
    requires Executable(p)
  {
    var f := p.data;
    File(p.name, if Pal(f) then f[..f[4] + Long(f, 8) + Long(f, 12)]
                 else Strip(ExecOf(f))[..f[4]] + f[f[4]..f[4] + Long(f, 8) + Long(f, 12)])
  }

  ghost function ReturnedAll(ps: seq<File>): (r: seq<File>)
    requires AllExecutable(ps)
    ensures |r| == |ps|
  {
    seq(|ps|, k requires 0 <= k < |ps| => assert Executable(ps[k]); Returned(ps[k]))
  }

  // ---------------------------------------------------------------- round trip

  lemma UnpadPadded(s: seq<Byte>, rest: seq<Byte>)
    ensures Unpad(Padded(s) + rest, |s|) == Some((s, rest))
  {
    var m := Padded(s) + rest;
    RoundZero();
    if |s| > 0 {
      assert m[..|s|] == s && m[RoundUp(|s|, SECTOR)..] == rest;
    } else {
      assert m == rest;
    }
  }

  lemma RoundZero()
    ensures RoundUp(0, SECTOR) == 0
  {
  }

  lemma SameHeader(file: seq<Byte>)
    requires |file| >= A_MINHDR && A_MINHDR <= file[4] <= EXEC_SIZE && file[4] <= |file|
    ensures var h := Strip(ExecOf(file));
      && Pal(h) == Pal(file) && Sep(h) == Sep(file) && TextLen(h) == TextLen(file) && DataLen(h) == DataLen(file)
      && GoodMagic(h) == GoodMagic(file) && h[4] == file[4]
  {
  }

  lemma BodyComesBack(body: seq<Byte>, text: nat, sep: bool, rest: seq<Byte>)
    requires text <= |body|
    ensures TakeBody(Pack(body, text, sep) + rest, text, |body| - text, sep) == Some((body, rest))
  {
    if sep {
      var t, d := body[..text], body[text..];
      assert Pack(body, text, sep) + rest == Padded(t) + (Padded(d) + rest);
      UnpadPadded(t, Padded(d) + rest);
      UnpadPadded(d, rest);
      assert t + d == body;
    } else {
      UnpadPadded(body, rest);
    }
  }

  lemma {:induction false} NameComesBack(name: seq<Byte>, rest: seq<Byte>)
    requires (forall k :: 0 <= k < |name| ==> name[k] != 0) && rest != [] && rest[0] == 0
    ensures CString(name + rest) == name
    decreases |name|
  {
    if name == [] {
      assert name + rest == rest;
    } else {
      assert (name + rest)[1..] == name[1..] + rest;
      NameComesBack(name[1..], rest);
    }
  }

  lemma HeaderComesBack(name: seq<Byte>, h: seq<Byte>, rest: seq<Byte>)
    requires |name| < NAME_SIZE && |h| == EXEC_SIZE && forall k :: 0 <= k < |name| ==> name[k] != 0
    ensures var image := HeaderSector(name, h) + rest;
      && image[SECTOR..] == rest && image[NAME_SIZE..NAME_SIZE + EXEC_SIZE] == h
      && CString(image[..NAME_SIZE]) == name
  {
    var image := HeaderSector(name, h) + rest;
    assert image[..NAME_SIZE] == name + Zeros(NAME_SIZE - |name|);
    NameComesBack(name, Zeros(NAME_SIZE - |name|));
  }

  /** extract_image gives back what make_image packed: of each program its stripped header,
      its text and its data, byte for byte, or the file from its header on for a page
      aligned one. */
  lemma {:induction false} RoundTrip(ps: seq<File>)
    requires AllExecutable(ps)
    ensures Unpacked(PackedAll(ps)) == Some(ReturnedAll(ps))
    decreases |ps|
  {
    if ps != [] {
      var rest := ps[1..];
      assert Executable(ps[0]);
      assert AllExecutable(rest) by {
        forall k | 0 <= k < |rest| ensures Executable(rest[k]) {
          assert Executable(ps[k + 1]);
        }
      }
      RoundTrip(rest);
      FirstComesBack(ps[0], PackedAll(rest));
      FirstAndRest(ps);
    }
  }

  lemma FirstAndRest(ps: seq<File>)
    requires ps != [] && AllExecutable(ps) && AllExecutable(ps[1..]) && Executable(ps[0])
    ensures PackedAll(ps) == Packed(ps[0]) + PackedAll(ps[1..])
    ensures ReturnedAll(ps) == [Returned(ps[0])] + ReturnedAll(ps[1..])
  {
    PartsSplit(ps);
    ReturnedSplit(ps);
  }

  lemma PartsSplit(ps: seq<File>)
    requires ps != [] && AllExecutable(ps) && AllExecutable(ps[1..]) && Executable(ps[0])
    ensures Parts(ps)[0] == Packed(ps[0]) && Parts(ps)[1..] == Parts(ps[1..])
  {
  }

  lemma ReturnedSplit(ps: seq<File>)
    requires ps != [] && AllExecutable(ps) && AllExecutable(ps[1..]) && Executable(ps[0])
    ensures ReturnedAll(ps) == [Returned(ps[0])] + ReturnedAll(ps[1..])
  {
    var a, b := ReturnedAll(ps), [Returned(ps[0])] + ReturnedAll(ps[1..]);
    assert |a| == |b| && a[0] == b[0];
    forall k | 0 < k < |ps| ensures a[k] == b[k] {
      assert Executable(ps[k]) && ps[1..][k - 1] == ps[k];
    }
  }

  lemma FirstComesBack(p: File, rest: seq<Byte>)
    requires Executable(p)
    ensures var r := Unpacked(rest);
      Unpacked(Packed(p) + rest) == if r.None? then None else Some([Returned(p)] + r.value)
  {
    var h, after := Strip(ExecOf(p.data)), Segments(p.data) + rest;
    HeaderComesBack(p.name, h, after);
    assert Packed(p) + rest == HeaderSector(p.name, h) + after;
    assert Unpacked(HeaderSector(p.name, h) + after) == UnpackedBehind(p.name, h, after);
    BehindComesBack(p, rest);
  }

  lemma BehindComesBack(p: File, rest: seq<Byte>)
    requires Executable(p)
    ensures var r := Unpacked(rest);
      UnpackedBehind(p.name, Strip(ExecOf(p.data)), Segments(p.data) + rest)
      == if r.None? then None else Some([Returned(p)] + r.value)
  {
    SegmentsTaken(p.data, rest);
    SameHeader(p.data);
    ReturnedIs(p);
    Behind(p.name, Strip(ExecOf(p.data)), Segments(p.data) + rest, BodyOf(p.data), rest);
  }

  lemma SegmentsTaken(f: seq<Byte>, rest: seq<Byte>)
    requires Complete(f)
    ensures var h := Strip(ExecOf(f));
      TakeBody(Segments(f) + rest, TextLen(h), DataLen(h), Sep(h)) == Some((BodyOf(f), rest))
  {
    SameHeader(f);
    BodyComesBack(BodyOf(f), TextLen(f), Sep(f), rest);
  }

  lemma ReturnedIs(p: File)
    requires Executable(p)
    ensures Returned(p) == File(p.name, Written(Strip(ExecOf(p.data)), BodyOf(p.data)))
  {
    SameHeader(p.data);
  }

  lemma Behind(name: seq<Byte>, h: seq<Byte>, image: seq<Byte>, body: seq<Byte>, rest: seq<Byte>)
    requires |h| == EXEC_SIZE && GoodMagic(h) && A_MINHDR <= h[4] <= EXEC_SIZE
    requires TakeBody(image, TextLen(h), DataLen(h), Sep(h)) == Some((body, rest))
    ensures var r := Unpacked(rest);
      UnpackedBehind(name, h, image) == if r.None? then None else Some([File(name, Written(h, body))] + r.value)
  {
  }

  // ------------------------------------------------------------- the programs

  method PadImage(image: seq<Byte>, n: nat) returns (r: seq<Byte>)
    ensures r == image + Zeros(n)
  {
    r := image;
    var left := n;
    while left > 0
      invariant 0 <= left <= n && r == image + Zeros(n - left)
    {
      r := r + [0];
      left := left - 1;
    }
  }

  method CopyExec(file: seq<Byte>, pos: nat, image: seq<Byte>, n: nat) returns (ok: bool, end: nat, r: seq<Byte>)
    requires pos <= |file|
    ensures ok <==> pos + n <= |file|
    ensures ok ==> end == pos + n && r == image + Padded(file[pos..pos + n])
  {
    var pad := RoundUp(n, SECTOR) - n;
    var left := n;
    end, r := pos, image;
    while left > 0
      invariant 0 <= left <= n && end == pos + n - left <= |file| && r == image + file[pos..end]
    {
      if end == |file| {
        return false, end, r;
      }
      r, end := r + [file[end]], end + 1;
      left := left - 1;
    }
    r := PadImage(r, pad);
    ok := true;
  }

  // What read_header takes for granted: a header length of 32 to 48 and sizes that are
  // not negative.
  predicate Plausible(p: File) {
    && |p.name| < NAME_SIZE && (forall k :: 0 <= k < |p.name| ==> p.name[k] != 0)
    && (|p.data| >= A_MINHDR && GoodMagic(p.data) ==>
          A_MINHDR <= p.data[4] <= EXEC_SIZE && Long(p.data, 8) >= 0 && Long(p.data, 12) >= 0)
  }

  // make_image for one program.
  method AddProgram(p: File, image: seq<Byte>) returns (ok: bool, r: seq<Byte>)
    requires Plausible(p)
    ensures ok <==> Executable(p)
    ensures ok ==> r == image + Packed(p)
  {
    var f := p.data;
    r := image;
    if |f| < A_MINHDR || !GoodMagic(f) || |f| < f[4] {
      return false, r;
    }
    var head := HeaderSector(p.name, Strip(ExecOf(f)));
    var pos, text := TextAt(f);
    ok, r := CopySegments(f, pos, image + head, text, Long(f, 12), Sep(f));
    if ok {
      Joined(image, head, Segments(f));
    }
  }

  // A page aligned executable needs the header in text.
  method TextAt(f: seq<Byte>) returns (pos: nat, text: int)
    requires |f| >= A_MINHDR
    ensures pos == BodyStart(f) && text == TextLen(f)
  {
    pos, text := f[4], Long(f, 8);
    if Pal(f) {
      pos, text := 0, text + f[4];
    }
  }

  lemma Joined(a: seq<Byte>, b: seq<Byte>, c: seq<Byte>)
    ensures (a + b) + c == a + (b + c)
  {
  }

  method CopySegments(f: seq<Byte>, pos0: nat, image: seq<Byte>, text: nat, data: nat, sep: bool)
    returns (ok: bool, r: seq<Byte>)
    requires pos0 <= |f|
    ensures ok <==> pos0 + text + data <= |f|
    ensures ok ==> r == image + Pack(f[pos0..pos0 + text + data], text, sep)
  {
    var pos := pos0;
    if sep {
      ok, pos, r := CopyExec(f, pos, image, text);
      if ok {
        ok, pos, r := CopyExec(f, pos, r, data);
        ghost var body := f[pos0..if ok then pos0 + text + data else pos0 + text];
        assert body[..text] == f[pos0..pos0 + text] && (ok ==> body[text..] == f[pos0 + text..pos0 + text + data]);
      }
    } else {
      ok, pos, r := CopyExec(f, pos, image, text + data);
    }
  }

  lemma PackedAppend(ps: seq<File>, p: File)
    requires AllExecutable(ps) && Executable(p)
    ensures AllExecutable(ps + [p]) && PackedAll(ps + [p]) == PackedAll(ps) + Packed(p)
  {
    assert AllExecutable(ps + [p]) by {
      forall k | 0 <= k < |ps + [p]| ensures Executable((ps + [p])[k]) {
        assert k < |ps| ==> Executable(ps[k]);
      }
    }
    assert Parts(ps + [p]) == Parts(ps) + [Packed(p)];
    FlattenAppend(Parts(ps), Packed(p));
  }

  method MakeImage(ps: seq<File>) returns (ok: bool, image: seq<Byte>)
    requires forall k {:trigger Plausible(ps[k])} :: 0 <= k < |ps| ==> Plausible(ps[k])
    ensures ok <==> AllExecutable(ps)
    ensures ok ==> image == PackedAll(ps)
  {
    image := [];
    for i := 0 to |ps|
      invariant AllExecutable(ps[..i]) && image == PackedAll(ps[..i])
    {
      assert Plausible(ps[i]);
      ok, image := AddProgram(ps[i], image);
      if !ok {
        assert !Executable(ps[i]);
        return;
      }
      assert ps[..i + 1] == ps[..i] + [ps[i]];
      PackedAppend(ps[..i], ps[i]);
    }
    assert ps[..|ps|] == ps;
    ok := true;
  }

  method ExtractExec(image: seq<Byte>, pos: nat, out: seq<Byte>, n: int) returns (ok: bool, end: nat, r: seq<Byte>)
    requires pos <= |image|
    ensures ok <==> Unpad(image[pos..], n).Some?
    ensures ok ==> end <= |image| && |out| <= |r| && r[..|out|] == out
    ensures ok ==> Unpad(image[pos..], n) == Some((r[|out|..], image[end..]))
  {
    var left := n;
    end, r := pos, out;
    while left > 0
      invariant pos <= end <= |image| && left == n - (end - pos) && (n <= 0 ==> end == pos)
      invariant (end - pos) % SECTOR == 0 && (left > 0 || n <= 0 || -SECTOR < left)
      invariant r == out + image[pos..if left > 0 then end else if n > 0 then pos + n else pos]
      invariant n > 0 ==> (if left > 0 then end else pos + n) <= |image|
      decreases left
    {
      if end + SECTOR > |image| {
        CutShort(image, pos, n, end);
        return false, end, r;
      }
      var buf := image[end..end + SECTOR];
      var take := if left < SECTOR then left else SECTOR;
      Extended(image, pos, end, take, out);
      r := r + buf[..take];
      end := end + SECTOR;
      left := left - SECTOR;
    }
    if n > 0 {
      RoundUpUnique(n, SECTOR, end - pos);
      UnpadAt(image, pos, n, end);
      assert r[|out|..] == image[pos..pos + n];
    } else {
      assert r == out && r[|out|..] == [];
    }
    ok := true;
  }

  // The image ends before the last sector.
  lemma CutShort(image: seq<Byte>, pos: nat, n: int, end: nat)
    requires pos <= end <= |image| < end + SECTOR && (end - pos) % SECTOR == 0 && n > end - pos
    ensures Unpad(image[pos..], n).None?
  {
    RoundUpMultiple(n, SECTOR);
  }

  // A sector more, or the first bytes of it.
  lemma Extended(image: seq<Byte>, pos: nat, end: nat, take: nat, out: seq<Byte>)
    requires pos <= end && end + SECTOR <= |image| && take <= SECTOR
    ensures out + image[pos..end] + image[end..end + SECTOR][..take] == out + image[pos..end + take]
  {
    assert image[pos..end] + image[end..end + SECTOR][..take] == image[pos..end + take];
  }

  lemma UnpadAt(image: seq<Byte>, pos: nat, n: int, end: nat)
    requires n > 0 && pos + n <= end <= |image| && end - pos == RoundUp(n, SECTOR)
    ensures Unpad(image[pos..], n) == Some((image[pos..pos + n], image[end..]))
  {
    assert image[pos..][..n] == image[pos..pos + n] && image[pos..][end - pos..] == image[end..];
  }

  // extract_image for one program, its header sector being read.
  method ExtractProgram(image: seq<Byte>, pos: nat, name: seq<Byte>, h: seq<Byte>)
    returns (ok: bool, end: nat, file: File)
    requires pos <= |image| && |h| == EXEC_SIZE
    ensures var b := TakeBody(image[pos..], TextLen(h), DataLen(h), Sep(h));
      && (ok <==> GoodMagic(h) && A_MINHDR <= h[4] <= EXEC_SIZE && b.Some?)
      && (ok ==> end <= |image| && b.value.1 == image[end..] && file == File(name, Written(h, b.value.0)))
  {
    end, file := pos, File(name, []);
    if !GoodMagic(h) || h[4] < A_MINHDR || h[4] > EXEC_SIZE {
      return false, end, file;
    }
    var text, head := Long(h, 8), [];
    if Pal(h) {
      text := text + h[4];
    } else {
      head := h[..h[4]];
    }
    var out;
    ok, end, out := ExtractBody(image, pos, head, text, Long(h, 12), Sep(h));
    file := File(name, out);
  }

  method ExtractBody(image: seq<Byte>, pos: nat, head: seq<Byte>, text: int, data: int, sep: bool)
    returns (ok: bool, end: nat, out: seq<Byte>)
    requires pos <= |image|
    ensures var b := TakeBody(image[pos..], text, data, sep);
      && (ok <==> b.Some?)
      && (ok ==> end <= |image| && b.value.1 == image[end..] && out == head + b.value.0)
  {
    if sep {
      ok, end, out := ExtractExec(image, pos, head, text);
      if ok {
        ghost var t := out[|head|..];
        assert out == head + t;
        ok, end, out := ExtractExec(image, end, out, data);
        if ok {
          assert out == head + (t + out[|head + t|..]);
        }
      }
    } else {
      ok, end, out := ExtractExec(image, pos, head, text + data);
      if ok {
        assert out == head + out[|head|..];
      }
    }
  }

  // extract_image; len is what it believes to be left of the image.
  method ExtractImage(image: seq<Byte>) returns (ok: bool, files: seq<File>, len: int)
    ensures ok <==> Unpacked(image).Some?
    ensures ok ==> files == Unpacked(image).value && len == 0
  {
    var pos := 0;
    len, files := |image|, [];
    assert image[0..] == image;
    assert Unpacked(image).Some? ==> [] + Unpacked(image).value == Unpacked(image).value;
    while len != 0
      invariant 0 <= pos <= |image| && len == |image| - pos
      invariant Unpacked(image) == Prefixed(files, Unpacked(image[pos..]))
      decreases len
    {
      if pos + SECTOR > |image| {
        return false, files, len;
      }
      var buf := image[pos..pos + SECTOR];
      FirstSector(image, pos);
      var end, file;
      ok, end, file := ExtractProgram(image, pos + SECTOR, CString(buf[..NAME_SIZE]), buf[NAME_SIZE..NAME_SIZE + EXEC_SIZE]);
      if !ok {
        return false, files, len;
      }
      PrefixedStep(files, file, Unpacked(image[end..]));
      len := len - (end - pos);
      files, pos := files + [file], end;
    }
    ok := true;
  }

  // The header sector as it lies in the buffer.
  lemma FirstSector(image: seq<Byte>, pos: nat)
    requires pos + SECTOR <= |image|
    ensures var rest, buf := image[pos..], image[pos..pos + SECTOR];
      && rest[..NAME_SIZE] == buf[..NAME_SIZE] && rest[SECTOR..] == image[pos + SECTOR..]
      && rest[NAME_SIZE..NAME_SIZE + EXEC_SIZE] == buf[NAME_SIZE..NAME_SIZE + EXEC_SIZE]
  {
    var rest, buf := image[pos..], image[pos..pos + SECTOR];
    assert forall k :: 0 <= k < SECTOR ==> rest[k] == buf[k];
  }

  // The files found so far in front of the rest.
  function Prefixed(files: seq<File>, r: Option<seq<File>>): (t: Option<seq<File>>) {
    if r.None? then None else Some(files + r.value)
  }

  lemma PrefixedStep(files: seq<File>, f: File, r: Option<seq<File>>)
    ensures Prefixed(files, if r.None? then None else Some([f] + r.value)) == Prefixed(files + [f], r)
  {
    if r.Some? {
      assert files + ([f] + r.value) == (files + [f]) + r.value;
    }
  }
}
