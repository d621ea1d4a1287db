/**
 The loader of the boot monitor: it copies the programs of an image into memory, one
 click at a time, and makes room for bss and stack.
 */
module Loader {
  import opened Options
  import opened BootArith

  // What exec_image uses of an a.out header.
  datatype Header = Header(
    text: nat, data: nat, bss: nat, total: nat, hdrlen: nat,
    sep: bool,               // A_SEP
    pal: bool,               // A_PAL
    uzp: bool)               // A_UZP

  datatype Flags = Flags(
    chmem: bool,             // K_CHMEM
    claim: bool,             // K_CLAIM
    high: bool)              // K_HIGH

  // Where a program lies: its header sector, its start, the end of its bss and its end.
  datatype Span = Span(head: nat, start: int, bss: int, end: int)

  // What becomes of a program: it is loaded, it is refused for want of memory or because it
  // cannot be read, or more memory is cleared than there is.
  datatype Outcome = Loaded | Refused | Wild

  datatype Failure = TooMany | NoHeader(at: nat) | NoRoom(at: nat) | Beyond32(at: nat)

  datatype Process = Process(cs: int, ds: int, data: int, end: int)

  const PROCESS_MAX := 16

  // Memory ends 128 kilobytes below the last 32-bit address.
  const MAX_LIMIT := TWO32 - 0x2_0000

  // raw_copy from the monitor's memory.
  method RawCopyIn(memory: array<Byte>, dst: nat, buf: seq<Byte>, off: nat, n: nat)
    requires (n > 0 ==> dst + n <= memory.Length) && off + n <= |buf|
    modifies memory
    ensures forall k :: 0 <= k < memory.Length ==>
      memory[k] == if dst <= k < dst + n then buf[off + k - dst] else old(memory[k])
  {
    var i := 0;
    while i < n
      invariant 0 <= i <= n
      invariant forall k :: 0 <= k < memory.Length ==>
        memory[k] == if dst <= k < dst + i then buf[off + k - dst] else old(memory[k])
    {
      memory[dst + i] := buf[off + i];
      i := i + 1;
    }
  }

  // raw_copy within memory, between regions that do not overlap.
  method RawCopy(memory: array<Byte>, dst: nat, src: nat, n: nat)
    requires src + n <= dst && dst + n <= memory.Length
    modifies memory
    ensures forall k :: 0 <= k < memory.Length ==>
      memory[k] == if dst <= k < dst + n then old(memory[src + k - dst]) else old(memory[k])
  {
    var i := 0;
    while i < n
      invariant 0 <= i <= n
      invariant forall k :: 0 <= k < memory.Length ==>
        memory[k] == if dst <= k < dst + i then old(memory[src + k - dst]) else old(memory[k])
    {
      memory[dst + i] := memory[src + i];
      i := i + 1;
    }
  }

  // raw_clear: clear 128 bytes, then keep doubling what is already clear.
  method RawClear(memory: array<Byte>, addr: nat, count: nat)
    requires count > 0 ==> addr + count <= memory.Length
    modifies memory
    ensures forall k :: 0 <= k < memory.Length ==>
      memory[k] == if addr <= k < addr + count then 0 else old(memory[k])
  {
    var left := count;
    var zct := if 128 > left then left else 128;
    RawCopyIn(memory, addr, seq(128, _ => 0), 0, zct);
    left := left - zct;
    ghost var done := zct;
    while left > 0
      invariant 0 <= left && done + left == count && (left > 0 ==> zct == done && zct > 0)
      invariant forall k :: 0 <= k < memory.Length ==>
        memory[k] == if addr <= k < addr + done then 0 else old(memory[k])
      decreases left
    {
      var dst := addr + zct;
      if zct > left {
        zct := left;
      }
      RawCopy(memory, dst, addr, zct);
      left := left - zct;
      done := done + zct;
      zct := zct * 2;
    }
  }

  // ------------------------------------------------------------ sizes of a program

  // The fields of a header as the loader reads them: longs that are not negative, and a
  // header length of one byte.
  predicate Longs(h: Header) {
    h.text < TWO31 && h.data < TWO31 && h.bss < TWO31 && h.total < TWO31 && h.hdrlen < 256
  }

  const TWO31 := 0x8000_0000

  function Pos(n: int): (r: nat) {
    if n < 0 then 0 else n
  }

  // a_text, with the header in it for a page aligned program.
  function TextLen(h: Header): (r: int) {
    Long32(h.text + if h.pal then h.hdrlen else 0)
  }

  // The bytes of the data segment: text comes first when I and D are common.
  function DataLen(h: Header): (r: int) {
    if h.sep then h.data else Long32(TextLen(h) + h.data)
  }

  // The bytes of the text segment, when there is one.
  function TextPart(h: Header): (r: int) {
    if h.sep then TextLen(h) else 0
  }

  // The sizes fit in a long, so that they are what the header says.
  predicate Represented(h: Header) {
    var t := h.text + if h.pal then h.hdrlen else 0;
    t < TWO31 && (h.sep || t + h.data < TWO31)
  }

  lemma Sizes(h: Header)
    requires Longs(h)
    ensures Represented(h) ==>
      var t := h.text + if h.pal then h.hdrlen else 0;
      TextLen(h) == t && DataLen(h) == (if h.sep then 0 else t) + h.data
  {
  }

  // bss and stack, unless the program claims its own.
  function BssLen(h: Header, f: Flags, kernel: bool): (r: nat) {
    if !kernel && f.claim then 0 else h.bss
  }

  function StackLen(h: Header, f: Flags, kernel: bool): (r: int) {
    if (!kernel && f.claim) || !f.chmem then 0
    else h.total - h.data - h.bss - if h.sep then 0 else h.text
  }

  // Data, bss and stack together.
  function AllLen(h: Header, f: Flags, kernel: bool): (r: int) {
    DataLen(h) + BssLen(h, f, kernel) + StackLen(h, f, kernel)
  }

  // Where the data segment of a program loaded at a starts.
  function DsStart(a: int, h: Header, c: int): (r: int)
    requires c > 0
  {
    a + RoundUp(Pos(TextPart(h)), c)
  }

  // Where its bss ends.  A size that has overflowed is negative and is taken for a huge
  // bss.
  function BssEnd(a: int, h: Header, f: Flags, kernel: bool, c: int): (r: int)
    requires c > 0
  {
    DsStart(a, h, c) + Cleared32(DataLen(h), BssLen(h, f, kernel), c)
  }

  function Cleared32(data: int, bss: nat, c: int): (r: int)
    requires c > 0
  {
    if data >= 0 then RoundUp(data + bss, c) else RoundUp(data + bss, c) % TWO32
  }

  // Where its stack ends.
  function StackEnd(a: int, h: Header, f: Flags, kernel: bool, c: int): (r: int)
    requires c > 0
  {
    DsStart(a, h, c) + RoundUp(AllLen(h, f, kernel), c)
  }

  // The program ends at a 32-bit address, with a click to spare.
  predicate Within32(a: int, h: Header, f: Flags, kernel: bool, c: int)
    requires c > 0
  {
    Represented(h) && StackEnd(a, h, f, kernel, c) + c < TWO32
  }

  function Placed(a: int, h: Header, f: Flags, kernel: bool, c: int): (p: Process)
    requires c > 0
  {
    ProcessAt(a, DsStart(a, h, c), StackEnd(a, h, f, kernel, c) % TWO32, h, c)
  }

  // A program from a to end with its data segment at ds: an unmapped zero page comes before
  // either segment.
  function ProcessAt(a: int, ds: int, end: int, h: Header, c: int): (p: Process) {
    var shift := if h.uzp then c else 0;
    Process((a - shift) % TWO32, (ds - shift) % TWO32, if h.sep then ds else Add32(a, TextLen(h)), end)
  }

  // proc_size: the sectors a program takes in an image, after its header sector.
  function ProcSize(h: Header): (r: int) {
    var len0 := h.text + if h.pal then h.hdrlen else 0;
    var len1 := if h.sep then Align32(len0, SECTOR) else len0;
    Align32(len1 + h.data, SECTOR) / SECTOR
  }

  // The number of sectors that hold n bytes.
  function Sectors(n: int): (r: int) {
    RoundUp(Pos(n), SECTOR) / SECTOR
  }

  class ImageLoader {
    const memory: array<Byte>
    const click: int                              // click_size
    const flags: Flags                            // k_flags
    const sector: nat -> Option<seq<Byte>>        // get_sector, None on error
    var vsec: nat
    var addr: int

    const parse: seq<Byte> -> Option<Header>      // the header in a sector, None for a bad magic
    const chosen: seq<Byte> -> bool               // selected

    constructor (memory: array<Byte>, click: int, flags: Flags, sector: nat -> Option<seq<Byte>>,
                 parse: seq<Byte> -> Option<Header>, chosen: seq<Byte> -> bool)
      ensures this.memory == memory && this.click == click && this.flags == flags && this.sector == sector
      ensures this.parse == parse && this.chosen == chosen && vsec == 0 && addr == 0
    {
      this.memory, this.click, this.flags, this.sector := memory, click, flags, sector;
      this.parse, this.chosen := parse, chosen;
      vsec, addr := 0, 0;
    }

    ghost predicate Ready()
      reads this
    {
      && LegalClick(click) && 0 <= addr && addr % click == 0
      && forall v: nat {:trigger sector(v)} :: sector(v).Some? ==> |sector(v).value| == SECTOR
    }

    // Sectors v to v + n can be read.
    ghost predicate Readable(v: nat, n: int)
    {
      forall k: nat {:trigger sector(k)} :: v <= k < v + n ==> sector(k).Some?
    }

    // Byte j of the image from sector v on.
    ghost function ImageByte(v: nat, j: nat): (b: int)
    {
      var s := sector(v + j / SECTOR);
      if s.Some? && j % SECTOR < |s.value| then s.value[j % SECTOR] else 0
    }

    // Memory from a on holds the first n bytes of the image from sector v on.
    ghost predicate Holds(a: int, v: nat, n: int)
      reads memory
    {
      0 <= a && forall k :: a <= k < a + n ==> k < memory.Length && memory[k] == ImageByte(v, k - a)
    }

    // get_segment succeeds exactly when the sectors can be read and the last unit copied
    // starts a click before the limit at the latest.
    ghost predicate Obtainable(a: int, v: nat, size: int, limit: int)
      requires click > 0
    {
      size <= 0 ||
      (Readable(v, Sectors(size)) && a + RoundUp(size, Unit(click)) - Unit(click) + click <= limit)
    }

    // Copy the next n bytes of the sector in buf.
    method CopyUnit(buf: seq<Byte>, cnt: nat, n: nat, ghost a0: int, ghost v0: nat, ghost done: nat, ghost secs: nat)
      requires 0 <= a0 && addr == a0 + done && addr + n <= memory.Length && n <= cnt <= SECTOR == |buf|
      requires secs > 0 && sector(v0 + secs - 1) == Some(buf) && done + cnt == secs * SECTOR && Holds(a0, v0, done)
      modifies this`addr, memory
      ensures addr == old(addr) + n && Holds(a0, v0, done + n)
      ensures forall k :: 0 <= k < memory.Length && !(old(addr) <= k < addr) ==> memory[k] == old(memory[k])
    {
      RawCopyIn(memory, addr, buf, SECTOR - cnt, n);
      addr := addr + n;
      forall k | a0 + done <= k < addr ensures memory[k] == ImageByte(v0, k - a0) {
        DivMod(k - a0, secs - 1, k - a0 - (secs - 1) * SECTOR, SECTOR);
      }
    }

    // The loop of get_segment: copy whole units until size is no longer positive.
    method ReadUnits(size0: int, limit: nat) returns (ok: bool, size: int)
      requires Ready()
      requires limit <= memory.Length && addr + click < TWO32 && limit + click < TWO32
      modifies this`vsec, this`addr, memory
      ensures ok <==> Obtainable(old(addr), old(vsec), size0, limit)
      ensures ok ==>
        && addr == old(addr) + RoundUp(Pos(size0), Unit(click)) && vsec == old(vsec) + Sectors(size0)
        && size == size0 - RoundUp(Pos(size0), Unit(click)) && Holds(old(addr), old(vsec), RoundUp(Pos(size0), Unit(click)))
        && (size0 > 0 ==> addr - Unit(click) + click <= limit)
      ensures old(addr) <= addr && (addr == old(addr) || addr <= limit)
      ensures forall k :: 0 <= k < memory.Length && !(old(addr) <= k < addr) ==> memory[k] == old(memory[k])
    {
      ghost var a0, v0, m0, done, secs := addr, vsec, memory[..], 0, 0;
      Begin(Pos(size0), click);
      size := size0;
      var cnt, buf := 0, [];
      while size > 0
        invariant Reading(size0, size, cnt, buf, limit, a0, v0, m0, done, secs)
        decreases size
      {
        ok, size, cnt, buf, done, secs := ReadUnit(size0, size, cnt, buf, limit, a0, v0, m0, done, secs);
        if !ok {
          return;
        }
      }
      Finish(Pos(size0), Unit(click), done, cnt, secs);
      ok := true;
    }

    // Where the loop is: done bytes copied, secs sectors read, cnt bytes left of the last one.
    ghost predicate Reading(size0: int, size: int, cnt: nat, buf: seq<Byte>, limit: nat,
                            a0: int, v0: nat, m0: seq<Byte>, done: nat, secs: nat)
      reads this, memory
    {
      && LegalClick(click) && 0 <= a0 && size == size0 - done && addr == a0 + done && vsec == v0 + secs
      && (forall v: nat {:trigger sector(v)} :: sector(v).Some? ==> |sector(v).value| == SECTOR)
      && Progress(Pos(size0), Unit(click), done, cnt, secs) && Readable(v0, secs)
      && (cnt > 0 ==> secs > 0 && sector(v0 + secs - 1) == Some(buf) && |buf| == SECTOR)
      && (done > 0 ==> a0 + done - Unit(click) + click <= limit)
      && Holds(a0, v0, done) && SameBut(m0, a0, addr)
    }

    // One unit: the next sector is read when there is none left.
    method ReadUnit(ghost size0: int, size: int, cnt: nat, buf: seq<Byte>, limit: nat,
                    ghost a0: int, ghost v0: nat, ghost m0: seq<Byte>, ghost done: nat, ghost secs: nat)
      returns (ok: bool, size': int, cnt': nat, buf': seq<Byte>, ghost done': nat, ghost secs': nat)
      requires Reading(size0, size, cnt, buf, limit, a0, v0, m0, done, secs) && size > 0
      requires limit <= memory.Length && a0 + click < TWO32 && limit + click < TWO32
      modifies this`vsec, this`addr, memory
      ensures ok ==> Reading(size0, size', cnt', buf', limit, a0, v0, m0, done', secs') && size' < size
      ensures !ok ==> !Obtainable(a0, v0, size0, limit) && SameBut(m0, a0, addr)
      ensures a0 <= addr && (addr == a0 || addr <= limit)
    {
      size', done' := size, done;
      ok, cnt', buf', secs' := FetchSector(size0, size, cnt, buf, limit, a0, v0, m0, done, secs);
      if ok {
        ok, size', cnt', done' := PlaceUnit(size0, size, cnt', buf', limit, a0, v0, m0, done, secs');
      }
    }

    // Copy it, if the click it starts ends within the limit.
    method PlaceUnit(ghost size0: int, size: int, cnt: nat, buf: seq<Byte>, limit: nat,
                     ghost a0: int, ghost v0: nat, ghost m0: seq<Byte>, ghost done: nat, ghost secs: nat)
      returns (ok: bool, size': int, cnt': nat, ghost done': nat)
      requires Reading(size0, size, cnt, buf, limit, a0, v0, m0, done, secs) && size > 0 && cnt > 0
      requires limit <= memory.Length && a0 + click < TWO32 && limit + click < TWO32
      modifies this`addr, memory
      ensures ok ==> Reading(size0, size', cnt', buf, limit, a0, v0, m0, done', secs) && size' < size
      ensures !ok ==> !Obtainable(a0, v0, size0, limit) && SameBut(m0, a0, addr)
      ensures a0 <= addr && (addr == a0 || addr <= limit)
    {
      CopyStep(Pos(size0), Unit(click), done, cnt, secs);
      var next := Add32(addr, click);
      if next > limit {
        return false, size, cnt, done;
      }
      var n := if click > cnt then cnt else click;
      UnitCopied(cnt, click);
      CopyUnit(buf, cnt, n, a0, v0, done, secs);
      return true, size - n, cnt - n, done + n;
    }

    method FetchSector(ghost size0: int, ghost size: int, cnt: nat, buf: seq<Byte>, ghost limit: nat,
                       ghost a0: int, ghost v0: nat, ghost m0: seq<Byte>, ghost done: nat, ghost secs: nat)
      returns (ok: bool, cnt': nat, buf': seq<Byte>, ghost secs': nat)
      requires Reading(size0, size, cnt, buf, limit, a0, v0, m0, done, secs) && size > 0
      modifies this`vsec
      ensures ok ==> Reading(size0, size, cnt', buf', limit, a0, v0, m0, done, secs') && cnt' > 0
      ensures !ok ==> !Readable(v0, Sectors(size0))
    {
      ok, cnt', buf', secs' := true, cnt, buf, secs;
      if cnt == 0 {
        var s := sector(vsec);
        vsec := vsec + 1;
        FetchStep(Pos(size0), Unit(click), done, secs);
        if s.None? {
          return false, cnt', buf', secs';
        }
        buf', cnt' := s.value, SECTOR;
        secs' := secs + 1;
      }
    }

    // get_segment: takes the size rounded up to a click, and leaves in size what that is
    // too much, as a negative number.
    method GetSegment(size0: int, limit: nat) returns (ok: bool, size: int)
      requires Ready() && limit <= memory.Length && addr + click < TWO32 && limit + click < TWO32
      modifies this`vsec, this`addr, memory
      ensures ok <==> Obtainable(old(addr), old(vsec), size0, limit)
      ensures ok ==>
        && Ready() && addr == old(addr) + RoundUp(Pos(size0), click) && (addr == old(addr) || addr <= limit)
        && size == size0 - RoundUp(Pos(size0), click) && vsec == old(vsec) + Sectors(size0)
        && Filled(old(addr), old(vsec), Pos(size0))
      ensures old(addr) <= addr
      ensures forall k :: 0 <= k < memory.Length && !(old(addr) <= k < addr && k < limit) ==> memory[k] == old(memory[k])
    {
      ok, size := ReadUnits(size0, limit);
      if ok {
        var n := ZeroExtend(old(addr), old(vsec), Pos(size0));
        size := size - n;
      }
    }

    // The end of get_segment: zero extend to a click.
    method ZeroExtend(ghost a0: int, ghost v0: nat, ghost size0: nat) returns (n: nat)
      requires LegalClick(click) && 0 <= a0 && a0 % click == 0 && addr == a0 + RoundUp(size0, Unit(click))
      requires addr + click < TWO32 && Holds(a0, v0, RoundUp(size0, Unit(click)))
      requires size0 > 0 ==> addr - Unit(click) + click <= memory.Length
      modifies this`addr, memory
      ensures addr == a0 + RoundUp(size0, click) && addr % click == 0 && n == addr - old(addr)
      ensures Filled(a0, v0, size0) && (size0 > 0 ==> n <= click - Unit(click)) && (size0 == 0 ==> n == 0 && addr == a0)
      ensures forall k :: 0 <= k < memory.Length && !(old(addr) <= k < addr) ==> memory[k] == old(memory[k])
    {
      ExtendFits(a0, size0, click);
      n := Align32(addr, click) - addr;
      RawClear(memory, addr, n);
      addr := addr + n;
    }

    // Everything the loading of a program needs.
    ghost predicate Loadable(a: int, v: nat, h: Header, kernel: bool, limit: int)
      requires click > 0
    {
      && Obtainable(a, v, TextPart(h), limit)
      && Obtainable(DsStart(a, h, click), v + Sectors(TextPart(h)), DataLen(h), limit)
      && BssEnd(a, h, flags, kernel, click) <= limit
    }

    // ... and when the check of the limit is fooled: the end of bss is past 2^32, so that
    // it seems to be low.
    ghost predicate Wraps(a: int, v: nat, h: Header, kernel: bool, limit: int)
      requires click > 0
    {
      var e := BssEnd(a, h, flags, kernel, click);
      && Obtainable(a, v, TextPart(h), limit)
      && Obtainable(DsStart(a, h, click), v + Sectors(TextPart(h)), DataLen(h), limit)
      && TWO32 <= e && e - TWO32 <= limit
    }

    /** The stack is not held to the limit: a program of nothing but stack is loaded, however
        large its stack. */
    lemma StackPassesLimit(a: int, v: nat, limit: int)
      requires LegalClick(click) && flags.chmem && 0 <= a <= limit && limit - a < TWO31 - 1
      ensures var h := Header(0, 0, 0, limit - a + 1, 0, true, false, false);
        Longs(h) && Represented(h) && Loadable(a, v, h, true, limit) && limit < StackEnd(a, h, flags, true, click)
    {
      RoundUpZero(click);
    }

    /** A program can be loaded that the next one overlaps: bss of a click, and a total of 0. */
    lemma OverlapLoaded(a: int, v: nat, limit: int)
      requires LegalClick(click) && flags.chmem && 0 <= a && a + click <= limit
      ensures var h := Header(0, 0, click, 0, 0, true, false, false);
        && Longs(h) && Represented(h) && Loadable(a, v, h, true, limit)
        && StackEnd(a, h, flags, true, click) < BssEnd(a, h, flags, true, click)
    {
      RoundUpZero(click);
      DivMod(click, 1, 0, click);
      RoundUpUnique(click, click, click);
    }

    /** Text and data that together overflow a long, with I and D in common: nothing is read,
        and the program is refused, or memory from a on is cleared without end when a is at
        least the missing bytes. */
    lemma OversizeFate(a: int, v: nat, h: Header, kernel: bool, limit: int)
      requires LegalClick(click) && Longs(h) && !h.sep && 0 <= a && limit < a + TWO31
      requires var t := h.text + if h.pal then h.hdrlen else 0;
        t < TWO31 <= t + h.data && t + h.data + BssLen(h, flags, kernel) <= TWO32 - click
      ensures DataLen(h) < 0 && Obtainable(a, v, TextPart(h), limit) && Sectors(DataLen(h)) == 0
      ensures !Loadable(a, v, h, kernel, limit)
      ensures var missing := -RoundUp(DataLen(h) + BssLen(h, flags, kernel), click);
        0 < missing <= TWO31 && (Wraps(a, v, h, kernel, limit) <==> missing <= a <= limit + missing)
    {
      RoundUpZero(click);
      RoundUpZero(SECTOR);
      Overflowed(DataLen(h) + BssLen(h, flags, kernel), click);
    }

    // The text segment of a program with separate I and D.
    method LoadText(h: Header, limit: nat) returns (ok: bool)
      requires Ready() && Longs(h) && limit <= memory.Length && addr + click < TWO32 && limit <= MAX_LIMIT
      modifies this`vsec, this`addr, memory
      ensures var t := TextPart(h);
        && (ok <==> Obtainable(old(addr), old(vsec), t, limit))
        && (ok ==> Ready() && addr == DsStart(old(addr), h, click) && vsec == old(vsec) + Sectors(t))
        && (ok ==> Filled(old(addr), old(vsec), Pos(t)) && (addr == old(addr) || addr <= limit))
      ensures old(addr) <= addr
      ensures forall k :: 0 <= k < memory.Length && !(old(addr) <= k < addr && k < limit) ==> memory[k] == old(memory[k])
    {
      RoundUpZero(click);
      RoundUpZero(Unit(click));
      RoundUpZero(SECTOR);
      ok := true;
      if h.sep {
        var text := h.text;
        if h.pal {
          text := Long32(text + h.hdrlen);
        }
        ok, text := GetSegment(text, limit);
      }
    }

    // Zero out bss.  rest is what get_segment left of data bytes, left what remains of
    // the last click.
    method ClearBss(bss0: nat, rest: int, ghost data: int, ghost ds: int, limit: nat) returns (r: Outcome, left: int)
      requires LegalClick(click) && limit <= memory.Length && limit <= MAX_LIMIT && 0 <= addr && addr + click < TWO32
      requires -TWO31 <= data < TWO31 && bss0 < TWO31
      requires rest == data - RoundUp(Pos(data), click) && addr == ds + RoundUp(Pos(data), click)
      modifies this`addr, memory
      ensures var end := ds + Cleared32(data, bss0, click);
        && (r == Loaded <==> end <= limit) && (r == Wild <==> TWO32 <= end && end - TWO32 <= limit)
        && (r == Loaded ==> addr == end && left == data + bss0 - Cleared32(data, bss0, click) && Cleared(old(addr), end))
        && (forall k :: 0 <= k < memory.Length && !(old(addr) <= k < limit) ==> memory[k] == old(memory[k]))
    {
      BssNumbers(data, bss0, click);
      left := bss0 + rest;
      var n := Align32(left, click);
      left := left - n;
      var next := Add32(addr, n);
      if next > limit {
        return Refused, left;
      }
      if addr + n >= TWO32 {
        return Wild, left;
      }
      RawClear(memory, addr, n);
      addr := next;
      r := Loaded;
    }

    // Add space for the stack behind bss; left is what bss leaves of its last click.
    method AddStack(h: Header, kernel: bool, stack0: int, left: int, ghost a0: int)
      requires LegalClick(click) && addr == BssEnd(a0, h, flags, kernel, click)
      requires stack0 == Long32(StackLen(h, flags, kernel))
      requires var bss := BssLen(h, flags, kernel); left == DataLen(h) + bss - Cleared32(DataLen(h), bss, click)
      modifies this`addr
      ensures addr == StackEnd(a0, h, flags, kernel, click) % TWO32
    {
      StackAt(a0, h, flags, kernel, click);
      addr := Add32(addr, Align32(stack0 + left, click));
    }

    // exec_image for one program: its segments, its bss and its stack.
    method LoadProcess(h: Header, kernel: bool, limit: nat) returns (r: Outcome, p: Process)
      requires Ready() && Longs(h) && limit <= memory.Length && limit <= MAX_LIMIT && addr + click < TWO32
      modifies this`vsec, this`addr, memory
      ensures r == Loaded <==> Loadable(old(addr), old(vsec), h, kernel, limit)
      ensures r == Wild <==> Wraps(old(addr), old(vsec), h, kernel, limit)
      ensures r == Loaded ==>
        && p == Placed(old(addr), h, flags, kernel, click) && addr == p.end && addr % click == 0
        && InMemory(old(addr), old(vsec), h, kernel)
        && (Represented(h) ==> vsec == old(vsec) + ProcSize(h))
      ensures r == Loaded && Within32(old(addr), h, flags, kernel, click) ==>
        EndWithin(old(addr), h, flags, kernel, click, addr, limit)
      ensures forall k :: 0 <= k < memory.Length && !(old(addr) <= k < limit) ==> memory[k] == old(memory[k])
    {
      ghost var a0, v0 := addr, vsec;
      var a, start := addr, 0;
      r, start := LoadParts(h, kernel, limit);
      CommonStart(a0, h, click);
      p := Process(0, 0, 0, 0);
      if r == Loaded {
        p := Segments(h, a, start, addr);
        LoadedSectors(a0, v0, h, kernel, limit);
        LoadedEnd(a0, h, flags, kernel, click, limit);
      }
    }

    // The segment addresses of a program from a to end, with its data segment at start.
    method Segments(h: Header, a: int, start: int, end: int) returns (p: Process)
      requires 0 <= a < TWO32 && (!h.sep ==> start == a)
      ensures p == ProcessAt(a, start, end, h, click)
    {
      var cs, data := a, Add32(a, TextLen(h));
      if h.uzp {
        cs := (cs - click) % TWO32;
      }
      var ds := cs;
      if h.sep {
        ds := if h.uzp then (start - click) % TWO32 else start % TWO32;
        data := start;
      }
      p := Process(cs, ds, data, end);
    }

    lemma LoadedSectors(a: int, v: nat, h: Header, kernel: bool, limit: int)
      requires LegalClick(click) && Longs(h) && 0 <= a && limit <= MAX_LIMIT && Loadable(a, v, h, kernel, limit)
      ensures Represented(h) ==> Sectors(TextPart(h)) + Sectors(DataLen(h)) == ProcSize(h)
    {
      if Represented(h) {
        Sizes(h);
        SectorsOfProc(h);
      }
    }

    // The segments, bss and stack of a program; start is that of its data segment.
    method LoadParts(h: Header, kernel: bool, limit: nat) returns (r: Outcome, start: int)
      requires Ready() && Longs(h) && limit <= memory.Length && limit <= MAX_LIMIT && addr + click < TWO32
      modifies this`vsec, this`addr, memory
      ensures r == Loaded <==> Loadable(old(addr), old(vsec), h, kernel, limit)
      ensures r == Wild <==> Wraps(old(addr), old(vsec), h, kernel, limit)
      ensures r == Loaded ==>
        && start == DsStart(old(addr), h, click) && vsec == old(vsec) + Sectors(TextPart(h)) + Sectors(DataLen(h))
        && addr == StackEnd(old(addr), h, flags, kernel, click) % TWO32 && InMemory(old(addr), old(vsec), h, kernel)
      ensures forall k :: 0 <= k < memory.Length && !(old(addr) <= k < limit) ==> memory[k] == old(memory[k])
    {
      ghost var a0, v0 := addr, vsec;
      var ok := LoadText(h, limit);
      start := addr;
      if ok {
        r := LoadData(h, kernel, limit, a0, v0);
      } else {
        r := Refused;
      }
    }

    // Its data segment, bss and stack; a0 and v0 are where the program starts.
    method LoadData(h: Header, kernel: bool, limit: nat, ghost a0: int, ghost v0: nat) returns (r: Outcome)
      requires Ready() && Longs(h) && limit <= memory.Length && limit <= MAX_LIMIT && addr + click < TWO32
      requires 0 <= a0 && addr == DsStart(a0, h, click)
      requires vsec == v0 + Sectors(TextPart(h)) && Filled(a0, v0, Pos(TextPart(h)))
      modifies this`vsec, this`addr, memory
      ensures var e := BssEnd(a0, h, flags, kernel, click);
        && (r == Loaded <==> Obtainable(old(addr), old(vsec), DataLen(h), limit) && e <= limit)
        && (r == Wild <==> Obtainable(old(addr), old(vsec), DataLen(h), limit) && TWO32 <= e && e - TWO32 <= limit)
      ensures r == Loaded ==>
        && vsec == v0 + Sectors(TextPart(h)) + Sectors(DataLen(h))
        && addr == StackEnd(a0, h, flags, kernel, click) % TWO32 && InMemory(a0, v0, h, kernel)
      ensures forall k :: 0 <= k < memory.Length && !(old(addr) <= k < limit) ==> memory[k] == old(memory[k])
    {
      var ok, rest := LoadDataSegment(h, limit, a0, v0);
      if ok {
        r := LoadRoom(h, kernel, limit, rest, a0, v0);
      } else {
        r := Refused;
      }
    }

    method LoadDataSegment(h: Header, limit: nat, ghost a0: int, ghost v0: nat) returns (ok: bool, rest: int)
      requires Ready() && Longs(h) && limit <= memory.Length && limit <= MAX_LIMIT && addr + click < TWO32
      requires 0 <= a0 && addr == DsStart(a0, h, click) && Filled(a0, v0, Pos(TextPart(h)))
      modifies this`vsec, this`addr, memory
      ensures ok <==> Obtainable(old(addr), old(vsec), DataLen(h), limit)
      ensures ok ==>
        && Ready() && addr + click < TWO32 && addr == old(addr) + RoundUp(Pos(DataLen(h)), click)
        && vsec == old(vsec) + Sectors(DataLen(h)) && rest == DataLen(h) - RoundUp(Pos(DataLen(h)), click)
        && Filled(a0, v0, Pos(TextPart(h))) && Filled(old(addr), old(vsec), Pos(DataLen(h)))
      ensures old(addr) <= addr
      ensures forall k :: 0 <= k < memory.Length && !(old(addr) <= k < addr && k < limit) ==> memory[k] == old(memory[k])
    {
      var size := h.data;
      if !h.sep {
        var text := h.text;
        if h.pal {
          text := Long32(text + h.hdrlen);
        }
        size := Long32(size + text);
      }
      ghost var before := memory[..];
      TextBelow(a0, h, click);
      ok, rest := GetSegment(size, limit);
      if ok {
        FilledStays(before, a0, v0, Pos(TextPart(h)));
      }
    }

    method LoadRoom(h: Header, kernel: bool, limit: nat, rest: int, ghost a0: int, ghost v0: nat) returns (r: Outcome)
      requires LegalClick(click) && Longs(h) && limit <= memory.Length && limit <= MAX_LIMIT && addr + click < TWO32
      requires 0 <= a0 <= DsStart(a0, h, click) && addr == DsStart(a0, h, click) + RoundUp(Pos(DataLen(h)), click)
      requires rest == DataLen(h) - RoundUp(Pos(DataLen(h)), click)
      requires Filled(a0, v0, Pos(TextPart(h))) && Filled(DsStart(a0, h, click), v0 + Sectors(TextPart(h)), Pos(DataLen(h)))
      modifies this`addr, memory
      ensures var e := BssEnd(a0, h, flags, kernel, click);
        (r == Loaded <==> e <= limit) && (r == Wild <==> TWO32 <= e && e - TWO32 <= limit)
      ensures r == Loaded ==> addr == StackEnd(a0, h, flags, kernel, click) % TWO32 && InMemory(a0, v0, h, kernel)
      ensures forall k :: 0 <= k < memory.Length && !(old(addr) <= k < limit) ==> memory[k] == old(memory[k])
    {
      var bss, stack := Room(h, kernel);
      var left;
      r, left := LoadBss(h, kernel, bss, limit, rest, a0, v0);
      if r == Loaded {
        AddStack(h, kernel, stack, left, a0);
      }
    }

    method LoadBss(h: Header, kernel: bool, bss: nat, limit: nat, rest: int, ghost a0: int, ghost v0: nat)
      returns (r: Outcome, left: int)
      requires LegalClick(click) && Longs(h) && limit <= memory.Length && limit <= MAX_LIMIT && addr + click < TWO32
      requires 0 <= a0 <= DsStart(a0, h, click) && addr == DsStart(a0, h, click) + RoundUp(Pos(DataLen(h)), click)
      requires rest == DataLen(h) - RoundUp(Pos(DataLen(h)), click) && bss == BssLen(h, flags, kernel)
      requires Filled(a0, v0, Pos(TextPart(h))) && Filled(DsStart(a0, h, click), v0 + Sectors(TextPart(h)), Pos(DataLen(h)))
      modifies this`addr, memory
      ensures var e := BssEnd(a0, h, flags, kernel, click);
        (r == Loaded <==> e <= limit) && (r == Wild <==> TWO32 <= e && e - TWO32 <= limit)
      ensures r == Loaded ==>
        && addr == BssEnd(a0, h, flags, kernel, click) && InMemory(a0, v0, h, kernel)
        && left == DataLen(h) + bss - Cleared32(DataLen(h), bss, click)
      ensures forall k :: 0 <= k < memory.Length && !(old(addr) <= k < limit) ==> memory[k] == old(memory[k])
    {
      ghost var before := memory[..];
      r, left := ClearBss(bss, rest, DataLen(h), DsStart(a0, h, click), limit);
      if r == Loaded {
        NowInMemory(before, a0, v0, h, kernel);
      }
    }

    // The sizes of bss and stack.
    method Room(h: Header, kernel: bool) returns (bss: nat, stack: int)
      ensures bss == BssLen(h, flags, kernel) && stack == Long32(StackLen(h, flags, kernel))
    {
      bss, stack := h.bss, 0;
      if flags.chmem {
        stack := h.total - h.data - h.bss;
        if !h.sep {
          stack := stack - h.text;
        }
        stack := Long32(stack);
      }
      if !kernel && flags.claim {
        bss, stack := 0, 0;
      }
    }

    lemma NowInMemory(m: seq<Byte>, a: int, v: nat, h: Header, kernel: bool)
      requires LegalClick(click) && |m| == memory.Length
      requires FilledIn(m, a, v, Pos(TextPart(h)))
      requires FilledIn(m, DsStart(a, h, click), v + Sectors(TextPart(h)), Pos(DataLen(h)))
      requires var e := DsStart(a, h, click) + RoundUp(Pos(DataLen(h)), click);
        && (forall k :: 0 <= k < |m| && k < e ==> memory[k] == m[k])
        && Cleared(e, BssEnd(a, h, flags, kernel, click))
      ensures InMemory(a, v, h, kernel)
    {
      TextBelow(a, h, click);
      FilledStays(m, a, v, Pos(TextPart(h)));
      FilledStays(m, DsStart(a, h, click), v + Sectors(TextPart(h)), Pos(DataLen(h)));
    }

    // What lies below the end of a segment did not change.
    lemma FilledStays(m: seq<Byte>, a: int, v: nat, n: int)
      requires LegalClick(click) && FilledIn(m, a, v, n) && |m| == memory.Length
      requires forall k :: 0 <= k < |m| && k < a + RoundUp(n, click) ==> memory[k] == m[k]
      ensures Filled(a, v, n)
    {
      UnitBelow(n, click);
      assert forall k :: 0 <= k < |m| && k < a + RoundUp(n, click) ==> memory[..][k] == m[k];
    }

    // ----------------------------------------------------------------- exec_image

    ghost function HeaderAt(v: nat): (h: Option<Header>)
    {
      if sector(v).Some? then parse(sector(v).value) else None
    }

    // The sector after the program whose header is at v.
    ghost function After(v: nat): (r: int)
    {
      if HeaderAt(v).Some? then v + 1 + ProcSize(HeaderAt(v).value) else v
    }

    // Header sectors that follow each other in the image, from sector v to sector w.
    ghost predicate Chain(v: int, heads: seq<nat>, w: int)
      decreases |heads|
    {
      if heads == [] then v == w
      else heads[0] == v && HeaderAt(heads[0]).Some? && Chain(After(heads[0]), heads[1..], w)
    }

    // Those of them that are selected.
    ghost function Chosen(heads: seq<nat>): (r: seq<nat>)
    {
      if heads == [] then [] else Pick(heads[0]) + Chosen(heads[1..])
    }

    ghost function Pick(v: nat): (r: seq<nat>)
    {
      if sector(v).Some? && chosen(sector(v).value) then [v] else []
    }

    lemma {:induction false} ChainAppend(v: int, heads: seq<nat>, w: nat)
      requires Chain(v, heads, w) && HeaderAt(w).Some?
      ensures Chain(v, heads + [w], After(w))
      decreases |heads|
    {
      if heads == [] {
        assert heads + [w] == [w] && [w][1..] == [];
      } else {
        assert (heads + [w])[1..] == heads[1..] + [w];
        ChainAppend(After(heads[0]), heads[1..], w);
      }
    }

    lemma {:induction false} ChosenAppend(heads: seq<nat>, w: nat)
      ensures Chosen(heads + [w]) == Chosen(heads) + Pick(w)
      decreases |heads|
    {
      if heads == [] {
        assert heads + [w] == [w] && [w][1..] == [];
      } else {
        assert (heads + [w])[1..] == heads[1..] + [w];
        ChosenAppend(heads[1..], w);
        assert Pick(heads[0]) + (Chosen(heads[1..]) + Pick(w)) == Pick(heads[0]) + Chosen(heads[1..]) + Pick(w);
      }
    }

    ghost predicate Booting(disk: nat)
      reads this
    {
      && LegalClick(click)
      && (forall v: nat {:trigger sector(v)} :: sector(v).Some? ==> v < disk && |sector(v).value| == SECTOR)
      && (forall b: seq<Byte> {:trigger parse(b)} :: parse(b).Some? ==> Longs(parse(b).value))
    }

    // Read headers until one is selected, skipping the programs of the others.  `at` is the
    // header found, or the sector that holds none.
    method NextProgram(ghost disk: nat, ghost heads0: seq<nat>)
      returns (ok: bool, h: Header, ghost heads: seq<nat>, ghost at: nat)
      requires Booting(disk) && Chain(0, heads0, vsec)
      modifies this`vsec
      ensures Chain(0, heads, at) && Chosen(heads) == Chosen(heads0)
      ensures ok ==> HeaderAt(at) == Some(h) && Longs(h) && chosen(sector(at).value) && vsec == at + 1
      ensures !ok ==> HeaderAt(at).None?
    {
      heads := heads0;
      h := Header(0, 0, 0, 0, 0, false, false, false);
      while true
        invariant Chain(0, heads, vsec) && Chosen(heads) == Chosen(heads0)
        decreases disk - vsec
      {
        at := vsec;
        var s := sector(vsec);
        if s.None? {
          return false, h, heads, at;
        }
        vsec := vsec + 1;
        var p := parse(s.value);
        if p.None? {
          return false, h, heads, at;
        }
        h := p.value;
        if chosen(s.value) {
          return true, h, heads, at;
        }
        Skipped(heads, at, h);
        heads := heads + [at];
        vsec := vsec + ProcSize(h);
      }
    }

    // A program that is not selected is passed over.
    lemma Skipped(heads: seq<nat>, at: nat, h: Header)
      requires Chain(0, heads, at) && HeaderAt(at) == Some(h) && !chosen(sector(at).value)
      ensures ProcSize(h) >= 0 && Chain(0, heads + [at], at + 1 + ProcSize(h)) && Chosen(heads + [at]) == Chosen(heads)
    {
      ProcSizeNat(h);
      ChainAppend(0, heads, at);
      ChosenAppend(heads, at);
    }

    // Where program k of a list starts.
    function Start(procs: seq<Process>, k: nat, base0: int, base1: int): (a: int)
      requires k <= |procs| && click > 0
    {
      if k == 0 then RoundUp(base0, click) else if k == 1 && flags.high then base1 else procs[k - 1].end
    }

    // Programs at the headers in picked, one behind the other from base0 on; all but the
    // first from base1 on when the kernel asks for that.
    ghost predicate Layout(procs: seq<Process>, picked: seq<nat>, base0: int, base1: int)
      requires click > 0
    {
      |procs| == |picked| && forall k :: 0 <= k < |procs| ==> LayoutAt(procs, picked, k, base0, base1)
    }

    ghost predicate LayoutAt(procs: seq<Process>, picked: seq<nat>, k: nat, base0: int, base1: int)
      requires click > 0 && k < |procs| == |picked|
    {
      && HeaderAt(picked[k]).Some?
      && procs[k] == Placed(Start(procs, k, base0, base1), HeaderAt(picked[k]).value, flags, k == 0, click)
    }

    lemma LayoutAppend(procs: seq<Process>, picked: seq<nat>, p: Process, v: nat, base0: int, base1: int)
      requires click > 0 && Layout(procs, picked, base0, base1) && HeaderAt(v).Some?
      requires p == Placed(Start(procs, |procs|, base0, base1), HeaderAt(v).value, flags, |procs| == 0, click)
      ensures Layout(procs + [p], picked + [v], base0, base1)
    {
      var all, heads := procs + [p], picked + [v];
      forall k | 0 <= k < |all| ensures LayoutAt(all, heads, k, base0, base1) {
        assert Start(all, k, base0, base1) == Start(procs, k, base0, base1);
        if k < |procs| {
          assert LayoutAt(procs, picked, k, base0, base1);
        }
      }
    }

    /** Every program starts and ends on a click boundary. */
    lemma {:induction false} ClickAligned(procs: seq<Process>, picked: seq<nat>, k: nat, base0: int, base1: int)
      requires LegalClick(click) && Layout(procs, picked, base0, base1) && base1 % click == 0 && k <= |procs|
      ensures Start(procs, k, base0, base1) % click == 0
      ensures k < |procs| ==> procs[k].end % click == 0
    {
      if k > 0 {
        ClickAligned(procs, picked, k - 1, base0, base1);
      } else {
        RoundUpMultiple(base0, click);
      }
      if k < |procs| {
        assert LayoutAt(procs, picked, k, base0, base1);
        var h := HeaderAt(picked[k]).value;
        EndsAligned(Start(procs, k, base0, base1), h, flags, k == 0, click);
        ModSame(StackEnd(Start(procs, k, base0, base1), h, flags, k == 0, click), click);
      }
    }

    // What holds before each program: where the image and memory are.
    ghost predicate Between(procs: seq<Process>, heads: seq<nat>, base0: int, base1: int)
      reads this
    {
      && LegalClick(click) && Chain(0, heads, vsec) && Layout(procs, Chosen(heads), base0, base1)
      && 0 <= addr && addr + click < TWO32
      && (if procs == [] then addr == base0 else addr % click == 0 && addr == Start(procs, |procs|, base0, base1))
    }

    // The limit that applies to program number k.
    function LimitFor(k: nat, limit0: nat, limit1: nat): (r: nat) {
      if k > 0 && flags.high then limit1 else limit0
    }

    // Load the program with its header at `at` behind those in procs; only the first is
    // aligned here.
    method PlaceNext(h: Header, procs: seq<Process>, limit: nat, base0: nat, base1: nat, ghost at: nat)
      returns (ok: bool, r: Outcome, p: Process, ghost sp: Span)
      requires LegalClick(click) && (forall v: nat {:trigger sector(v)} :: sector(v).Some? ==> |sector(v).value| == SECTOR)
      requires Longs(h) && limit <= memory.Length && limit <= MAX_LIMIT && 0 <= addr && addr + click < TWO32
      requires base0 <= MAX_LIMIT
      requires if procs == [] then addr == base0 else addr % click == 0 && addr == Start(procs, |procs|, base0, base1)
      requires HeaderAt(at) == Some(h) && vsec == at + 1
      modifies this`vsec, this`addr, memory
      ensures Fate(ok, r, Start(procs, |procs|, base0, base1), at, h, procs == [], limit)
      ensures ok ==>
        && p == Placed(Start(procs, |procs|, base0, base1), h, flags, procs == [], click)
        && vsec == After(at) && 0 <= addr && addr + click < TWO32 && addr == p.end && addr % click == 0
        && SpanMade(sp, at, Start(procs, |procs|, base0, base1), p.end, procs == [], limit)
      ensures SameBut(old(memory[..]), Start(procs, |procs|, base0, base1), limit)
    {
      if |procs| == 0 {
        FirstAddr(addr, click);
        addr := Align32(addr, click);
      }
      ok, r, p, sp := LoadSpan(h, |procs| == 0, limit, at);
    }

    // What happened to a program with header at `at`: ok means loaded, and ended at a 32-bit
    // address.
    ghost predicate Fate(ok: bool, r: Outcome, a: int, at: nat, h: Header, kernel: bool, limit: int)
      requires click > 0
    {
      && (r == Loaded <==> Loadable(a, at + 1, h, kernel, limit)) && (r == Wild <==> Wraps(a, at + 1, h, kernel, limit))
      && (ok <==> r == Loaded && Within32(a, h, flags, kernel, click))
    }

    method LoadSpan(h: Header, kernel: bool, limit: nat, ghost at: nat)
      returns (ok: bool, r: Outcome, p: Process, ghost sp: Span)
      requires Ready() && Longs(h) && limit <= memory.Length && limit <= MAX_LIMIT && addr + click < TWO32
      requires HeaderAt(at) == Some(h) && vsec == at + 1
      modifies this`vsec, this`addr, memory
      ensures Fate(ok, r, old(addr), at, h, kernel, limit)
      ensures ok ==>
        && p == Placed(old(addr), h, flags, kernel, click) && vsec == After(at)
        && 0 <= addr && addr + click < TWO32 && addr == p.end && addr % click == 0
        && SpanMade(sp, at, old(addr), p.end, kernel, limit)
      ensures SameBut(old(memory[..]), old(addr), limit)
    {
      var a := addr;
      sp := Span(at, a, BssEnd(a, h, flags, kernel, click), StackEnd(a, h, flags, kernel, click));
      r, p := LoadProcess(h, kernel, limit);
      ok := r == Loaded && Within32(a, h, flags, kernel, click);
      if ok {
        SpanLoaded(sp, at, a, h, kernel, limit, addr);
      }
    }

    // The span of a program from a to end, with its header at `at`, that is in memory.
    ghost predicate SpanMade(sp: Span, at: nat, a: int, end: int, kernel: bool, limit: int)
      requires click > 0
      reads memory
    {
      && sp.head == at && sp.start == a <= end == sp.end && sp.bss <= limit
      && Fits(sp, kernel) && InSpan(memory[..], sp, kernel)
    }

    lemma SpanLoaded(sp: Span, at: nat, a: int, h: Header, kernel: bool, limit: int, end: int)
      requires click > 0 && HeaderAt(at) == Some(h) && InMemoryIn(memory[..], a, at + 1, h, kernel)
      requires sp.bss == BssEnd(a, h, flags, kernel, click) && sp.head == at && sp.start == a <= end == sp.end && sp.bss <= limit
      ensures SpanMade(sp, at, a, end, kernel, limit)
    {
      SpanFilled(memory[..], sp, h, kernel);
      SpanFits(sp, h, kernel);
    }

    lemma SpanFits(sp: Span, h: Header, kernel: bool)
      requires click > 0 && HeaderAt(sp.head) == Some(h) && sp.bss == BssEnd(sp.start, h, flags, kernel, click)
      ensures Fits(sp, kernel)
    {
    }

    lemma SpanFilled(m: seq<Byte>, sp: Span, h: Header, kernel: bool)
      requires click > 0 && HeaderAt(sp.head) == Some(h) && InMemoryIn(m, sp.start, sp.head + 1, h, kernel)
      ensures InSpan(m, sp, kernel)
    {
    }

    // Where a program lies: bss is the end of its bss.
    ghost predicate Fits(sp: Span, kernel: bool)
      requires click > 0
    {
      HeaderAt(sp.head).Some? && sp.bss == BssEnd(sp.start, HeaderAt(sp.head).value, flags, kernel, click)
    }

    // A program is in memory m, whole.
    ghost predicate InSpan(m: seq<Byte>, sp: Span, kernel: bool)
      requires click > 0
    {
      HeaderAt(sp.head).Some? && InMemoryIn(m, sp.start, sp.head + 1, HeaderAt(sp.head).value, kernel)
    }

    // Memory is m outside from..to.
    ghost predicate SameBut(m: seq<Byte>, from: int, to: int)
      reads memory
    {
      |m| == memory.Length && forall k :: 0 <= k < |m| && !(from <= k < to) ==> memory[k] == m[k]
    }

    // Why loading stopped: one program too many, no header where one should be, a selected
    // program that cannot be loaded, or one that does not fit in 32-bit arithmetic, past
    // which the run is not followed.
    ghost predicate Explains(why: Failure, procs: seq<Process>, heads: seq<nat>,
                             base0: int, limit0: nat, base1: int, limit1: nat)
      requires click > 0
    {
      match why
      case TooMany => |procs| == PROCESS_MAX
      case NoHeader(at) => Chain(0, heads, at) && HeaderAt(at).None?
      case NoRoom(at) =>
        && Chain(0, heads, at) && HeaderAt(at).Some? && chosen(sector(at).value)
        && Fate(false, Refused, Start(procs, |procs|, base0, base1), at, HeaderAt(at).value, procs == [],
                LimitFor(|procs|, limit0, limit1))
      case Beyond32(at) =>
        && Chain(0, heads, at) && HeaderAt(at).Some? && chosen(sector(at).value)
        && var a, limit := Start(procs, |procs|, base0, base1), LimitFor(|procs|, limit0, limit1);
           Fate(false, Wild, a, at, HeaderAt(at).value, procs == [], limit)
           || Fate(false, Loaded, a, at, HeaderAt(at).value, procs == [], limit)
    }

    // The program with its header at `at` is loaded and joins the list.
    method LoadFound(h: Header, procs0: seq<Process>, ghost picked: seq<nat>, base0: nat, limit: nat, base1: nat, ghost at: nat)
      returns (ok: bool, r: Outcome, procs: seq<Process>, ghost sp: Span)
      requires LegalClick(click) && (forall v: nat {:trigger sector(v)} :: sector(v).Some? ==> |sector(v).value| == SECTOR)
      requires Longs(h) && limit <= memory.Length && limit <= MAX_LIMIT && 0 <= addr && addr + click < TWO32
      requires base0 <= MAX_LIMIT && base1 % click == 0 && base1 + click < TWO32 && Layout(procs0, picked, base0, base1)
      requires if procs0 == [] then addr == base0 else addr % click == 0 && addr == Start(procs0, |procs0|, base0, base1)
      requires HeaderAt(at) == Some(h) && vsec == at + 1
      modifies this`vsec, this`addr, memory
      ensures Fate(ok, r, Start(procs0, |procs0|, base0, base1), at, h, procs0 == [], limit)
      ensures ok ==>
        && Layout(procs, picked + [at], base0, base1) && vsec == After(at)
        && 0 <= addr && addr + click < TWO32 && addr % click == 0 && addr == Start(procs, |procs|, base0, base1)
      ensures ok ==> Added(procs0, procs, sp, at, limit, base0, base1)
      ensures !ok ==> procs == procs0
      ensures SameBut(old(memory[..]), Start(procs0, |procs0|, base0, base1), limit)
    {
      procs := procs0;
      var p;
      ok, r, p, sp := PlaceNext(h, procs, limit, base0, base1, at);
      if ok {
        LayoutAppend(procs, picked, p, at, base0, base1);
        procs := procs + [p];
        NowAdded(procs0, p, sp, at, limit, base0, base1);
        if |procs| == 1 && flags.high {
          addr := base1;
        }
      }
    }

    lemma NowAdded(procs: seq<Process>, p: Process, sp: Span, at: nat, limit: int, base0: int, base1: int)
      requires click > 0 && SpanMade(sp, at, Start(procs, |procs|, base0, base1), p.end, procs == [], limit)
      ensures Added(procs, procs + [p], sp, at, limit, base0, base1)
    {
      assert (procs + [p])[|procs|] == p;
    }

    // One program more, with its span.
    ghost predicate Added(procs0: seq<Process>, procs: seq<Process>, sp: Span, at: nat, limit: int, base0: int, base1: int)
      requires click > 0
      reads memory
    {
      && |procs| == |procs0| + 1 && procs == procs0 + [procs[|procs0|]]
      && SpanMade(sp, at, Start(procs0, |procs0|, base0, base1), procs[|procs0|].end, procs0 == [], limit)
    }

    // One program of the image.
    method LoadNext(procs0: seq<Process>, ghost heads0: seq<nat>, base0: nat, limit0: nat, base1: nat, limit1: nat,
                    ghost disk: nat)
      returns (ok: bool, procs: seq<Process>, ghost heads: seq<nat>, ghost why: Failure, ghost sp: Span)
      requires Booting(disk) && Between(procs0, heads0, base0, base1) && base0 <= MAX_LIMIT
      requires base1 % click == 0 && base1 + click < TWO32
      requires limit0 <= memory.Length && limit1 <= memory.Length && limit0 <= MAX_LIMIT && limit1 <= MAX_LIMIT
      modifies this`vsec, this`addr, memory
      ensures ok ==> Between(procs, heads, base0, base1) && Chosen(heads) == Chosen(heads0) + [sp.head]
      ensures ok ==> Added(procs0, procs, sp, sp.head, LimitFor(|procs0|, limit0, limit1), base0, base1)
      ensures !ok ==> procs == procs0 && Chosen(heads) == Chosen(heads0)
      ensures !ok ==> Explains(why, procs, heads, base0, limit0, base1, limit1)
      ensures SameBut(old(memory[..]), Start(procs0, |procs0|, base0, base1), LimitFor(|procs0|, limit0, limit1))
    {
      procs, sp := procs0, Span(0, 0, 0, 0);
      var h;
      ghost var at;
      ok, h, heads, at := NextProgram(disk, heads0);
      why := NoHeader(at);
      if ok {
        var r;
        ok, r, procs, sp := LoadFound(h, procs0, Chosen(heads), base0, LimitFor(|procs0|, limit0, limit1), base1, at);
        why := if r == Refused then NoRoom(at) else Beyond32(at);
        if ok {
          ChainAppend(0, heads, at);
          ChosenAppend(heads, at);
          heads := heads + [at];
        }
      }
    }

    // Memory is m outside the two regions that programs are loaded into.
    ghost predicate Untouched(m: seq<Byte>, base0: int, limit0: int, base1: int, limit1: int)
      reads memory
    {
      && |m| == memory.Length
      && forall k :: 0 <= k < |m| && !(base0 <= k < limit0) && !(flags.high && base1 <= k < limit1) ==> memory[k] == m[k]
    }

    // The spans are those of the programs in the list.
    ghost predicate SpansOf(spans: seq<Span>, procs: seq<Process>, picked: seq<nat>, base0: int, base1: int)
      requires click > 0
    {
      |spans| == |procs| == |picked| && forall k :: 0 <= k < |spans| ==> SpanOf(spans, procs, picked, k, base0, base1)
    }

    ghost predicate SpanOf(spans: seq<Span>, procs: seq<Process>, picked: seq<nat>, k: nat, base0: int, base1: int)
      requires click > 0 && k < |spans| == |procs| == |picked|
    {
      && spans[k].head == picked[k] && spans[k].start == Start(procs, k, base0, base1) && spans[k].end == procs[k].end
      && Fits(spans[k], k == 0)
    }

    lemma SpansAppend(spans: seq<Span>, procs: seq<Process>, picked: seq<nat>, sp: Span, p: Process, base0: int, base1: int)
      requires click > 0 && SpansOf(spans, procs, picked, base0, base1)
      requires sp.start == Start(procs, |procs|, base0, base1) && sp.end == p.end && Fits(sp, procs == [])
      ensures SpansOf(spans + [sp], procs + [p], picked + [sp.head], base0, base1)
    {
      var s', p', h' := spans + [sp], procs + [p], picked + [sp.head];
      forall k | 0 <= k < |s'| ensures SpanOf(s', p', h', k, base0, base1) {
        assert Start(p', k, base0, base1) == Start(procs, k, base0, base1);
        assert k < |spans| ==> SpanOf(spans, procs, picked, k, base0, base1);
      }
    }

    // Programs in memory m are whole, if the regions are apart and no program's a_total
    // lets the next one start inside it.
    ghost predicate Whole(m: seq<Byte>, spans: seq<Span>, base0: int, limit0: int, base1: int, limit1: int)
      requires click > 0
    {
      Apart(flags.high, base0, limit0, base1, limit1) && Roomy(spans) ==>
        forall k :: 0 <= k < |spans| ==> InSpan(m, spans[k], k == 0)
    }

    lemma SpanStays(m: seq<Byte>, sp: Span, kernel: bool, from: int, to: int)
      requires LegalClick(click) && InSpan(m, sp, kernel) && Fits(sp, kernel) && SameBut(m, from, to)
      requires sp.bss <= from || to <= sp.start
      ensures InSpan(memory[..], sp, kernel)
    {
      ProgramStays(m, memory[..], sp.start, sp.head + 1, HeaderAt(sp.head).value, kernel);
    }

    lemma OneMore(m: seq<Byte>, spans: seq<Span>, sp: Span, base0: int, limit0: nat, base1: int, limit1: nat)
      requires LegalClick(click) && Whole(m, spans, base0, limit0, base1, limit1)
      requires Lined(spans + [sp], flags.high, base0, base1) && Bounded(spans + [sp], flags.high, limit0, limit1)
      requires forall k :: 0 <= k < |spans| ==> Fits(spans[k], k == 0)
      requires InSpan(memory[..], sp, spans == []) && SameBut(m, sp.start, LimitFor(|spans|, limit0, limit1))
      ensures Whole(memory[..], spans + [sp], base0, limit0, base1, limit1)
    {
      var all := spans + [sp];
      if Apart(flags.high, base0, limit0, base1, limit1) && Roomy(all) {
        assert Roomy(spans) by {
          forall k | 0 <= k < |spans| ensures spans[k].bss <= spans[k].end {
            assert all[k] == spans[k];
          }
        }
        forall k | 0 <= k < |all| ensures InSpan(memory[..], all[k], k == 0) {
          if k < |spans| {
            assert all[k] == spans[k] && InSpan(m, spans[k], k == 0) && Fits(spans[k], k == 0);
            SpansApart(all, k, flags.high, base0, limit0, base1, limit1);
            SpanStays(m, spans[k], k == 0, sp.start, LimitFor(|spans|, limit0, limit1));
          }
        }
      }
    }

    lemma StillUntouched(m0: seq<Byte>, m: seq<Byte>, from: int, to: int, base0: int, limit0: int, base1: int, limit1: int)
      requires |m0| == |m| && SameBut(m, from, to)
      requires forall k :: 0 <= k < |m| && !(base0 <= k < limit0) && !(flags.high && base1 <= k < limit1) ==> m[k] == m0[k]
      requires (base0 <= from && to == limit0) || (flags.high && base1 <= from && to == limit1)
      ensures Untouched(m0, base0, limit0, base1, limit1)
    {
    }

    // What the load loop keeps about memory.
    ghost predicate LoadState(m0: seq<Byte>, spans: seq<Span>, procs: seq<Process>, picked: seq<nat>,
                           base0: int, limit0: nat, base1: int, limit1: nat)
      reads memory
    {
      && LegalClick(click) && SpansOf(spans, procs, picked, base0, base1)
      && Lined(spans, flags.high, base0, base1) && Bounded(spans, flags.high, limit0, limit1)
      && Untouched(m0, base0, limit0, base1, limit1) && Whole(memory[..], spans, base0, limit0, base1, limit1)
    }

    lemma LoadedNext(m0: seq<Byte>, m: seq<Byte>, spans: seq<Span>, procs: seq<Process>, picked: seq<nat>, sp: Span, p: Process,
                     base0: int, limit0: nat, base1: int, limit1: nat)
      requires LegalClick(click) && SpansOf(spans, procs, picked, base0, base1)
      requires Lined(spans, flags.high, base0, base1) && Bounded(spans, flags.high, limit0, limit1)
      requires Whole(m, spans, base0, limit0, base1, limit1) && Untouched(m0, base0, limit0, base1, limit1)
      requires sp.start == Start(procs, |procs|, base0, base1) && sp.end == p.end && Fits(sp, procs == [])
      requires sp.bss <= LimitFor(|procs|, limit0, limit1) && InSpan(memory[..], sp, procs == []) && sp.start <= sp.end
      requires SameBut(m, sp.start, LimitFor(|procs|, limit0, limit1))
      ensures LoadState(m0, spans + [sp], procs + [p], picked + [sp.head], base0, limit0, base1, limit1)
    {
      SpansAppend(spans, procs, picked, sp, p, base0, base1);
      NextLined(spans, procs, picked, sp, base0, base1);
      BoundedAppend(spans, sp, flags.high, limit0, limit1);
      forall k | 0 <= k < |spans| ensures Fits(spans[k], k == 0) {
        assert SpanOf(spans, procs, picked, k, base0, base1);
      }
      OneMore(m, spans, sp, base0, limit0, base1, limit1);
    }

    lemma NextLined(spans: seq<Span>, procs: seq<Process>, picked: seq<nat>, sp: Span, base0: int, base1: int)
      requires click > 0 && SpansOf(spans, procs, picked, base0, base1) && Lined(spans, flags.high, base0, base1)
      requires sp.start == Start(procs, |procs|, base0, base1) && Fits(sp, procs == []) && sp.start <= sp.end
      ensures Lined(spans + [sp], flags.high, base0, base1)
    {
      if spans != [] {
        assert SpanOf(spans, procs, picked, |spans| - 1, base0, base1);
      }
      LinedAppend(spans, sp, flags.high, base0, base1);
    }

    // The load loop of exec_image.
    method ExecImage(imageSize: nat, base0: nat, limit0: nat, base1: nat, limit1: nat, ghost disk: nat)
      returns (ok: bool, procs: seq<Process>, ghost heads: seq<nat>, ghost why: Failure, ghost spans: seq<Span>)
      requires Booting(disk) && base1 % click == 0 && base0 <= MAX_LIMIT && base1 + click < TWO32
      requires limit0 <= memory.Length && limit1 <= memory.Length && limit0 <= MAX_LIMIT && limit1 <= MAX_LIMIT
      modifies this`vsec, this`addr, memory
      ensures Layout(procs, Chosen(heads), base0, base1) && |procs| <= PROCESS_MAX
      ensures ok ==> Chain(0, heads, vsec) && vsec >= imageSize
      ensures !ok ==> Explains(why, procs, heads, base0, limit0, base1, limit1)
      ensures Untouched(old(memory[..]), base0, limit0, base1, limit1)
      ensures ok ==> SpansOf(spans, procs, Chosen(heads), base0, base1)
      ensures ok ==> Whole(memory[..], spans, base0, limit0, base1, limit1)
    {
      vsec, addr, procs, heads, ok, why, spans := 0, base0, [], [], true, TooMany, [];
      ghost var m0 := memory[..];
      while vsec < imageSize
        invariant Between(procs, heads, base0, base1) && |procs| <= PROCESS_MAX && Booting(disk)
        invariant LoadState(m0, spans, procs, Chosen(heads), base0, limit0, base1, limit1)
        decreases PROCESS_MAX - |procs|
      {
        if |procs| == PROCESS_MAX {
          return false, procs, heads, TooMany, spans;
        }
        ghost var m, before, picked := memory[..], procs, Chosen(heads);
        ghost var sp;
        NextAbove(spans, procs, picked, base0, base1);
        ok, procs, heads, why, sp := LoadNext(procs, heads, base0, limit0, base1, limit1, disk);
        StillUntouched(m0, m, Start(before, |before|, base0, base1), LimitFor(|before|, limit0, limit1),
                       base0, limit0, base1, limit1);
        if !ok {
          return;
        }
        LoadedNext(m0, m, spans, before, picked, sp, procs[|before|], base0, limit0, base1, limit1);
        spans := spans + [sp];
      }
    }

    // The next program starts in the region meant for it.
    lemma NextAbove(spans: seq<Span>, procs: seq<Process>, picked: seq<nat>, base0: int, base1: int)
      requires click > 0 && SpansOf(spans, procs, picked, base0, base1) && Lined(spans, flags.high, base0, base1)
      ensures (if procs != [] && flags.high then base1 else base0) <= Start(procs, |procs|, base0, base1)
    {
      if spans != [] {
        assert SpanOf(spans, procs, picked, |spans| - 1, base0, base1);
        SpansAbove(spans, |spans| - 1, flags.high, base0, base1);
      }
    }

    // A program loaded at a from sector v on: its text, its data and a clear bss.
    ghost predicate InMemory(a: int, v: nat, h: Header, kernel: bool)
      requires click > 0
      reads memory
    {
      InMemoryIn(memory[..], a, v, h, kernel)
    }

    ghost predicate InMemoryIn(m: seq<Byte>, a: int, v: nat, h: Header, kernel: bool)
      requires click > 0
    {
      && FilledIn(m, a, v, Pos(TextPart(h)))
      && FilledIn(m, DsStart(a, h, click), v + Sectors(TextPart(h)), Pos(DataLen(h)))
      && ClearedIn(m, DsStart(a, h, click) + RoundUp(Pos(DataLen(h)), click), BssEnd(a, h, flags, kernel, click))
    }

    ghost predicate ClearedIn(m: seq<Byte>, from: int, to: int) {
      (from < to ==> 0 <= from && to <= |m|) && forall k :: 0 <= k < |m| && from <= k < to ==> m[k] == 0
    }

    // Nothing from a to the end of its bss has changed.
    lemma ProgramStays(m: seq<Byte>, m': seq<Byte>, a: int, v: nat, h: Header, kernel: bool)
      requires LegalClick(click) && InMemoryIn(m, a, v, h, kernel) && |m'| == |m|
      requires forall k :: 0 <= k < |m| && a <= k < BssEnd(a, h, flags, kernel, click) ==> m'[k] == m[k]
      ensures InMemoryIn(m', a, v, h, kernel)
    {
      var ds := DsStart(a, h, click);
      TextBelow(a, h, click);
      UnitBelow(Pos(DataLen(h)), click);
      DataBelow(DataLen(h), BssLen(h, flags, kernel), click);
      SegmentStays(m, m', a, v, Pos(TextPart(h)));
      SegmentStays(m, m', ds, v + Sectors(TextPart(h)), Pos(DataLen(h)));
    }

    lemma SegmentStays(m: seq<Byte>, m': seq<Byte>, a: int, v: nat, n: int)
      requires LegalClick(click) && FilledIn(m, a, v, n) && |m'| == |m|
      requires forall k :: 0 <= k < |m| && a <= k < a + RoundUp(n, click) ==> m'[k] == m[k]
      requires n >= 0
      ensures FilledIn(m', a, v, n)
    {
      UnitBelow(n, click);
    }

    ghost predicate Cleared(from: int, to: int)
      reads memory
    {
      ClearedIn(memory[..], from, to)
    }

    // A segment of n bytes in memory at a: the image, then zeros up to a click.
    ghost predicate Filled(a: int, v: nat, n: int)
      requires click > 0
      reads memory
    {
      FilledIn(memory[..], a, v, n)
    }

    ghost predicate FilledIn(m: seq<Byte>, a: int, v: nat, n: int)
      requires click > 0
    {
      && 0 <= a && (n > 0 ==> a + RoundUp(n, click) <= |m|)
      && (forall k :: a <= k < |m| && k < a + RoundUp(n, Unit(click)) ==> m[k] == ImageByte(v, k - a))
      && forall k :: 0 <= k < |m| && a + RoundUp(n, Unit(click)) <= k < a + RoundUp(n, click) ==> m[k] == 0
    }
  }

  // Extending a segment to a click stays within the click that was checked.
  lemma ExtendFits(a: int, n: int, c: int)
    requires LegalClick(c) && n >= 0 && 0 <= a && a % c == 0 && a + RoundUp(n, Unit(c)) + c < TWO32
    ensures Align32(a + RoundUp(n, Unit(c)), c) == a + RoundUp(n, c)
    ensures RoundUp(n, Unit(c)) <= RoundUp(n, c) <= RoundUp(n, Unit(c)) - Unit(c) + c
    ensures n == 0 ==> RoundUp(n, c) == 0
    ensures (a + RoundUp(n, c)) % c == 0
  {
    UnitDivides(c);
    ExtendBound(n, Unit(c), c);
    AlignIsRoundUp(a + RoundUp(n, Unit(c)), c);
    ExtendAligned(a, n, Unit(c), c);
    RoundUpZero(c);
  }

  lemma ExtendAligned(a: int, n: int, u: int, c: int)
    requires u > 0 && c > 0 && c % u == 0 && a % c == 0
    ensures RoundUp(a + RoundUp(n, u), c) == a + RoundUp(n, c) && (a + RoundUp(n, c)) % c == 0
  {
    RoundUpShift(RoundUp(n, u), a, c);
    RoundUpTwice(n, u, c);
    RoundUpMultiple(n, c);
    AddMultiple(RoundUp(n, c), a, c);
  }

  lemma UnitBelow(n: int, c: int)
    requires LegalClick(c)
    ensures RoundUp(n, Unit(c)) <= RoundUp(n, c)
  {
    UnitDivides(c);
    ExtendBound(n, Unit(c), c);
  }

  lemma DataBelow(data: int, bss: nat, c: int)
    requires LegalClick(c)
    ensures 0 <= RoundUp(Pos(data), c) <= Cleared32(data, bss, c)
  {
    RoundUpZero(c);
    AlignMod(data + bss, c);
    RoundUpMultiple(data + bss, c);
    if data >= 0 {
      NotBelow(data, RoundUp(data + bss, c), c);
    }
  }

  lemma TakenAligned(data: int, bss: nat, c: int)
    requires LegalClick(c)
    ensures Cleared32(data, bss, c) % c == 0
  {
    AlignMod(data + bss, c);
    RoundUpMultiple(data + bss, c);
  }

  // Less than nothing is aligned to almost everything.
  lemma Overflowed(x: int, c: int)
    requires LegalClick(c) && -TWO31 <= x <= -c
    ensures RoundUp(x, c) % TWO32 == RoundUp(x, c) + TWO32 && -TWO31 <= RoundUp(x, c) <= -c
  {
    OneMultiple(c);
    NotBelow(x, -c, c);
  }

  // What is cleared behind the data, in 32-bit arithmetic.
  lemma BssNumbers(data: int, bss: nat, c: int)
    requires LegalClick(c) && -TWO31 <= data < TWO31 && bss < TWO31
    ensures var n := Align32(bss + (data - RoundUp(Pos(data), c)), c);
      0 <= n < TWO32 && RoundUp(Pos(data), c) + n == Cleared32(data, bss, c)
  {
    if data >= 0 {
      BssBehind(data, bss, c);
    } else {
      RoundUpZero(c);
      AlignMod(bss + data, c);
    }
  }

  lemma BssBehind(data: nat, bss: nat, c: int)
    requires LegalClick(c) && data < TWO31 && bss < TWO31
    ensures var n := Align32(bss + (data - RoundUp(data, c)), c);
      0 <= n < TWO32 && RoundUp(data, c) + n == RoundUp(data + bss, c)
  {
    AlignMod(bss + (data - RoundUp(data, c)), c);
    Carry(data, bss, c);
    RestAligns(bss + (data - RoundUp(data, c)), c);
  }

  lemma TextBelow(a: int, h: Header, c: int)
    requires LegalClick(c)
    ensures a + RoundUp(Pos(TextPart(h)), Unit(c)) <= a + RoundUp(Pos(TextPart(h)), c) == DsStart(a, h, c)
  {
    UnitDivides(c);
    ExtendBound(Pos(TextPart(h)), Unit(c), c);
    RoundUpZero(c);
  }

  lemma ExtendBound(n: int, u: int, c: int)
    requires u > 0 && c > 0 && c % u == 0
    ensures RoundUp(n, u) <= RoundUp(n, c) <= RoundUp(n, u) - u + c
  {
    var m, r := RoundUp(n, u), RoundUp(n, c);
    RoundUpTwice(n, u, c);
    RoundUpMultiple(n, u);
    RoundUpMultiple(n, c);
    MultipleOfMultiple(r, u, c);
    AddMultiple(m, c, u);
    MultipleBelow(r, m + c, u);
  }

  lemma MultipleBelow(x: int, y: int, u: int)
    requires u > 0 && x % u == 0 && y % u == 0 && x < y
    ensures x <= y - u
  {
    if y - u < x {
      MultiplesApart(x, y, u);
    }
  }

  /** The next program starts inside this one exactly when a_total leaves out a whole click
      of what was loaded and cleared. */
  lemma OverlapWhen(a: int, h: Header, f: Flags, kernel: bool, c: int)
    requires c > 0 && DataLen(h) >= 0
    ensures StackEnd(a, h, f, kernel, c) < BssEnd(a, h, f, kernel, c) <==>
      StackLen(h, f, kernel) <= RoundUp(DataLen(h) + BssLen(h, f, kernel), c) - (DataLen(h) + BssLen(h, f, kernel)) - c
  {
    var used := DataLen(h) + BssLen(h, f, kernel);
    RoundsLower(used + StackLen(h, f, kernel), used, c);
  }

  lemma RoundsLower(x: int, y: int, c: int)
    requires c > 0
    ensures RoundUp(x, c) < RoundUp(y, c) <==> x <= RoundUp(y, c) - c
  {
    RoundUpMultiple(x, c);
    RoundUpMultiple(y, c);
    if RoundUp(x, c) < RoundUp(y, c) {
      MultipleBelow(RoundUp(x, c), RoundUp(y, c), c);
    }
    if x <= RoundUp(y, c) - c {
      DivMod(-c, -1, 0, c);
      AddMultiple(RoundUp(y, c), -c, c);
      NotBelow(x, RoundUp(y, c) - c, c);
    }
  }

  // ---------------------------------------------------------------- spans in memory

  // The two regions are apart, when there are two.
  ghost predicate Apart(high: bool, base0: int, limit0: int, base1: int, limit1: int) {
    high ==> limit0 <= base1 || limit1 <= base0
  }

  ghost predicate Roomy(spans: seq<Span>) {
    forall k :: 0 <= k < |spans| ==> spans[k].bss <= spans[k].end
  }

  // Each span starts where the one before ends, the first at base0 or above, and the second
  // at base1 when there are two regions.
  ghost predicate Lined(spans: seq<Span>, high: bool, base0: int, base1: int) {
    forall k :: 0 <= k < |spans| ==> LinedAt(spans, k, high, base0, base1)
  }

  ghost predicate LinedAt(spans: seq<Span>, k: nat, high: bool, base0: int, base1: int)
    requires k < |spans|
  {
    && spans[k].start <= spans[k].end
    && if k == 0 then base0 <= spans[k].start
       else spans[k].start == if k == 1 && high then base1 else spans[k - 1].end
  }

  ghost predicate Bounded(spans: seq<Span>, high: bool, limit0: int, limit1: int) {
    forall k :: 0 <= k < |spans| ==> spans[k].bss <= if k > 0 && high then limit1 else limit0
  }

  lemma LinedAppend(spans: seq<Span>, sp: Span, high: bool, base0: int, base1: int)
    requires Lined(spans, high, base0, base1) && sp.start <= sp.end
    requires if spans == [] then base0 <= sp.start
             else sp.start == if |spans| == 1 && high then base1 else spans[|spans| - 1].end
    ensures Lined(spans + [sp], high, base0, base1)
  {
    forall k | 0 <= k < |spans + [sp]| ensures LinedAt(spans + [sp], k, high, base0, base1) {
      assert k < |spans| ==> LinedAt(spans, k, high, base0, base1);
    }
  }

  lemma BoundedAppend(spans: seq<Span>, sp: Span, high: bool, limit0: int, limit1: int)
    requires Bounded(spans, high, limit0, limit1) && sp.bss <= if |spans| > 0 && high then limit1 else limit0
    ensures Bounded(spans + [sp], high, limit0, limit1)
  {
  }

  // A span ends before a later one of its region starts.
  lemma {:induction false} Ordered(spans: seq<Span>, j: nat, k: nat, high: bool, base0: int, base1: int)
    requires Lined(spans, high, base0, base1) && j < k < |spans| && (high ==> j > 0)
    ensures spans[j].end <= spans[k].start
    decreases k
  {
    assert LinedAt(spans, k, high, base0, base1) && LinedAt(spans, k - 1, high, base0, base1);
    if j < k - 1 {
      Ordered(spans, j, k - 1, high, base0, base1);
    }
  }

  lemma SpansAbove(spans: seq<Span>, k: nat, high: bool, base0: int, base1: int)
    requires Lined(spans, high, base0, base1) && k < |spans|
    ensures (if k > 0 && high then base1 else base0) <= spans[k].start <= spans[k].end
  {
    var first := if high then 1 else 0;
    assert LinedAt(spans, k, high, base0, base1);
    if k > first {
      Ordered(spans, first, k, high, base0, base1);
      assert LinedAt(spans, first, high, base0, base1);
    }
  }

  /** Loading the last program touches none of those before it. */
  lemma SpansApart(spans: seq<Span>, k: nat, high: bool, base0: int, limit0: int, base1: int, limit1: int)
    requires Lined(spans, high, base0, base1) && Bounded(spans, high, limit0, limit1) && Roomy(spans)
    requires Apart(high, base0, limit0, base1, limit1) && k < |spans| - 1
    ensures var last, limit := spans[|spans| - 1], if high then limit1 else limit0;
      spans[k].bss <= last.start || limit <= spans[k].start
  {
    var n := |spans| - 1;
    SpansAbove(spans, k, high, base0, base1);
    SpansAbove(spans, n, high, base0, base1);
    if !(high && k == 0) {
      Ordered(spans, k, n, high, base0, base1);
    }
  }

  lemma EndsAligned(a: int, h: Header, f: Flags, kernel: bool, c: int)
    requires c > 0 && a % c == 0
    ensures StackEnd(a, h, f, kernel, c) % c == 0
  {
    var all, t := AllLen(h, f, kernel), Pos(TextPart(h));
    RoundUpMultiple(t, c);
    RoundUpMultiple(all, c);
    AddMultiple(a, RoundUp(t, c), c);
    AddMultiple(DsStart(a, h, c), RoundUp(all, c), c);
  }

  lemma ProcSizeNat(h: Header)
    ensures ProcSize(h) >= 0
  {
    var len0 := h.text + if h.pal then h.hdrlen else 0;
    AlignNat(len0 + h.data);
    AlignNat(Align32(len0, SECTOR) + h.data);
  }

  lemma AlignNat(n: int)
    ensures Align32(n, SECTOR) / SECTOR >= 0
  {
    SomePowers();
    AlignMod(n, SECTOR);
  }

  lemma FirstAddr(a: int, c: int)
    requires LegalClick(c) && 0 <= a <= MAX_LIMIT
    ensures Align32(a, c) == RoundUp(a, c) && RoundUp(a, c) % c == 0 && RoundUp(a, c) + c < TWO32
  {
    AlignIsRoundUp(a, c);
    RoundUpMultiple(a, c);
  }

  lemma RoundUpZero(c: int)
    requires c > 0
    ensures RoundUp(0, c) == 0
  {
    RoundUpUnique(0, c, 0);
  }

  // Modulo 2^32 it does not matter where the rounding is done.
  lemma StackNumbers(ds: int, used: int, taken: int, stack: int, c: int)
    requires LegalClick(c) && taken % c == 0
    ensures Add32(ds + taken, Align32(stack + (used - taken), c)) == (ds + RoundUp(used + stack, c)) % TWO32
  {
    TakenOff(used + stack, taken, c);
    AlignLow(stack + (used - taken), c);
    AddMod(ds + taken, RoundUp(used + stack, c) - taken);
  }

  lemma TakenOff(x: int, taken: int, c: int)
    requires c > 0 && taken % c == 0
    ensures RoundUp(x - taken, c) == RoundUp(x, c) - taken
  {
    NegMultiple(taken, c);
    RoundUpShift(x, -taken, c);
  }

  lemma AddMod(a: int, b: int)
    ensures (a + b % TWO32) % TWO32 == (a + b) % TWO32
  {
    DivMod(a + b % TWO32, (a + b) / TWO32 - b / TWO32, (a + b) % TWO32, TWO32);
  }

  // An overflow of the stack size is a multiple of 2^32.
  lemma StackWraps(ds: int, used: int, stack: int, c: int)
    requires LegalClick(c)
    ensures (ds + RoundUp(used + Long32(stack), c)) % TWO32 == (ds + RoundUp(used + stack, c)) % TWO32
  {
    ClickDivides(c);
    var q := LongMod(stack);
    DivMod(q * TWO32, q, 0, TWO32);
    MultipleOfMultiple(q * TWO32, c, TWO32);
    RoundUpShift(used + stack, q * TWO32, c);
    AddMultiple(ds + RoundUp(used + stack, c), q * TWO32, TWO32);
  }

  lemma StackAt(a: int, h: Header, f: Flags, kernel: bool, c: int)
    requires LegalClick(c)
    ensures var bss := BssLen(h, f, kernel);
      var left := DataLen(h) + bss - Cleared32(DataLen(h), bss, c);
      Add32(BssEnd(a, h, f, kernel, c), Align32(Long32(StackLen(h, f, kernel)) + left, c))
      == StackEnd(a, h, f, kernel, c) % TWO32
  {
    StackSum(DsStart(a, h, c), DataLen(h), BssLen(h, f, kernel), StackLen(h, f, kernel), c);
  }

  lemma StackSum(ds: int, data: int, bss: nat, stack: int, c: int)
    requires LegalClick(c)
    ensures var taken := Cleared32(data, bss, c);
      Add32(ds + taken, Align32(Long32(stack) + (data + bss - taken), c)) == (ds + RoundUp(data + bss + stack, c)) % TWO32
  {
    TakenAligned(data, bss, c);
    StackParts(ds, data + bss, Cleared32(data, bss, c), stack, c);
  }

  lemma StackParts(ds: int, used: int, taken: int, stack: int, c: int)
    requires LegalClick(c) && taken % c == 0
    ensures Add32(ds + taken, Align32(Long32(stack) + (used - taken), c)) == (ds + RoundUp(used + stack, c)) % TWO32
  {
    StackNumbers(ds, used, taken, Long32(stack), c);
    StackWraps(ds, used, stack, c);
  }

  // With common I and D the data segment starts with the program.
  lemma CommonStart(a: int, h: Header, c: int)
    requires LegalClick(c) && 0 <= a && a + c < TWO32
    ensures !h.sep ==> DsStart(a, h, c) == a
  {
    RoundUpZero(c);
  }

  // The end of a program: aligned, and within the limit exactly when everything fits in the
  // whole clicks that are left.
  lemma EndFacts(a: int, h: Header, f: Flags, kernel: bool, c: int, limit: int)
    requires LegalClick(c) && Longs(h) && a % c == 0 && 0 <= a
    ensures (StackEnd(a, h, f, kernel, c) % TWO32) % c == 0
    ensures var room := limit - DsStart(a, h, c);
      StackEnd(a, h, f, kernel, c) <= limit <==> AllLen(h, f, kernel) <= room - room % c
    ensures Represented(h) ==> AllLen(h, f, kernel) >= 0 && a <= StackEnd(a, h, f, kernel, c)
  {
    EndsAligned(a, h, f, kernel, c);
    ModSame(StackEnd(a, h, f, kernel, c), c);
    RoundUpFits(AllLen(h, f, kernel), limit - DsStart(a, h, c), c);
    Sizes(h);
  }

  lemma LoadedEnd(a: int, h: Header, f: Flags, kernel: bool, c: int, limit: int)
    requires LegalClick(c) && Longs(h) && a % c == 0 && 0 <= a
    ensures var e := StackEnd(a, h, f, kernel, c) % TWO32;
      e % c == 0 && (Within32(a, h, f, kernel, c) ==> EndWithin(a, h, f, kernel, c, e, limit))
  {
    EndFacts(a, h, f, kernel, c, limit);
  }

  // The end of a program that ends at a 32-bit address, and when it is below the limit.
  predicate EndWithin(a: int, h: Header, f: Flags, kernel: bool, c: int, end: int, limit: int)
    requires c > 0
  {
    && end == StackEnd(a, h, f, kernel, c) && a <= end && end + c < TWO32
    && var room := limit - DsStart(a, h, c);
       end <= limit <==> AllLen(h, f, kernel) <= room - room % c
  }

  // n bytes rounded up fit in x exactly when n fits in the whole clicks of x.
  lemma RoundUpFits(n: int, x: int, c: int)
    requires c > 0
    ensures RoundUp(n, c) <= x <==> n <= x - x % c
  {
    var w := x - x % c;
    DivMod(w, x / c, 0, c);
    RoundUpMultiple(n, c);
    if n <= w {
      NotBelow(n, w, c);
    }
    if RoundUp(n, c) <= x && w < RoundUp(n, c) {
      MultiplesApart(RoundUp(n, c), w, c);
    }
  }

  lemma NegMultiple(x: int, c: int)
    requires c > 0 && x % c == 0
    ensures (-x) % c == 0
  {
    DivMod(-x, -(x / c), 0, c);
  }

  // Carrying the excess over as a negative size rounds the sum once.
  lemma Carry(x: int, y: int, c: int)
    requires c > 0
    ensures RoundUp(x, c) + RoundUp(y + (x - RoundUp(x, c)), c) == RoundUp(x + y, c)
  {
    RoundUpMultiple(x, c);
    NegMultiple(RoundUp(x, c), c);
    RoundUpShift(x + y, -RoundUp(x, c), c);
  }

  // A size that lacks less than a click is aligned without wrapping around.
  lemma RestAligns(a: int, c: int)
    requires LegalClick(c) && -c < a < TWO32 - c
    ensures Align32(a, c) == RoundUp(a, c) && Align32(a, c) >= 0
  {
    AlignIsRoundUp(a, c);
    DivMod(-c, -1, 0, c);
    RoundUpMultiple(a, c);
    MultipleBelow(-c, RoundUp(a, c), c);
  }

  /** Loading a program reads as many sectors as skipping it passes over. */
  lemma SectorsOfProc(h: Header)
    requires Longs(h) && Represented(h) && TextLen(h) + h.data < TWO32 - 2 * SECTOR
    ensures Sectors(TextPart(h)) + Sectors(DataLen(h)) == ProcSize(h)
  {
    var t := TextLen(h);
    Sizes(h);
    SectorAlign(t);
    if h.sep {
      SectorAlign(RoundUp(t, SECTOR) + h.data);
      RoundUpMultiple(t, SECTOR);
      RoundUpShift(h.data, RoundUp(t, SECTOR), SECTOR);
    } else {
      SectorAlign(t + h.data);
      RoundUpZero(SECTOR);
    }
  }

  lemma SectorAlign(n: int)
    requires 0 <= n < TWO32 - SECTOR
    ensures Align32(n, SECTOR) == RoundUp(n, SECTOR)
  {
    SomePowers();
    AlignIsRoundUp(n, SECTOR);
  }

  // x is made of whole units.
  ghost predicate Units(x: int, u: int)
    requires u > 0
    decreases x
  {
    x == 0 || (x >= u && Units(x - u, u))
  }

  lemma {:induction false} UnitsIff(x: int, u: int)
    requires u > 0
    ensures Units(x, u) <==> x >= 0 && x % u == 0
    decreases x
  {
    if x >= u {
      UnitsIff(x - u, u);
      AddMultiple(x - u, u, u);
    } else if 0 <= x {
      DivMod(x, 0, x, u);
    }
  }

  // Where the loop of get_segment is: done bytes copied in units of u, secs sectors read,
  // cnt bytes left of the last one.
  ghost predicate Progress(size0: int, u: int, done: int, cnt: int, secs: int) {
    && 0 < u <= SECTOR && Units(SECTOR, u) && Units(done, u) && 0 <= done < size0 + u
    && Units(cnt, u) && 0 <= cnt <= SECTOR && done + cnt == secs * SECTOR
    && secs >= 0 && (secs - 1) * SECTOR < size0
  }

  lemma Begin(size0: int, click: int)
    requires LegalClick(click) && size0 >= 0
    ensures Progress(size0, Unit(click), 0, 0, 0)
  {
    UnitDivides(click);
    UnitsIff(SECTOR, Unit(click));
  }

  lemma FetchStep(size0: int, u: int, done: int, secs: int)
    requires Progress(size0, u, done, 0, secs) && done < size0
    ensures Progress(size0, u, done, SECTOR, secs + 1) && Sectors(size0) > secs
  {
    RoundUpMultiple(size0, SECTOR);
  }

  lemma CopyStep(size0: int, u: int, done: int, cnt: int, secs: int)
    requires Progress(size0, u, done, cnt, secs) && done < size0 && cnt > 0
    ensures Progress(size0, u, done + u, cnt - u, secs) && done + u <= RoundUp(size0, u) && u <= cnt
  {
    UnitsIff(done, u);
    NextUnit(size0, done, u);
  }

  lemma Finish(size0: int, u: int, done: int, cnt: int, secs: int)
    requires Progress(size0, u, done, cnt, secs) && done >= size0 && (cnt < SECTOR || done > 0)
    ensures done == RoundUp(size0, u) && secs == Sectors(size0)
  {
    UnitsIff(done, u);
    RoundUpUnique(size0, u, done);
    RoundUpUnique(size0, SECTOR, secs * SECTOR);
  }

  // The units of a sector: the one copied next is a click or the whole sector.
  lemma UnitCopied(cnt: int, click: int)
    requires LegalClick(click) && 0 < cnt <= SECTOR && Units(cnt, Unit(click))
    ensures (if click > cnt then cnt else click) == Unit(click)
  {
  }

  // A multiple of u below n leaves room for another u.
  lemma NextUnit(n: int, done: int, u: int)
    requires u > 0 && done % u == 0 && done < n
    ensures done + u <= RoundUp(n, u)
  {
    var m := RoundUp(n, u);
    RoundUpMultiple(n, u);
    if m < done + u {
      MultiplesApart(m, done, u);
    }
  }
}
