/**
 readsectors on a CD: 512-byte sectors out of a one-sector cache of 2048 bytes.  A read of
 the CD can fail, and what it then leaves in the buffer is taken for the sector that was
 read before.
 */
module CdReader {
  import opened BootArith

  const CDSECTOR := 2048
  const FACTOR := 4

  // A read of the CD: code 0, or an error and what it left in the buffer.
  datatype Access = Access(sec: nat, code: int, left: seq<Byte>)

  // ------------------------------------------------------- after the reads made so far

  // What is in the buffer.
  function Held(disc: int -> seq<Byte>, log: seq<Access>): (b: seq<Byte>)
  {
    if log == [] then seq(CDSECTOR, _ => 0)
    else
      var a := log[|log| - 1];
      if a.code == 0 then disc(a.sec) else a.left
  }

  // What it is taken for: the sector of the last read that succeeded, -1 before that.
  function Tag(log: seq<Access>): (sec: int)
    ensures sec >= -1
  {
    if log == [] then -1
    else
      var a := log[|log| - 1];
      if a.code == 0 then a.sec else Tag(log[..|log| - 1])
  }

  // The buffer holds the sector it is taken for.
  ghost predicate Trusted(disc: int -> seq<Byte>, log: seq<Access>) {
    Tag(log) >= 0 ==> Held(disc, log) == disc(Tag(log))
  }

  /** The buffer is right if and only if the last read of the CD did not fail, or none before
      it succeeded, or it left in the buffer the last sector that was read. */
  lemma {:induction false} TrustedIff(disc: int -> seq<Byte>, log: seq<Access>)
    ensures Trusted(disc, log) <==>
      || log == [] || log[|log| - 1].code == 0
      || (forall j :: 0 <= j < |log| ==> log[j].code != 0)
      || exists j :: LastGood(log, j) && log[|log| - 1].left == disc(log[j].sec)
  {
    if log != [] && log[|log| - 1].code != 0 {
      if Tag(log) >= 0 {
        var j := GoodIsTag(log);
        forall k | LastGood(log, k) ensures k == j {
        }
      } else {
        NeverGood(log);
      }
    }
  }

  // Read j succeeded, and none after it.
  ghost predicate LastGood(log: seq<Access>, j: int) {
    0 <= j < |log| && log[j].code == 0 && forall k :: j < k < |log| ==> log[k].code != 0
  }

  lemma {:induction false} GoodIsTag(log: seq<Access>) returns (j: nat)
    requires Tag(log) >= 0
    ensures LastGood(log, j) && log[j].sec == Tag(log)
  {
    var n := |log| - 1;
    if log[n].code == 0 {
      j := n;
    } else {
      j := GoodIsTag(log[..n]);
      assert forall k :: 0 <= k < n ==> log[..n][k] == log[k];
    }
  }

  lemma {:induction false} NeverGood(log: seq<Access>)
    requires Tag(log) < 0
    ensures forall j :: 0 <= j < |log| ==> log[j].code != 0
  {
    if log != [] {
      var n := |log| - 1;
      NeverGood(log[..n]);
      assert forall k :: 0 <= k < n ==> log[..n][k] == log[k];
    }
  }

  // The 512-byte sector s out of the CD sector b.
  function Part(b: seq<Byte>, s: nat): (r: seq<Byte>)
    requires |b| == CDSECTOR
    ensures |r| == SECTOR
  {
    b[s % FACTOR * SECTOR..s % FACTOR * SECTOR + SECTOR]
  }

  /** When the buffer is wrong, there is a sector that comes out wrong. */
  lemma WrongSector(disc: int -> seq<Byte>, log: seq<Access>) returns (s: nat)
    requires WellFormed(disc) && |Held(disc, log)| == CDSECTOR && !Trusted(disc, log)
    ensures s / FACTOR == Tag(log) && Part(Held(disc, log), s) != Part(disc(Tag(log)), s)
  {
    var b, d, a := Held(disc, log), disc(Tag(log)), FACTOR * Tag(log);
    if Part(b, a) != Part(d, a) {
      s := a;
    } else if Part(b, a + 1) != Part(d, a + 1) {
      s := a + 1;
    } else if Part(b, a + 2) != Part(d, a + 2) {
      s := a + 2;
    } else {
      s := a + 3;
      if Part(b, s) == Part(d, s) {
        Parts(b, a);
        Parts(d, a);
      }
    }
  }

  lemma Parts(b: seq<Byte>, a: nat)
    requires |b| == CDSECTOR && a % FACTOR == 0
    ensures b == Part(b, a) + Part(b, a + 1) + Part(b, a + 2) + Part(b, a + 3)
  {
  }

  ghost predicate WellFormed(disc: int -> seq<Byte>) {
    forall s {:trigger disc(s)} :: |disc(s)| == CDSECTOR
  }

  // ------------------------------------------------------------------- readsectors

  // The first CD sector that a call for the sectors from `first` on has to read.
  function FirstRead(tag: int, first: nat): (sec: nat) {
    first / FACTOR + if first / FACTOR == tag then 1 else 0
  }

  // How many CD sectors a call for n sectors has to read.
  function ToRead(tag: int, first: nat, n: nat): (r: int) {
    if n == 0 then 0 else (first + n - 1) / FACTOR + 1 - FirstRead(tag, first)
  }

  lemma MoreToRead(tag: int, first: nat, i: nat, n: nat)
    requires i <= n
    ensures 0 <= ToRead(tag, first, i) <= ToRead(tag, first, n)
  {
  }

  class Cd {
    const disc: int -> seq<Byte>                    // the sectors of the CD
    const outcome: nat -> (int, seq<Byte>)          // what becomes of each read
    var cdbuf: seq<Byte>
    var cdbufSec: int
    var log: seq<Access>                            // the reads of the CD made so far

    constructor (disc: int -> seq<Byte>, outcome: nat -> (int, seq<Byte>))
      requires WellFormed(disc) && forall n: nat {:trigger outcome(n)} :: |outcome(n).1| == CDSECTOR
      ensures this.disc == disc && this.outcome == outcome && Exact() && log == []
    {
      this.disc, this.outcome := disc, outcome;
      cdbuf, cdbufSec, log := seq(CDSECTOR, _ => 0), -1, [];
    }

    // The buffer is what the reads made so far left there.
    ghost predicate Exact()
      reads this
    {
      && WellFormed(disc) && (forall n: nat {:trigger outcome(n)} :: |outcome(n).1| == CDSECTOR)
      && cdbuf == Held(disc, log) && cdbufSec == Tag(log) && |cdbuf| == CDSECTOR
      && forall j :: 0 <= j < |log| ==> log[j].code == outcome(j).0 && log[j].left == outcome(j).1
    }

    // The CD sector that is wanted is in the buffer, or is read.
    method Fetch(cdsec: nat) returns (r: int)
      requires Exact()
      modifies this
      ensures Exact() && (r == 0 ==> cdbufSec == cdsec)
      ensures cdsec == old(cdbufSec) ==> r == 0 && log == old(log) && cdbuf == old(cdbuf)
      ensures cdsec != old(cdbufSec) ==>
        && r == outcome(|old(log)|).0 && log == old(log) + [Access(cdsec, r, outcome(|old(log)|).1)]
        && (r == 0 ==> cdbuf == disc(cdsec)) && (r != 0 ==> cdbufSec == old(cdbufSec))
    {
      r := 0;
      if cdsec != cdbufSec {
        var what := outcome(|log|);
        r := what.0;
        assert (log + [Access(cdsec, r, what.1)])[..|log|] == log;
        log := log + [Access(cdsec, r, what.1)];
        if r != 0 {
          cdbuf := what.1;
        } else {
          cdbuf := disc(cdsec);
          cdbufSec := cdsec;
        }
      }
    }

    // Where sector s is copied from by a call for the sectors from `first` on: a sector in
    // the buffer before the call is not read again.
    ghost function Source(buf: seq<Byte>, tag: int, first: nat, s: nat): (b: seq<Byte>)
    {
      if first / FACTOR == tag && s / FACTOR == tag then buf else disc(s / FACTOR)
    }

    // The call for sectors from `first` on has read n sectors of the CD, one after the other.
    ghost predicate Read(before: seq<Access>, tag: int, first: nat, n: int)
      reads this
    {
      && n >= 0 && |log| == |before| + n && before <= log
      && forall j :: |before| <= j < |log| ==> log[j].sec == FirstRead(tag, first) + (j - |before|)
    }

    // ... and the reads from number `from` up to number `to` succeeded.
    ghost predicate Succeeded(from: int, to: int)
      reads this
    {
      forall j :: 0 <= from <= j < to <= |log| ==> log[j].code == 0
    }

    // Where a call is after i sectors.
    ghost predicate Going(buf: seq<Byte>, tag: int, before: seq<Access>, first: nat, i: nat)
      reads this
    {
      && Exact() && Read(before, tag, first, ToRead(tag, first, i)) && Succeeded(|before|, |log|)
      && cdbufSec == (if i == 0 then tag else (first + i - 1) / FACTOR)
      && cdbuf == if i == 0 then buf else Source(buf, tag, first, first + i - 1)
    }

    // The CD sector of the next of them is fetched.
    method FetchNext(first: nat, i: nat, ghost buf: seq<Byte>, ghost tag: int, ghost before: seq<Access>) returns (r: int)
      requires Going(buf, tag, before, first, i)
      modifies this
      ensures r == 0 ==> Going(buf, tag, before, first, i + 1)
      ensures r != 0 ==>
        && Exact() && Read(before, tag, first, ToRead(tag, first, i) + 1) && ToRead(tag, first, i) < ToRead(tag, first, i + 1)
        && Succeeded(|before|, |log| - 1) && log[|log| - 1].code == r
    {
      r := Fetch((first + i) / FACTOR);
    }

    // readsectors.  One read is made of each CD sector that is not in the buffer, and it
    // succeeds exactly when those do.  The sectors are the right ones if the buffer was, or
    // if the first of them was not in it.
    method ReadSectors(memory: array<Byte>, addr: nat, sector: nat, count: nat) returns (r: int)
      requires Exact() && addr + count * SECTOR <= memory.Length
      modifies this, memory
      ensures Exact()
      ensures r == 0 ==> Read(old(log), old(cdbufSec), sector, ToRead(old(cdbufSec), sector, count)) && Succeeded(|old(log)|, |log|)
      ensures r != 0 ==>
        && 0 < |log| - |old(log)| <= ToRead(old(cdbufSec), sector, count)
        && Read(old(log), old(cdbufSec), sector, |log| - |old(log)|)
        && Succeeded(|old(log)|, |log| - 1) && log[|log| - 1].code == r
      ensures r == 0 ==> forall i :: 0 <= i < count ==> CopiedAt(memory[..], addr, old(cdbuf), old(cdbufSec), sector, i)
      ensures r == 0 && (Trusted(disc, old(log)) || sector / FACTOR != Tag(old(log))) ==>
        forall i :: 0 <= i < count ==> RightAt(memory[..], addr, sector, i)
      ensures forall k :: 0 <= k < memory.Length && !(addr <= k < addr + count * SECTOR) ==> memory[k] == old(memory[k])
    {
      ghost var b0, t0, l0 := cdbuf, cdbufSec, log;
      var i := 0;
      while i < count
        invariant 0 <= i <= count && Going(b0, t0, l0, sector, i)
        invariant forall k :: 0 <= k < memory.Length && !(addr <= k < addr + i * SECTOR) ==> memory[k] == old(memory[k])
        invariant forall j :: 0 <= j < i ==> CopiedAt(memory[..], addr, b0, t0, sector, j)
      {
        r := FetchNext(sector, i, b0, t0, l0);
        if r != 0 {
          MoreToRead(t0, sector, i + 1, count);
          return;
        }
        CopyNext(memory, addr, sector, i, b0, t0);
        i := i + 1;
      }
      r := 0;
      AllRight(memory[..], addr, b0, l0, sector, count);
    }

    // Sector i of a call is copied out of the buffer.
    method CopyNext(memory: array<Byte>, addr: nat, first: nat, i: nat, ghost buf: seq<Byte>, ghost tag: int)
      requires |cdbuf| == CDSECTOR && cdbuf == Source(buf, tag, first, first + i) && addr + i * SECTOR + SECTOR <= memory.Length
      requires forall j :: 0 <= j < i ==> CopiedAt(memory[..], addr, buf, tag, first, j)
      modifies memory
      ensures forall j :: 0 <= j <= i ==> CopiedAt(memory[..], addr, buf, tag, first, j)
      ensures forall k :: 0 <= k < memory.Length && !(addr + i * SECTOR <= k < addr + i * SECTOR + SECTOR) ==>
        memory[k] == old(memory[k])
    {
      CopySector(memory, addr + i * SECTOR, (first + i) % FACTOR * SECTOR);
      CopiedStays(old(memory[..]), memory[..], addr, buf, tag, first, i);
      assert CopiedAt(memory[..], addr, buf, tag, first, i);
    }

    lemma AllRight(m: seq<Byte>, addr: nat, buf: seq<Byte>, before: seq<Access>, first: nat, n: nat)
      requires WellFormed(disc) && buf == Held(disc, before)
      requires forall j :: 0 <= j < n ==> CopiedAt(m, addr, buf, Tag(before), first, j)
      ensures Trusted(disc, before) || first / FACTOR != Tag(before) ==>
        forall j :: 0 <= j < n ==> RightAt(m, addr, first, j)
    {
      if Trusted(disc, before) || first / FACTOR != Tag(before) {
        forall j | 0 <= j < n ensures RightAt(m, addr, first, j) {
          assert CopiedAt(m, addr, buf, Tag(before), first, j);
        }
      }
    }

    // Sector j of a call is that of the CD.
    ghost predicate RightAt(m: seq<Byte>, addr: nat, first: nat, j: nat)
    {
      && addr + j * SECTOR + SECTOR <= |m| && |disc((first + j) / FACTOR)| == CDSECTOR
      && m[addr + j * SECTOR..addr + j * SECTOR + SECTOR] == Part(disc((first + j) / FACTOR), first + j)
    }

    // Sector j of a call has been copied from its source.
    ghost predicate CopiedAt(m: seq<Byte>, addr: nat, buf: seq<Byte>, tag: int, first: nat, j: nat)
    {
      && addr + j * SECTOR + SECTOR <= |m| && |Source(buf, tag, first, first + j)| == CDSECTOR
      && m[addr + j * SECTOR..addr + j * SECTOR + SECTOR] == Part(Source(buf, tag, first, first + j), first + j)
    }

    lemma CopiedStays(m: seq<Byte>, m': seq<Byte>, addr: nat, buf: seq<Byte>, tag: int, first: nat, i: nat)
      requires |m| == |m'| && addr + i * SECTOR <= |m|
      requires forall k :: 0 <= k < addr + i * SECTOR ==> m'[k] == m[k]
      requires forall j :: 0 <= j < i ==> CopiedAt(m, addr, buf, tag, first, j)
      ensures forall j :: 0 <= j < i ==> CopiedAt(m', addr, buf, tag, first, j)
    {
      forall j | 0 <= j < i ensures CopiedAt(m', addr, buf, tag, first, j) {
        assert CopiedAt(m, addr, buf, tag, first, j);
        var x := addr + j * SECTOR;
        assert m'[x..x + SECTOR] == m[x..x + SECTOR];
      }
    }

    // raw_copy out of the buffer.
    method CopySector(memory: array<Byte>, dst: nat, offset: nat)
      requires |cdbuf| == CDSECTOR && offset + SECTOR <= CDSECTOR && dst + SECTOR <= memory.Length
      modifies memory
      ensures memory[dst..dst + SECTOR] == cdbuf[offset..offset + SECTOR]
      ensures forall k :: 0 <= k < memory.Length && !(dst <= k < dst + SECTOR) ==> memory[k] == old(memory[k])
    {
      var j := 0;
      while j < SECTOR
        invariant 0 <= j <= SECTOR
        invariant forall k :: dst <= k < dst + j ==> memory[k] == cdbuf[offset + k - dst]
        invariant forall k :: 0 <= k < memory.Length && !(dst <= k < dst + j) ==> memory[k] == old(memory[k])
      {
        memory[dst + j] := cdbuf[offset + j];
        j := j + 1;
      }
    }
  }

  /** The failure: sector 4a is read, a read of CD sector b fails and leaves something else
      in the buffer, and sector 4a is read again.  Both reads of it succeed, and the second
      gives what the failed read left. */
  method StaleRead(cd: Cd, memory: array<Byte>, a: nat, b: nat) returns (r1: int, r2: int, r3: int)
    requires cd.Exact() && cd.log == [] && memory.Length >= SECTOR && a != b
    requires cd.outcome(0).0 == 0 && cd.outcome(1).0 != 0 && cd.outcome(1).1[..SECTOR] != cd.disc(a)[..SECTOR]
    modifies cd, memory
    ensures r1 == 0 && r2 != 0 && r3 == 0
    ensures memory[..SECTOR] == cd.outcome(1).1[..SECTOR] != Part(cd.disc(a), FACTOR * a)
  {
    r1 := cd.ReadSectors(memory, 0, FACTOR * a, 1);
    r2 := cd.ReadSectors(memory, 0, FACTOR * b, 1);
    assert |cd.log| == 2 && cd.log[..1][0] == cd.log[0] && Tag(cd.log[..1]) == a;
    ghost var left := cd.cdbuf;
    r3 := cd.ReadSectors(memory, 0, FACTOR * a, 1);
    assert cd.CopiedAt(memory[..], 0, left, a, FACTOR * a, 0) && memory[..][0..SECTOR] == memory[..SECTOR];
    assert FACTOR * a % FACTOR == 0;
  }
}
