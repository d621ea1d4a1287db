/**
 r_vir2abs: from a block of a file to a block of the disk, through direct, single
 indirect and double indirect zones, with one indirect and one double indirect block
 cached.
 */
module RawFs {
  import BootArith

  // What the superblock says, and how an indirect block reads as zone numbers.
  datatype Disk = Disk(
    blockSize: nat,
    zoneBlocks: nat,         // blocks per zone, 1 << s_log_zone_size
    nrDzones: nat,
    nrIndirects: nat,
    block: nat -> seq<nat>)

  datatype Inode = Inode(size: nat, zone: seq<nat>)

  ghost predicate WellFormed(d: Disk) {
    && d.zoneBlocks > 0 && d.nrIndirects > 0
    && forall b: nat {:trigger d.block(b)} :: |d.block(b)| == d.nrIndirects
  }

  ghost predicate FileOk(d: Disk, f: Inode) {
    |f.zone| >= d.nrDzones + 2
  }

  // Blocks that direct, indirect and double indirect zones can reach.
  predicate InReach(d: Disk, blk: nat)
    requires d.zoneBlocks > 0
  {
    blk / d.zoneBlocks < d.nrDzones + d.nrIndirects + d.nrIndirects * d.nrIndirects
  }

  // ------------------------------------------------------------ without a cache

  // The zone of a file that holds its block blk, 0 for a hole.
  function ZoneOf(d: Disk, f: Inode, blk: nat): (z: nat)
    requires d.zoneBlocks > 0 && d.nrIndirects > 0 && |f.zone| >= d.nrDzones + 2
  {
    ZoneAt(d, f, blk / d.zoneBlocks)
  }

  // Zone n of a file.
  function ZoneAt(d: Disk, f: Inode, n: nat): (z: nat)
    requires d.nrIndirects > 0 && |f.zone| >= d.nrDzones + 2
  {
    if n < d.nrDzones then f.zone[n]
    else
      var (ind, i) := Indirect(d, f, n - d.nrDzones);
      Through(d, ind, i)
  }

  // The indirect zone that lists zone n after the direct ones, 0 when there is none, and the
  // place in it.
  function Indirect(d: Disk, f: Inode, n: nat): (r: (nat, nat))
    requires d.nrIndirects > 0 && |f.zone| >= d.nrDzones + 2
  {
    if n < d.nrIndirects then (f.zone[d.nrDzones], n)
    else
      var m := n - d.nrIndirects;
      (Through(d, f.zone[d.nrDzones + 1], m / d.nrIndirects), m % d.nrIndirects)
  }

  // Entry i of the indirect zone ind, 0 when there is none.
  function Through(d: Disk, ind: nat, i: nat): (z: nat) {
    var b := d.block(ind * d.zoneBlocks);
    if ind == 0 || i >= |b| then 0 else b[i]
  }

  // Where a block is said to be: -1 past the end of the file, 0 for a missing indirect
  // zone, and otherwise a block of the data zone, whether or not that is zone 0.
  function Vir2Abs(d: Disk, f: Inode, blk: nat): (r: int)
    requires d.zoneBlocks > 0 && d.nrIndirects > 0 && |f.zone| >= d.nrDzones + 2
  {
    if d.blockSize == 0 || blk * d.blockSize >= f.size then -1
    else if Unmapped(d, f, blk) then 0
    else ZoneOf(d, f, blk) * d.zoneBlocks + blk % d.zoneBlocks
  }

  // An indirect zone on the way to the block is missing.
  predicate Unmapped(d: Disk, f: Inode, blk: nat)
    requires d.zoneBlocks > 0 && d.nrIndirects > 0 && |f.zone| >= d.nrDzones + 2
  {
    var n := blk / d.zoneBlocks;
    n >= d.nrDzones && Indirect(d, f, n - d.nrDzones).0 == 0
  }

  /** A hole is reported as 0 if and only if an indirect zone is missing too or the block
      is the first of its zone, as every block is when a zone is one block. */
  lemma HoleIsZero(d: Disk, f: Inode, blk: nat)
    requires WellFormed(d) && FileOk(d, f) && d.blockSize > 0 && blk * d.blockSize < f.size
    requires ZoneOf(d, f, blk) == 0
    ensures Vir2Abs(d, f, blk) == 0 <==> Unmapped(d, f, blk) || blk % d.zoneBlocks == 0
    ensures d.zoneBlocks == 1 ==> Vir2Abs(d, f, blk) == 0
  {
  }

  /** With two blocks in a zone, block 1 of a file that is one hole is said to be block 1 of
      the disk. */
  lemma HoleTakenForBlock(d: Disk)
    requires WellFormed(d) && d.zoneBlocks == 2 && d.nrDzones > 0 && d.blockSize > 0
    ensures var f := Inode(2 * d.blockSize, seq(d.nrDzones + 2, _ => 0));
      FileOk(d, f) && ZoneOf(d, f, 1) == 0 && Vir2Abs(d, f, 1) == 1
  {
    var f := Inode(2 * d.blockSize, seq(d.nrDzones + 2, _ => 0));
    assert 1 / d.zoneBlocks == 0 && f.zone[0] == 0;
  }

  /** A block of a zone that exists is never taken for a hole. */
  lemma DataIsNotHole(d: Disk, f: Inode, blk: nat)
    requires WellFormed(d) && FileOk(d, f) && d.blockSize > 0 && blk * d.blockSize < f.size
    requires ZoneOf(d, f, blk) != 0
    ensures Vir2Abs(d, f, blk) > 0 && Vir2Abs(d, f, blk) / d.zoneBlocks == ZoneOf(d, f, blk)
  {
    var z, i := ZoneOf(d, f, blk), blk % d.zoneBlocks;
    assert !Unmapped(d, f, blk);
    assert z * d.zoneBlocks >= d.zoneBlocks;
    BootArith.DivMod(z * d.zoneBlocks + i, z, i, d.zoneBlocks);
  }

  // --------------------------------------------------------------- the zones in order

  // The zones that an indirect zone lists, all holes when there is none.
  function Entries(d: Disk, ind: nat): (r: seq<nat>) {
    if ind == 0 then seq(d.nrIndirects, _ => 0) else d.block(ind * d.zoneBlocks)
  }

  // The zones that several indirect zones list, one after the other.
  function Listed(d: Disk, inds: seq<nat>): (r: seq<nat>) {
    if inds == [] then [] else Entries(d, inds[0]) + Listed(d, inds[1..])
  }

  // All zones of a file in order: the direct ones, those of the indirect zone, and those of
  // each indirect zone that the double indirect one lists.
  function Zones(d: Disk, f: Inode): (r: seq<nat>)
    requires |f.zone| >= d.nrDzones + 2
  {
    f.zone[..d.nrDzones] + Entries(d, f.zone[d.nrDzones]) + Listed(d, Entries(d, f.zone[d.nrDzones + 1]))
  }

  lemma EntriesLength(d: Disk, ind: nat)
    requires WellFormed(d)
    ensures |Entries(d, ind)| == d.nrIndirects
  {
  }

  // Entry b of the a-th indirect zone has a full list for each zone before it.
  lemma {:induction false} ListedAt(d: Disk, inds: seq<nat>, a: nat, b: nat, p: nat)
    requires WellFormed(d) && a < |inds| && b < d.nrIndirects && p == a * d.nrIndirects + b
    ensures p < |Listed(d, inds)| && |Entries(d, inds[a])| == d.nrIndirects
    ensures Listed(d, inds)[p] == Entries(d, inds[a])[b]
    decreases a
  {
    EntriesLength(d, inds[0]);
    EntriesLength(d, inds[a]);
    if a > 0 {
      OneLess(a, d.nrIndirects);
      ListedAt(d, inds[1..], a - 1, b, p - d.nrIndirects);
    }
  }

  lemma OneLess(k: nat, n: nat)
    requires k > 0
    ensures k * n == (k - 1) * n + n && (k - 1) * n >= 0
  {
  }

  /** The zone of a block is the one at its place among all zones of the file. */
  lemma ZoneOfIs(d: Disk, f: Inode, blk: nat)
    requires WellFormed(d) && FileOk(d, f) && InReach(d, blk)
    ensures blk / d.zoneBlocks < |Zones(d, f)| && ZoneOf(d, f, blk) == Zones(d, f)[blk / d.zoneBlocks]
  {
    ZoneAtIs(d, f, blk / d.zoneBlocks, d.nrIndirects * d.nrIndirects);
  }

  lemma ZoneAtIs(d: Disk, f: Inode, k: nat, square: nat)
    requires WellFormed(d) && FileOk(d, f) && square == d.nrIndirects * d.nrIndirects
    requires k < d.nrDzones + d.nrIndirects + square
    ensures k < |Zones(d, f)| && ZoneAt(d, f, k) == Zones(d, f)[k]
  {
    if k < d.nrDzones + d.nrIndirects {
      AmongFirst(d, f, k);
    } else {
      var m := k - d.nrDzones - d.nrIndirects;
      var a, b := Place(m, d.nrIndirects);
      AmongLast(d, f, k, m, a, b);
    }
  }

  lemma Place(m: nat, n: nat) returns (a: nat, b: nat)
    requires n > 0 && m < n * n
    ensures a == m / n && b == m % n && a < n && b < n && m == a * n + b
  {
    a, b := m / n, m % n;
    EntryInRange(m, n);
  }

  lemma AmongFirst(d: Disk, f: Inode, k: nat)
    requires WellFormed(d) && FileOk(d, f) && k < d.nrDzones + d.nrIndirects
    ensures k < |Zones(d, f)|
    ensures Zones(d, f)[k] == if k < d.nrDzones then f.zone[k] else Through(d, f.zone[d.nrDzones], k - d.nrDzones)
  {
    EntriesLength(d, f.zone[d.nrDzones]);
  }

  lemma AmongLast(d: Disk, f: Inode, k: nat, m: nat, a: nat, b: nat)
    requires WellFormed(d) && FileOk(d, f) && k == d.nrDzones + d.nrIndirects + m
    requires a < d.nrIndirects && b < d.nrIndirects && m == a * d.nrIndirects + b
    ensures k < |Zones(d, f)| && Zones(d, f)[k] == Through(d, Through(d, f.zone[d.nrDzones + 1], a), b)
  {
    EntriesLength(d, f.zone[d.nrDzones]);
    InDoubleIndirect(d, f.zone[d.nrDzones + 1], m, a, b);
  }

  lemma InDoubleIndirect(d: Disk, ind: nat, m: nat, a: nat, b: nat)
    requires WellFormed(d) && a < d.nrIndirects && b < d.nrIndirects && m == a * d.nrIndirects + b
    ensures m < |Listed(d, Entries(d, ind))| && Listed(d, Entries(d, ind))[m] == Through(d, Through(d, ind, a), b)
  {
    EntriesLength(d, ind);
    ListedAt(d, Entries(d, ind), a, b, m);
  }

  // ----------------------------------------------------------------- with a cache

  class FileSystem {
    const disk: Disk
    var curfil: Inode
    var indir: seq<nat>
    var dindir: seq<nat>
    var aIndir: nat
    var aDindir: nat

    constructor (disk: Disk, file: Inode)
      requires WellFormed(disk) && FileOk(disk, file)
      ensures Valid() && this.disk == disk && curfil == file
    {
      this.disk, curfil := disk, file;
      indir, dindir, aIndir, aDindir := [], [], 0, 0;
    }

    // The cached blocks are those at the addresses kept with them.
    ghost predicate Valid()
      reads this
    {
      && WellFormed(disk) && FileOk(disk, curfil)
      && (aIndir != 0 ==> indir == disk.block(aIndir)) && (aDindir != 0 ==> dindir == disk.block(aDindir))
    }

    // r_stat: another file, and nothing cached.
    method Stat(file: Inode)
      requires Valid() && FileOk(disk, file)
      modifies this
      ensures Valid() && curfil == file && aIndir == 0 && aDindir == 0
    {
      curfil := file;
      aIndir, aDindir := 0, 0;
    }

    // Entry i of an indirect zone, through the cache.
    method FromIndirect(zone: nat, i: nat) returns (z: nat)
      requires Valid() && zone > 0 && i < disk.nrIndirects
      modifies this`indir, this`aIndir
      ensures Valid() && z == Through(disk, zone, i)
    {
      var a := zone * disk.zoneBlocks;
      if aIndir != a {
        indir := disk.block(a);
        aIndir := a;
      }
      assert a > 0;
      z := indir[i];
    }

    method FromDoubleIndirect(zone: nat, i: nat) returns (z: nat)
      requires Valid() && zone > 0 && i < disk.nrIndirects
      modifies this`dindir, this`aDindir
      ensures Valid() && z == Through(disk, zone, i)
    {
      var a := zone * disk.zoneBlocks;
      if aDindir != a {
        dindir := disk.block(a);
        aDindir := a;
      }
      assert a > 0;
      z := dindir[i];
    }

    // The indirect zone that lists zone n after the direct ones, through the cache.
    method IndirectZone(n: nat) returns (ind: nat, i: nat)
      requires Valid() && n < disk.nrIndirects + disk.nrIndirects * disk.nrIndirects
      modifies this`dindir, this`aDindir
      ensures Valid() && (ind, i) == Indirect(disk, curfil, n) && i < disk.nrIndirects
    {
      if n < disk.nrIndirects {
        return curfil.zone[disk.nrDzones], n;
      }
      var m := n - disk.nrIndirects;
      ind, i := curfil.zone[disk.nrDzones + 1], m % disk.nrIndirects;
      if ind != 0 {
        EntryInRange(m, disk.nrIndirects);
        ind := FromDoubleIndirect(ind, m / disk.nrIndirects);
      }
    }

    // r_vir2abs
    method RVir2Abs(blk: nat) returns (r: int)
      requires Valid() && InReach(disk, blk)
      modifies this`indir, this`dindir, this`aIndir, this`aDindir
      ensures Valid() && r == Vir2Abs(disk, curfil, blk)
    {
      if disk.blockSize == 0 || blk * disk.blockSize >= curfil.size {
        return -1;
      }
      var zone, index := blk / disk.zoneBlocks, blk % disk.zoneBlocks;
      if zone < disk.nrDzones {
        return curfil.zone[zone] * disk.zoneBlocks + index;
      }
      var ind, i := IndirectZone(zone - disk.nrDzones);
      if ind == 0 {
        return 0;
      }
      zone := FromIndirect(ind, i);
      r := zone * disk.zoneBlocks + index;
    }
  }

  lemma EntryInRange(n: nat, k: nat)
    requires k > 0 && n < k * k
    ensures n / k < k
  {
    assert (n / k - k) * k == n / k * k - k * k < 0;
    NegativeProduct(n / k - k, k);
  }

  lemma NegativeProduct(d: int, k: int)
    requires k > 0 && d * k < 0
    ensures d < 0
  {
  }
}
