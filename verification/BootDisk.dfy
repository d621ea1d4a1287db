/**
 The image behind the caches: a file of the file system, found through r_vir2abs, read
 through the track buffer, and loaded.  On a disk without read errors the programs in memory
 are those that were packed into the file.
 */
module BootDisk {
  import opened Options
  import opened BootArith
  import Image
  import Loader
  import BootLayout
  import RawFs
  import TrackBuffer

  // ------------------------------------------------------------------ file_vir2sec

  // The file system was recognised, and a block is made of whole sectors.
  ghost predicate Usable(d: RawFs.Disk, f: RawFs.Inode) {
    RawFs.WellFormed(d) && RawFs.FileOk(d, f) && d.blockSize % SECTOR == 0
  }

  // Where sector v of a file is, on a disk whose partition starts at sector low: 0 for a
  // hole.
  function FileSector(d: RawFs.Disk, f: RawFs.Inode, low: nat, v: nat): (s: int)
    requires d.zoneBlocks > 0 && d.nrIndirects > 0 && |f.zone| >= d.nrDzones + 2
  {
    var ratio := d.blockSize / SECTOR;
    if d.blockSize == 0 || ratio == 0 then TrackBuffer.ERROR
    else
      var blk := RawFs.Vir2Abs(d, f, v / ratio);
      if blk == -1 then TrackBuffer.ERROR else if blk == 0 then 0 else low + blk * ratio + v % ratio
  }

  // file_vir2sec
  method FileVir2Sec(fs: RawFs.FileSystem, low: nat, v: nat) returns (s: int)
    requires fs.Valid() && fs.disk.blockSize % SECTOR == 0
    requires fs.disk.blockSize > 0 ==> RawFs.InReach(fs.disk, v / (fs.disk.blockSize / SECTOR))
    modifies fs`indir, fs`dindir, fs`aIndir, fs`aDindir
    ensures fs.Valid() && s == FileSector(fs.disk, fs.curfil, low, v)
  {
    if fs.disk.blockSize == 0 {
      return TrackBuffer.ERROR;
    }
    var ratio := fs.disk.blockSize / SECTOR;
    var blk := fs.RVir2Abs(v / ratio);
    s := if blk == -1 then TrackBuffer.ERROR else if blk == 0 then 0 else low + blk * ratio + v % ratio;
  }

  // More sectors than a file has.
  function Bound(d: RawFs.Disk, f: RawFs.Inode): (n: nat) {
    f.size * d.blockSize
  }

  // Past the last block of the file there is nothing.
  lemma FileEnds(d: RawFs.Disk, f: RawFs.Inode, low: nat, v: nat)
    requires Usable(d, f) && v >= Bound(d, f)
    ensures FileSector(d, f, low, v) == TrackBuffer.ERROR
  {
    var ratio := d.blockSize / SECTOR;
    if d.blockSize > 0 {
      Blocks(v, ratio, f.size, d.blockSize);
    }
  }

  lemma Blocks(v: nat, ratio: nat, size: nat, bs: nat)
    requires ratio > 0 && bs >= ratio && v >= size * bs
    ensures v / ratio * bs >= size
  {
    var q := v / ratio;
    assert v == q * ratio + v % ratio && (q + 1) * ratio == q * ratio + ratio;
    if q < size {
      Product(q + 1, size, ratio, bs);
    }
    Product(q, q, 1, bs);
  }

  lemma Product(a: nat, b: nat, c: nat, d: nat)
    requires a <= b && c <= d
    ensures a * c <= b * d
  {
    assert a * c <= a * d;
    assert a * d <= b * d;
  }

  // ---------------------------------------------------------------- the track buffer

  // What get_sector returns when nothing goes wrong.
  function OnDisk(r: TrackBuffer.Reader, v: nat): (s: Option<seq<Byte>>) {
    if r.vir2sec(v) == TrackBuffer.ERROR then None else Some(r.Plain(v))
  }

  // No read fails.
  ghost predicate Faultless(r: TrackBuffer.Reader) {
    forall s, n: nat {:trigger r.readable(s, n)} :: r.readable(s, n)
  }

  /** However the sectors were read before, get_sector returns the sector on the disk. */
  method Fetch(r: TrackBuffer.Reader, v: nat) returns (s: Option<seq<Byte>>)
    requires r.Valid() && Faultless(r)
    modifies r`count, r`bufsec, r.buf
    ensures r.Valid() && s == OnDisk(r, v)
  {
    var off := r.GetSector(v);
    s := if off < 0 then None else Some(r.buf[off..off + SECTOR]);
  }

  // The sectors of the file hold an image, with no header behind it.
  ghost predicate Stores(r: TrackBuffer.Reader, image: seq<Byte>) {
    && (forall v: nat {:trigger OnDisk(r, v)} :: BootLayout.SectorOf(image, v).Some? ==>
          OnDisk(r, v) == BootLayout.SectorOf(image, v))
    && (forall v: nat {:trigger OnDisk(r, v)} :: v * SECTOR >= |image| && OnDisk(r, v).Some? ==>
          BootLayout.Parsed(OnDisk(r, v).value).None?)
  }

  // The track buffer reads the file.
  ghost predicate ReadsFile(r: TrackBuffer.Reader, d: RawFs.Disk, f: RawFs.Inode, low: nat) {
    Usable(d, f) && forall v: nat {:trigger r.vir2sec(v)} :: r.vir2sec(v) == FileSector(d, f, low, v)
  }

  /** Booting from a file: if loading succeeds, the processes are the selected ones of the
      programs that were packed, and in memory that is not overlapped each has its text and
      data where its segments start. */
  method BootFile(r: TrackBuffer.Reader, memory: array<Byte>, click: int, flags: Loader.Flags, chosen: seq<Byte> -> bool,
                  ghost d: RawFs.Disk, ghost f: RawFs.Inode, ghost low: nat, ghost ps: seq<Image.File>,
                  size: nat, base0: nat, limit0: nat, base1: nat, limit1: nat)
    returns (l: Loader.ImageLoader, ok: bool, procs: seq<Loader.Process>, ghost spans: seq<Loader.Span>)
    requires r.Valid() && ReadsFile(r, d, f, low) && LegalClick(click)
    requires BootLayout.AllBootable(ps) && Image.AllExecutable(ps) && Stores(r, Image.PackedAll(ps))
    requires size * SECTOR >= |Image.PackedAll(ps)|
    requires base1 % click == 0 && base0 <= Loader.MAX_LIMIT && base1 + click < TWO32
    requires limit0 <= memory.Length && limit1 <= memory.Length && limit0 <= Loader.MAX_LIMIT && limit1 <= Loader.MAX_LIMIT
    modifies memory
    ensures fresh(l) && l.memory == memory && l.click == click && l.flags == flags && l.chosen == chosen
    ensures forall v: nat :: l.sector(v) == OnDisk(r, v)
    ensures ok ==>
      size * SECTOR == |Image.PackedAll(ps)| && BootLayout.Booted(l, BootLayout.ProgramsOf(ps), procs, spans, base0, base1)
    ensures ok && Loader.Apart(l.flags.high, base0, limit0, base1, limit1) && Loader.Roomy(spans) ==>
      forall k, i :: 0 <= k < |spans| && 0 <= i < |ps| ==>
        BootLayout.InPlaceAt(l, l.memory[..], BootLayout.ProgramsOf(ps), spans, k, i)
  {
    l := OpenFile(r, memory, click, flags, chosen, d, f, low, Image.PackedAll(ps));
    ok, procs, spans := BootLayout.BootPacked(l, ps, size, base0, limit0, base1, limit1, Bound(d, f));
  }

  // A loader that reads the file.
  method OpenFile(r: TrackBuffer.Reader, memory: array<Byte>, click: int, flags: Loader.Flags, chosen: seq<Byte> -> bool,
                  ghost d: RawFs.Disk, ghost f: RawFs.Inode, ghost low: nat, ghost image: seq<Byte>)
    returns (l: Loader.ImageLoader)
    requires ReadsFile(r, d, f, low) && Stores(r, image) && forall s :: |r.disk(s)| == SECTOR
    ensures fresh(l) && l.memory == memory && l.click == click && l.flags == flags && l.chosen == chosen
    ensures forall v: nat :: l.sector(v) == OnDisk(r, v)
    ensures BootLayout.Parses(l) && BootLayout.Reads(l, image) && BootLayout.EndsAt(l, image)
    ensures BootLayout.Sized(l, Bound(d, f))
  {
    l := new Loader.ImageLoader(memory, click, flags, (v: nat) => OnDisk(r, v), BootLayout.Parsed, chosen);
    DiskReads(r, l, image);
    DiskEnds(r, l, d, f, low);
  }

  lemma DiskReads(r: TrackBuffer.Reader, l: Loader.ImageLoader, image: seq<Byte>)
    requires Stores(r, image) && (forall v: nat {:trigger l.sector(v)} :: l.sector(v) == OnDisk(r, v))
    requires BootLayout.Parses(l)
    ensures BootLayout.Reads(l, image) && BootLayout.EndsAt(l, image)
  {
    forall v: nat | v * SECTOR >= |image| ensures l.HeaderAt(v).None? {
      assert l.sector(v) == OnDisk(r, v);
    }
  }

  lemma DiskEnds(r: TrackBuffer.Reader, l: Loader.ImageLoader, d: RawFs.Disk, f: RawFs.Inode, low: nat)
    requires ReadsFile(r, d, f, low) && (forall s :: |r.disk(s)| == SECTOR)
    requires forall v: nat {:trigger l.sector(v)} :: l.sector(v) == OnDisk(r, v)
    ensures BootLayout.Sized(l, Bound(d, f))
  {
    forall v: nat | l.sector(v).Some? ensures v < Bound(d, f) && |l.sector(v).value| == SECTOR {
      assert r.vir2sec(v) == FileSector(d, f, low, v);
      if v >= Bound(d, f) {
        FileEnds(d, f, low, v);
      }
    }
  }
}
