/**
 get_sector: the image is read through a buffer of up to sixteen consecutive disk
 sectors.  On a disk that does not change every call returns the sector itself, or zeros
 for a hole.
 */
module TrackBuffer {
  import opened BootArith

  const SECBUFS := 16
  const ERROR := 0xFFFF_FFFF      // (u32_t) -1

  class Reader {
    const vir2sec: nat -> int                // where a sector of the image is: 0 for a hole
    const disk: int -> seq<Byte>
    const boundary: int -> bool              // dev_boundary
    const readable: (int, nat) -> bool       // whether readsectors succeeds

    const buf: array<Byte>
    var count: nat
    var bufsec: int

    // Before the first call nothing is buffered.
    constructor (vir2sec: nat -> int, disk: int -> seq<Byte>, boundary: int -> bool, readable: (int, nat) -> bool)
      requires forall v: nat :: 0 <= vir2sec(v) < TWO32 - 2 * SECBUFS || vir2sec(v) == ERROR
      requires forall s :: |disk(s)| == SECTOR
      ensures Valid() && fresh(buf)
      ensures this.vir2sec == vir2sec && this.disk == disk && this.boundary == boundary && this.readable == readable
    {
      this.vir2sec, this.disk, this.boundary, this.readable := vir2sec, disk, boundary, readable;
      buf := new Byte[SECBUFS * SECTOR](_ => 0);
      count, bufsec := 0, 0;
    }

    // Byte k of the disk from sector s on.
    ghost function DiskByte(s: int, k: nat): (b: int)
    {
      if k % SECTOR < |disk(s + k / SECTOR)| then disk(s + k / SECTOR)[k % SECTOR] else 0
    }

    // The buffer holds count sectors of the disk from bufsec on.
    ghost predicate Valid()
      reads this, buf
    {
      && (forall v: nat :: 0 <= vir2sec(v) < TWO32 - 2 * SECBUFS || vir2sec(v) == ERROR)
      && (forall s :: |disk(s)| == SECTOR)
      && buf.Length == SECBUFS * SECTOR && count <= SECBUFS && 0 <= bufsec < TWO32 - 2 * SECBUFS
      && forall k :: 0 <= k < count * SECTOR ==> buf[k] == DiskByte(bufsec, k)
    }

    // What a caller must find: sector vsec of the image.
    function Plain(vsec: nat): (r: seq<Byte>)
    {
      if vir2sec(vsec) == 0 then seq(SECTOR, _ => 0) else disk(vir2sec(vsec))
    }

    // readsectors into the buffer.
    method ReadSectors(first: int, n: nat) returns (ok: bool)
      requires n <= SECBUFS && buf.Length == SECBUFS * SECTOR && forall s :: |disk(s)| == SECTOR
      modifies buf
      ensures ok == readable(first, n)
      ensures ok ==> forall k :: 0 <= k < n * SECTOR ==> buf[k] == DiskByte(first, k)
    {
      ok := readable(first, n);
      if ok {
        var k := 0;
        while k < n * SECTOR
          invariant 0 <= k <= n * SECTOR
          invariant forall j :: 0 <= j < k ==> buf[j] == DiskByte(first, j)
        {
          buf[k] := disk(first + k / SECTOR)[k % SECTOR];
          k := k + 1;
        }
      }
    }

    // The next sector of the image that is not read along with sec, when n are.
    predicate StopsAt(vsec: nat, sec: int, n: nat)
    {
      n == SECBUFS || boundary(sec + n) || vir2sec(vsec + n) == ERROR || vir2sec(vsec + n) != sec + n
    }

    // How many sectors from sec on are read: consecutive ones of the image, within a track.
    function Ahead(vsec: nat, sec: int, n: nat): (r: nat)
      requires 1 <= n <= SECBUFS
      ensures n <= r <= SECBUFS && StopsAt(vsec, sec, r)
      ensures forall k: nat :: n <= k < r ==> !StopsAt(vsec, sec, k)
      decreases SECBUFS - n
    {
      if StopsAt(vsec, sec, n) then n else Ahead(vsec, sec, n + 1)
    }

    method ReadAhead(vsec0: nat, sec0: int) returns (n: nat)
      ensures n == Ahead(vsec0, sec0, 1) && 1 <= n <= SECBUFS
    {
      var vsec := vsec0;
      n := 1;
      while n < SECBUFS && !boundary(sec0 + n)
        invariant 1 <= n <= SECBUFS && vsec == vsec0 + n - 1 && Ahead(vsec0, sec0, 1) == Ahead(vsec0, sec0, n)
        decreases SECBUFS - n
      {
        vsec := vsec + 1;
        var sec := vir2sec(vsec);
        if sec == ERROR || sec != sec0 + n {
          return;
        }
        n := n + 1;
      }
    }

    // The sector is in the buffer; the first sector of the image empties it.
    predicate Buffered(vsec: nat)
      reads this
    {
      vsec > 0 && bufsec <= vir2sec(vsec) < bufsec + count
    }

    // The sector at offset off of the buffer, off < 0 on error.  It fails exactly when the
    // sector cannot be located, or is not buffered and cannot be read with those behind it.
    method GetSector(vsec: nat) returns (off: int)
      requires Valid()
      modifies this`count, this`bufsec, buf
      ensures Valid()
      ensures var sec := vir2sec(vsec);
        off < 0 <==> sec == ERROR || (sec != 0 && !old(Buffered(vsec)) && !readable(sec, Ahead(vsec, sec, 1)))
      ensures off >= 0 ==> off + SECTOR <= buf.Length && buf[off..off + SECTOR] == Plain(vsec)
    {
      if vsec == 0 {
        count := 0;
      }
      var sec := vir2sec(vsec);
      if sec == ERROR {
        return -1;
      }
      if sec == 0 {
        count := 0;
        ClearFirst();
        return 0;
      }
      if (sec - bufsec) % TWO32 < count {
        off := (sec - bufsec) * SECTOR;
        InBuffer(bufsec, sec);
        return;
      }
      var ok := ReadTrack(vsec, sec);
      off := if ok then 0 else -1;
    }

    // The sector is not in the buffer: read it, and those behind it.
    method ReadTrack(vsec: nat, sec: int) returns (ok: bool)
      requires Valid() && 0 <= sec < TWO32 - 2 * SECBUFS
      modifies this`count, this`bufsec, buf
      ensures Valid() && ok == readable(sec, Ahead(vsec, sec, 1))
      ensures ok ==> buf[0..SECTOR] == disk(sec)
    {
      var n := ReadAhead(vsec, sec);
      count, bufsec := 0, sec;
      ok := ReadSectors(sec, n);
      if ok {
        count := n;
        InBuffer(bufsec, sec);
      }
    }

    // memset of the first sector.
    method ClearFirst()
      requires buf.Length == SECBUFS * SECTOR
      modifies buf
      ensures buf[0..SECTOR] == seq(SECTOR, _ => 0)
    {
      var k := 0;
      while k < SECTOR
        invariant 0 <= k <= SECTOR && forall j :: 0 <= j < k ==> buf[j] == 0
      {
        buf[k] := 0;
        k := k + 1;
      }
    }

    // A buffered sector is where its distance from the first one says.
    lemma InBuffer(first: int, sec: int)
      requires Valid() && first == bufsec && (sec - first) % TWO32 < count && 0 <= sec < TWO32 - 2 * SECBUFS
      ensures 0 <= sec - first < count
      ensures buf[(sec - first) * SECTOR..(sec - first) * SECTOR + SECTOR] == disk(sec)
    {
      assert sec >= first;
      var off := (sec - first) * SECTOR;
      forall j | 0 <= j < SECTOR ensures buf[off + j] == disk(sec)[j] {
        assert (off + j) / SECTOR == sec - first && (off + j) % SECTOR == j;
        assert buf[off + j] == DiskByte(first, off + j);
      }
    }
  }
}
