/** Byte-granular I/O on top of whole sectors (block.c, bdrv_pread and bdrv_pwrite). */
module BlockIo {

  type byte = bv8

  const SECTOR := 512
  const EIO := 5

  /** Each byte of the disk is as it was, or is the one of `data`, which belongs at `offset`. */
  predicate Mixed(was: seq<byte>, now: seq<byte>, offset: int, data: seq<byte>) {
    && |now| == |was|
    && forall i :: 0 <= i < |was| ==> now[i] == was[i] || (0 <= i - offset < |data| && now[i] == data[i - offset])
  }

  /** The first k bytes of `data` are at `offset`. */
  predicate Placed(disk: seq<byte>, offset: int, data: seq<byte>, k: nat)
    requires k <= |data|
  {
    k > 0 ==> 0 <= offset && offset + k <= |disk| && forall i :: 0 <= i < k ==> disk[offset + i] == data[i]
  }

  /** The next part of `data` goes right behind the first k bytes. */
  lemma PlaceNext(was: seq<byte>, mid: seq<byte>, now: seq<byte>, offset: int, data: seq<byte>, k: nat, m: nat)
    requires k + m <= |data| && Mixed(was, mid, offset, data) && Placed(mid, offset, data, k)
    requires Mixed(mid, now, offset + k, data[k..k + m])
    ensures Mixed(was, now, offset, data) && Placed(now, offset, data, k)
    ensures Placed(now, offset + k, data[k..k + m], m) && m > 0 && (k > 0 || offset >= 0) ==>
            Placed(now, offset, data, k + m)
  {
    forall i | 0 <= i < |was| ensures now[i] == was[i] || (0 <= i - offset < |data| && now[i] == data[i - offset]) {
      assert mid[i] == was[i] || mid[i] == data[i - offset];
    }
    if k > 0 {
      forall i | 0 <= i < k ensures now[offset + i] == data[i] { assert mid[offset + i] == data[i]; }
    }
    if Placed(now, offset + k, data[k..k + m], m) && m > 0 && (k > 0 || offset >= 0) {
      forall i | k <= i < k + m
        ensures now[offset + i] == data[i]
      {
        assert now[offset + k + (i - k)] == data[k..k + m][i - k];
      }
    }
  }

  /** A block device of fixed size. A faulty one may fail any request, and a failed write may have reached any
      part of the sectors it was for. */
  class Device {
    const faulty: bool
    const disk: array<byte>

    ghost predicate Valid() { disk.Length % SECTOR == 0 }

    predicate Fits(offset: int, count: nat) { 0 <= offset && offset + count <= disk.Length }

    constructor (size: nat, mayFail: bool)
      ensures Valid() && fresh(disk) && disk.Length == size * SECTOR && faulty == mayFail
    {
      faulty := mayFail;
      disk := new byte[size * SECTOR];
    }

    /** bdrv_read */
    method Read(sector: int, n: nat) returns (ret: int, buf: seq<byte>)
      ensures ret <= 0
      ensures ret == 0 ==>
              Fits(sector * SECTOR, n * SECTOR) && buf == disk[sector * SECTOR..sector * SECTOR + n * SECTOR]
      ensures !faulty ==> (ret == 0 <==> Fits(sector * SECTOR, n * SECTOR))
    {
      var e: int := *;
      if !Fits(sector * SECTOR, n * SECTOR) { return -EIO, []; }
      if faulty && e < 0 { return e, []; }
      return 0, disk[sector * SECTOR..sector * SECTOR + n * SECTOR];
    }

    /** bdrv_write */
    method Write(sector: int, n: nat, buf: seq<byte>) returns (ret: int)
      requires |buf| == n * SECTOR
      modifies disk
      ensures ret <= 0 && (ret == 0 ==> Fits(sector * SECTOR, |buf|) && Placed(disk[..], sector * SECTOR, buf, |buf|))
      ensures !faulty ==> (ret == 0 <==> Fits(sector * SECTOR, |buf|))
      ensures Mixed(old(disk[..]), disk[..], sector * SECTOR, buf)
    {
      var e: int := *;
      if !Fits(sector * SECTOR, |buf|) { return -EIO; }
      if faulty && e < 0 {
        var reached: set<int> := *;
        forall i | 0 <= i < |buf| && i in reached { disk[sector * SECTOR + i] := buf[i]; }
        return e;
      }
      forall i | 0 <= i < |buf| { disk[sector * SECTOR + i] := buf[i]; }
      return 0;
    }

    /** Reads part of one sector. */
    method ReadWithin(sector: int, from: nat, len: nat) returns (ret: int, buf: seq<byte>)
      requires Valid() && 0 < len && from + len <= SECTOR
      ensures ret <= 0
      ensures ret == 0 ==>
              Fits(sector * SECTOR + from, len) && buf == disk[sector * SECTOR + from..sector * SECTOR + from + len]
      ensures !faulty ==> (ret == 0 <==> Fits(sector * SECTOR + from, len))
    {
      var r, tmp := Read(sector, 1);
      if r < 0 { return r, []; }
      return 0, tmp[from..from + len];
    }

    /** Reads one sector, changes part of it and writes it back. */
    method WriteWithin(sector: int, from: nat, part: seq<byte>) returns (ret: int)
      requires Valid() && 0 < |part| && from + |part| <= SECTOR
      modifies disk
      ensures ret <= 0 && (ret == 0 ==> Placed(disk[..], sector * SECTOR + from, part, |part|))
      ensures !faulty ==> (ret == 0 <==> Fits(sector * SECTOR + from, |part|))
      ensures Mixed(old(disk[..]), disk[..], sector * SECTOR + from, part)
    {
      var r, tmp := Read(sector, 1);
      if r < 0 { return r; }
      ghost var was := disk[..];
      ghost var base := sector * SECTOR;
      assert forall i :: 0 <= i < SECTOR ==> tmp[i] == was[base + i];
      var patched := tmp[..from] + part + tmp[from + |part|..];
      ret := Write(sector, 1, patched);
      PatchIsPart(was, disk[..], base, tmp, from, part, patched);
    }

    /** The part of bdrv_pread that starts at a sector boundary: whole sectors, then the rest of the last one. */
    method ReadRest(sector: int, count: nat) returns (ret: int, buf: seq<byte>)
      requires Valid()
      ensures ret <= 0
      ensures ret == 0 && count > 0 ==>
              Fits(sector * SECTOR, count) && buf == disk[sector * SECTOR..sector * SECTOR + count]
      ensures !faulty && count > 0 ==> (ret == 0 <==> Fits(sector * SECTOR, count))
      ensures count == 0 ==> ret == 0 && buf == []
    {
      var n, rest := WholeSectors(count);
      ret, buf := 0, [];
      if n > 0 {
        ret, buf := Read(sector, n);
        if ret < 0 { return; }
      }
      if rest > 0 {
        var more;
        ret, more := ReadWithin(sector + n, 0, rest);
        buf := buf + more;
      }
    }

    /** bdrv_pread: the bytes asked for, or an error. */
    method PRead(offset: int, count1: nat) returns (ret: int, buf: seq<byte>)
      requires Valid()
      ensures ret == count1 || ret < 0
      ensures ret == count1 && count1 > 0 ==> Fits(offset, count1) && buf == disk[offset..offset + count1]
      ensures !faulty && count1 > 0 ==> (ret == count1 <==> Fits(offset, count1))
      ensures count1 == 0 ==> ret == 0 && buf == []
    {
      var sector, from, len := FirstPart(offset, count1);
      buf := [];
      if len > 0 {
        ret, buf := ReadWithin(sector, from, len);
        if ret < 0 { return; }
        if len == count1 { return count1, buf; }
        sector := sector + 1;
      }
      var more;
      ret, more := ReadRest(sector, count1 - len);
      if ret < 0 { return; }
      return count1, buf + more;
    }

    /** The whole sectors of bdrv_pwrite, `done` bytes having been written. */
    method WriteWhole(offset: int, buf: seq<byte>, done: nat, sector: int, n: nat, ghost was: seq<byte>)
      returns (ret: int)
      requires Valid() && done + n * SECTOR <= |buf| && offset + done == sector * SECTOR && 0 < n
      requires Mixed(was, disk[..], offset, buf) && Placed(disk[..], offset, buf, done)
      modifies disk
      ensures ret <= 0 && (ret == 0 ==> Placed(disk[..], offset, buf, done + n * SECTOR))
      ensures !faulty ==> (ret == 0 <==> Fits(offset + done, n * SECTOR))
      ensures Mixed(was, disk[..], offset, buf)
    {
      ghost var mid := disk[..];
      ret := Write(sector, n, buf[done..done + n * SECTOR]);
      PlaceNext(was, mid, disk[..], offset, buf, done, n * SECTOR);
    }

    /** A part of one sector in bdrv_pwrite. */
    method WritePart(offset: int, buf: seq<byte>, done: nat, sector: int, from: nat, len: nat, ghost was: seq<byte>)
      returns (ret: int)
      requires Valid() && done + len <= |buf| && offset + done == sector * SECTOR + from && 0 < len &&
               from + len <= SECTOR
      requires Mixed(was, disk[..], offset, buf) && Placed(disk[..], offset, buf, done)
      modifies disk
      ensures ret <= 0 && (ret == 0 ==> Placed(disk[..], offset, buf, done + len))
      ensures !faulty ==> (ret == 0 <==> Fits(offset + done, len))
      ensures Mixed(was, disk[..], offset, buf)
    {
      ghost var mid := disk[..];
      ret := WriteWithin(sector, from, buf[done..done + len]);
      PlaceNext(was, mid, disk[..], offset, buf, done, len);
    }

    /** bdrv_pwrite. Bytes outside the range keep their value whatever fails, and inside it each byte is the old or
        the new one; on success all are new. */
    method PWrite(offset: int, buf: seq<byte>) returns (ret: int)
      requires Valid()
      modifies disk
      ensures ret == |buf| || ret < 0
      ensures ret == |buf| ==> Placed(disk[..], offset, buf, |buf|)
      ensures !faulty && buf != [] ==> (ret == |buf| <==> Fits(offset, |buf|))
      ensures buf == [] ==> ret == 0
      ensures Mixed(old(disk[..]), disk[..], offset, buf)
    {
      ghost var was := disk[..];
      var sector, from, len := FirstPart(offset, |buf|);
      if len > 0 {
        ret := WritePart(offset, buf, 0, sector, from, len, was);
        if ret < 0 { return; }
        if len == |buf| { return |buf|; }
        sector := sector + 1;
      }
      var n, rest := WholeSectors(|buf| - len);
      if n > 0 {
        ret := WriteWhole(offset, buf, len, sector, n, was);
        if ret < 0 { return; }
      }
      if rest > 0 {
        ret := WritePart(offset, buf, len + n * SECTOR, sector + n, 0, rest, was);
        if ret < 0 { return; }
      }
      return |buf|;
    }

    /** What was written is what is read. */
    method WriteThenRead(offset: int, data: seq<byte>) returns (w: int, r: int, back: seq<byte>)
      requires Valid()
      modifies disk
      ensures w == |data| && r == |data| ==> back == data
      ensures !faulty && Fits(offset, |data|) && data != [] ==> w == |data| && r == |data|
    {
      w := PWrite(offset, data);
      r, back := PRead(offset, |data|);
      if w == |data| && r == |data| && data != [] {
        assert forall i :: 0 <= i < |data| ==> back[i] == disk[offset + i] == disk[..][offset + i];
      }
    }
  }

  /** The part before the first sector boundary: it lies in one sector, and what follows it starts the next one. */
  method FirstPart(offset: int, count: nat) returns (sector: int, from: nat, len: nat)
    ensures offset == sector * SECTOR + from && from + len <= SECTOR && len <= count
    ensures 0 < len < count ==> from + len == SECTOR
    ensures len == 0 && count > 0 ==> from == 0
  {
    len := (SECTOR - offset) % SECTOR;
    if len > count { len := count; }
    sector, from := offset / SECTOR, offset % SECTOR;
  }

  method WholeSectors(count: nat) returns (n: nat, rest: nat)
    ensures count == n * SECTOR + rest && rest < SECTOR
  {
    n, rest := count / SECTOR, count % SECTOR;
  }

  lemma PatchIsPart(was: seq<byte>, now: seq<byte>, base: int, tmp: seq<byte>, from: nat, part: seq<byte>,
                    patched: seq<byte>)
    requires |tmp| == SECTOR && from + |part| <= SECTOR && 0 <= base && base + SECTOR <= |was|
    requires patched == tmp[..from] + part + tmp[from + |part|..]
    requires forall i :: 0 <= i < SECTOR ==> tmp[i] == was[base + i]
    requires Mixed(was, now, base, patched)
    ensures Mixed(was, now, base + from, part)
    ensures Placed(now, base, patched, SECTOR) ==> Placed(now, base + from, part, |part|)
  {
    forall i | 0 <= i < |was|
      ensures now[i] == was[i] || (0 <= i - base - from < |part| && now[i] == part[i - base - from])
    {
      if now[i] != was[i] {
        var j := i - base;
        assert now[i] == patched[j] && was[i] == tmp[j];
      }
    }
    if Placed(now, base, patched, SECTOR) {
      forall i | 0 <= i < |part|
        ensures now[base + from + i] == part[i]
      {
        assert now[base + (from + i)] == patched[from + i];
      }
    }
  }
}
