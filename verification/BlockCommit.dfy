/** bdrv_commit (block.c): the allocated sectors of an overlay image are copied into its backing file, and the
    overlay is emptied. */
module BlockCommit {

  type byte = bv8
  type Sector = seq<byte>

  datatype Option = Unallocated | Allocated(data: Sector)

  const CHUNK := 2048  // COMMIT_BUF_SECTORS
  const EIO := 5

  /** A guest sees the overlay where it is allocated, else the backing file, and zeros behind the end of that. */
  function Seen(overlay: seq<Option>, backing: seq<Sector>, zero: Sector, i: nat): Sector
    requires i < |overlay|
  {
    if overlay[i].Allocated? then overlay[i].data else if i < |backing| then backing[i] else zero
  }

  ghost predicate SameSeen(o1: seq<Option>, b1: seq<Sector>, o2: seq<Option>, b2: seq<Sector>, zero: Sector) {
    |o2| == |o1| && forall i :: 0 <= i < |o1| ==> Seen(o2, b2, zero, i) == Seen(o1, b1, zero, i)
  }

  /** The sectors before `end` that the overlay holds are in the backing file as well. */
  ghost predicate Copied(overlay: seq<Option>, backing: seq<Sector>, end: nat)
    requires end <= |overlay|
  {
    forall i :: 0 <= i < end && overlay[i].Allocated? ==> i < |backing| && backing[i] == overlay[i].data
  }

  /** Only sectors that the overlay holds are touched. */
  ghost predicate Behind(overlay: seq<Option>, b1: seq<Sector>, b2: seq<Sector>) {
    |b2| == |b1| && forall i :: 0 <= i < |b1| && b2[i] != b1[i] ==> i < |overlay| && overlay[i].Allocated?
  }

  /** What is behind the overlay cannot be seen. */
  lemma BehindIsUnseen(overlay: seq<Option>, b1: seq<Sector>, b2: seq<Sector>, zero: Sector)
    requires Behind(overlay, b1, b2)
    ensures SameSeen(overlay, b1, overlay, b2, zero)
  {
    forall i | 0 <= i < |overlay| ensures Seen(overlay, b2, zero, i) == Seen(overlay, b1, zero, i) {
      assert i < |b1| && b2[i] != b1[i] ==> overlay[i].Allocated?;
    }
  }

  /** Dropping sectors that have been copied changes nothing that a guest can see. */
  lemma DropKeepsSeen(overlay: seq<Option>, left: seq<Option>, backing: seq<Sector>, zero: Sector)
    requires |left| == |overlay| && Copied(overlay, backing, |overlay|)
    requires forall i :: 0 <= i < |overlay| ==> left[i] == overlay[i] || left[i] == Unallocated
    ensures SameSeen(overlay, backing, left, backing, zero)
  {
    forall i | 0 <= i < |overlay| ensures Seen(left, backing, zero, i) == Seen(overlay, backing, zero, i) {
      assert overlay[i].Allocated? ==> i < |backing| && backing[i] == overlay[i].data;
    }
  }

  class Image {
    var overlay: seq<Option>
    var backing: seq<Sector>
    const zero: Sector
    const canEmpty: bool  // the driver has bdrv_make_empty

    constructor (o: seq<Option>, b: seq<Sector>, z: Sector, e: bool)
      ensures overlay == o && backing == b && zero == z && canEmpty == e
    {
      overlay, backing, zero, canEmpty := o, b, z, e;
    }

    /** bdrv_is_allocated: the state of the sector, and how many from there on, at most CHUNK, share it. The driver
        may stop anywhere before the end of such a run. */
    method IsAllocated(sector: nat) returns (held: bool, n: nat)
      requires sector < |overlay|
      ensures 1 <= n <= CHUNK && sector + n <= |overlay|
      ensures forall i :: sector <= i < sector + n ==> overlay[i].Allocated? == held
    {
      held, n := overlay[sector].Allocated?, 1;
      var stop: bool := *;
      while n < CHUNK && sector + n < |overlay| && overlay[sector + n].Allocated? == held && !stop
        invariant 1 <= n <= CHUNK && sector + n <= |overlay|
        invariant forall i :: sector <= i < sector + n ==> overlay[i].Allocated? == held
      {
        n := n + 1;
        stop := *;
      }
    }

    /** bdrv_read of the overlay. */
    method Read(sector: nat, n: nat) returns (ret: int, buf: seq<Sector>)
      requires sector + n <= |overlay|
      ensures ret == 0 ==> |buf| == n && forall i :: 0 <= i < n ==> buf[i] == Seen(overlay, backing, zero, sector + i)
    {
      ret := *;
      var o, b, z := overlay, backing, zero;
      buf := seq(n, i requires 0 <= i < n => Seen(o, b, z, sector + i));
    }

    /** bdrv_write of the backing file. A write that fails may have changed the sectors it was for in any way. */
    method WriteBacking(sector: nat, buf: seq<Sector>) returns (ret: int)
      modifies this`backing
      ensures |backing| == |old(backing)|
      ensures forall i :: 0 <= i < |backing| && !(sector <= i < sector + |buf|) ==> backing[i] == old(backing)[i]
      ensures ret == 0 ==> sector + |buf| <= |backing| && forall i :: 0 <= i < |buf| ==> backing[sector + i] == buf[i]
    {
      if sector + |buf| > |backing| { return -EIO; }
      ret := *;
      var reached: seq<Sector> := *;
      var now := if ret != 0 && |reached| == |buf| then reached else buf;
      backing := backing[..sector] + now + backing[sector + |buf|..];
    }

    /** One turn of the loop: a run of allocated sectors is copied. */
    method CopyRun(sector: nat, n: nat) returns (ret: int)
      requires sector + n <= |overlay| && Copied(overlay, backing, sector)
      requires forall i :: sector <= i < sector + n ==> overlay[i].Allocated?
      modifies this`backing
      ensures Behind(overlay, old(backing), backing) && SameSeen(overlay, old(backing), overlay, backing, zero)
      ensures ret == 0 || ret == -EIO
      ensures ret == 0 ==> Copied(overlay, backing, sector + n)
    {
      var r, buf := Read(sector, n);
      if r != 0 { return -EIO; }
      r := WriteBacking(sector, buf);
      BehindIsUnseen(overlay, old(backing), backing, zero);
      if r != 0 { return -EIO; }
      forall i | sector <= i < sector + n
        ensures backing[i] == overlay[i].data
      {
        assert backing[sector + (i - sector)] == buf[i - sector];
      }
      return 0;
    }

    /** bdrv_make_empty of the driver. A failure may leave it half done. */
    method MakeEmpty() returns (ret: int)
      modifies this`overlay
      ensures |overlay| == |old(overlay)|
      ensures forall i :: 0 <= i < |overlay| ==> overlay[i] == old(overlay)[i] || overlay[i] == Unallocated
      ensures ret == 0 ==> forall i :: 0 <= i < |overlay| ==> overlay[i] == Unallocated
    {
      ret := *;
      var kept: set<int> := *;
      var o, failed := overlay, ret != 0;
      overlay := seq(|o|, i requires 0 <= i < |o| => if failed && i in kept then o[i] else Unallocated);
    }

    /** The copy loop of bdrv_commit. */
    method CopyAll() returns (ret: int)
      modifies this`backing
      ensures Behind(overlay, old(backing), backing) && SameSeen(overlay, old(backing), overlay, backing, zero)
      ensures ret == 0 || ret == -EIO
      ensures ret == 0 ==> Copied(overlay, backing, |overlay|)
    {
      var sector := 0;
      while sector < |overlay|
        invariant 0 <= sector <= |overlay| && overlay == old(overlay)
        invariant Copied(overlay, backing, sector) && Behind(overlay, old(backing), backing)
        invariant SameSeen(overlay, old(backing), overlay, backing, zero)
      {
        var held, n := IsAllocated(sector);
        if held {
          ret := CopyRun(sector, n);
          if ret != 0 { return; }
        }
        sector := sector + n;
      }
      return 0;
    }

    /** bdrv_commit: what a guest sees never changes, whether the commit succeeds, fails half way or cannot empty the
        overlay; after a success the backing file alone shows it. */
    method Commit() returns (ret: int)
      modifies this
      ensures SameSeen(old(overlay), old(backing), overlay, backing, zero)
      ensures ret == 0 && canEmpty ==> forall i :: 0 <= i < |overlay| ==> overlay[i] == Unallocated
      ensures ret == 0 ==> Copied(old(overlay), backing, |old(overlay)|)
    {
      ret := CopyAll();
      if ret == 0 && canEmpty {
        ghost var full := overlay;
        ret := MakeEmpty();
        DropKeepsSeen(full, overlay, backing, zero);
      }
    }
  }
}
