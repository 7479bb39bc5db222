/** multiwrite_merge (block.c): write requests sorted by start sector are combined where they touch, or
    where the driver approves a gap, which is filled with zeros. The meaning of a list of requests is what
    each byte of the disk holds after they have been written in order. */
module Multiwrite {

  const SECTOR: nat := 512

  const IOV_MAX: nat := 1024

  type Byte = int

  /** A BlockRequest; the qiov is its list of buffers. */
  datatype Req = Req(sector: nat, nb: nat, qiov: seq<seq<Byte>>)

  function Flat(q: seq<seq<Byte>>): seq<Byte> { if q == [] then [] else q[0] + Flat(q[1..]) }

  /** The buffers hold as many bytes as the request has sectors. */
  predicate Sound(r: Req) { |Flat(r.qiov)| == SECTOR * r.nb }

  predicate AllSound(s: seq<Req>) { forall r :: r in s ==> Sound(r) }

  function End(r: Req): nat { r.sector + r.nb }

  // ---------------------------------------------------------------- merging two requests

  /** qemu_iovec_concat: the first `size` bytes of the buffers. Empty buffers are skipped. */
  function Concat(q: seq<seq<Byte>>, size: nat): seq<seq<Byte>>
    decreases |q|
  {
    if q == [] || size == 0 then []
    else if q[0] == [] then Concat(q[1..], size)
    else if |q[0]| > size then [q[0][..size]]
    else [q[0]] + Concat(q[1..], size - |q[0]|)
  }

  lemma {:induction false} ConcatIs(q: seq<seq<Byte>>, size: nat)
    ensures Flat(Concat(q, size)) == if size <= |Flat(q)| then Flat(q)[..size] else Flat(q)
    ensures |Concat(q, size)| <= |q|
    decreases |q|
  {
    if q == [] || size == 0 {
    } else if q[0] == [] {
      ConcatIs(q[1..], size);
      assert Flat(q) == Flat(q[1..]);
    } else if |q[0]| > size {
      FlatOne(q[0][..size]);
    } else {
      var c := Concat(q[1..], size - |q[0]|);
      ConcatIs(q[1..], size - |q[0]|);
      assert ([q[0]] + c)[1..] == c;
    }
  }

  lemma FlatOne(x: seq<Byte>)
    ensures Flat([x]) == x
  {
    assert [x][1..] == [];
  }

  lemma {:induction false} FlatConcat(x: seq<seq<Byte>>, y: seq<seq<Byte>>)
    ensures Flat(x + y) == Flat(x) + Flat(y)
    decreases |x|
  {
    if x == [] {
      assert x + y == y;
    } else {
      assert (x + y)[1..] == x[1..] + y;
      FlatConcat(x[1..], y);
    }
  }

  /** n bytes. */
  function Zeros(n: nat): seq<Byte> { seq(n, _ => 0) }

  /** The buffers of the merged request: the first request up to the start of the second, zeros for a gap,
      then the second. */
  function MergedIov(a: Req, b: Req): seq<seq<Byte>>
    requires a.sector <= b.sector
  {
    Concat(a.qiov, SECTOR * (b.sector - a.sector))
    + (if b.sector > End(a) then [Zeros(SECTOR * (b.sector - End(a)))] else [])
    + Concat(b.qiov, |Flat(b.qiov)|)
  }

  function Merged(a: Req, b: Req): Req
    requires a.sector <= b.sector
  {
    Req(a.sector, |Flat(MergedIov(a, b))| / SECTOR, MergedIov(a, b))
  }

  /** The tests of multiwrite_merge; approve is the driver's bdrv_merge_requests, or constantly false. */
  predicate Merges(approve: (Req, Req) -> bool, a: Req, b: Req) {
    (b.sector <= End(a) || approve(a, b)) && |a.qiov| + |b.qiov| + 1 <= IOV_MAX
  }

  /** The bytes of the merged request. */
  lemma MergedBytes(a: Req, b: Req)
    requires Sound(a) && Sound(b) && a.sector <= b.sector
    ensures Sound(Merged(a, b)) && End(Merged(a, b)) == End(b)
    ensures Flat(Merged(a, b).qiov) ==
            (if b.sector > End(a) then Flat(a.qiov) + Zeros(SECTOR * (b.sector - End(a)))
             else Flat(a.qiov)[..SECTOR * (b.sector - a.sector)]) + Flat(b.qiov)
  {
    if b.sector > End(a) { GapBytes(a, b); } else { OverlapBytes(a, b); }
  }

  lemma GapBytes(a: Req, b: Req)
    requires Sound(a) && Sound(b) && End(a) < b.sector
    ensures Flat(MergedIov(a, b)) == Flat(a.qiov) + Zeros(SECTOR * (b.sector - End(a))) + Flat(b.qiov)
  {
    var n := SECTOR * (b.sector - a.sector);
    ConcatIs(a.qiov, n);
    ConcatIs(b.qiov, |Flat(b.qiov)|);
    FlatThree(Concat(a.qiov, n), Zeros(SECTOR * (b.sector - End(a))), Concat(b.qiov, |Flat(b.qiov)|));
  }

  lemma OverlapBytes(a: Req, b: Req)
    requires Sound(a) && Sound(b) && a.sector <= b.sector <= End(a)
    ensures Flat(MergedIov(a, b)) == Flat(a.qiov)[..SECTOR * (b.sector - a.sector)] + Flat(b.qiov)
  {
    var n := SECTOR * (b.sector - a.sector);
    ConcatIs(a.qiov, n);
    ConcatIs(b.qiov, |Flat(b.qiov)|);
    FlatConcat(Concat(a.qiov, n), Concat(b.qiov, |Flat(b.qiov)|));
    assert Concat(a.qiov, n) + [] == Concat(a.qiov, n);
  }

  lemma FlatThree(x: seq<seq<Byte>>, z: seq<Byte>, y: seq<seq<Byte>>)
    ensures Flat(x + [z] + y) == Flat(x) + z + Flat(y)
  {
    FlatConcat(x + [z], y);
    FlatConcat(x, [z]);
    FlatOne(z);
  }

  // ---------------------------------------------------------------- what requests mean

  predicate Covers(r: Req, x: nat) { SECTOR * r.sector <= x < SECTOR * End(r) }

  function ByteOf(r: Req, x: nat): Byte
    requires Sound(r) && Covers(r, x)
  {
    Flat(r.qiov)[x - SECTOR * r.sector]
  }

  /** What byte x of the disk holds after the requests, if it held v before. */
  function Value(s: seq<Req>, x: nat, v: Byte): Byte
    requires AllSound(s)
  {
    if s == [] then v
    else
      var last := s[|s| - 1];
      if Covers(last, x) then ByteOf(last, x) else Value(s[..|s| - 1], x, v)
  }

  function WriteReq(disk: seq<Byte>, r: Req): (d: seq<Byte>)
    requires Sound(r) && SECTOR * End(r) <= |disk|
    ensures |d| == |disk|
  {
    disk[..SECTOR * r.sector] + Flat(r.qiov) + disk[SECTOR * End(r)..]
  }

  predicate Fits(disk: seq<Byte>, s: seq<Req>) { AllSound(s) && forall r :: r in s ==> SECTOR * End(r) <= |disk| }

  function WriteAll(disk: seq<Byte>, s: seq<Req>): (d: seq<Byte>)
    requires Fits(disk, s)
    ensures |d| == |disk|
  {
    if s == [] then disk else WriteReq(WriteAll(disk, s[..|s| - 1]), s[|s| - 1])
  }

  lemma {:induction false} WriteAllIsValue(disk: seq<Byte>, s: seq<Req>, x: nat)
    requires Fits(disk, s) && x < |disk|
    ensures WriteAll(disk, s)[x] == Value(s, x, disk[x])
  {
    if s != [] { WriteAllIsValue(disk, s[..|s| - 1], x); }
  }

  /** Byte x of a merged request. */
  lemma MergedValue(a: Req, b: Req, x: nat)
    requires Sound(a) && Sound(b) && a.sector <= b.sector && Sound(Merged(a, b))
    ensures Covers(Merged(a, b), x) <==> SECTOR * a.sector <= x < SECTOR * End(b)
    ensures Covers(b, x) ==> ByteOf(Merged(a, b), x) == ByteOf(b, x)
    ensures Covers(a, x) && x < SECTOR * b.sector ==> ByteOf(Merged(a, b), x) == ByteOf(a, x)
    ensures SECTOR * End(a) <= x < SECTOR * b.sector ==> ByteOf(Merged(a, b), x) == 0
  {
    MergedBytes(a, b);
  }

  // ---------------------------------------------------------------- merging a list

  predicate Sorted(s: seq<Req>) { forall i, j :: 0 <= i < j < |s| ==> s[i].sector <= s[j].sector }

  /** The list that multiwrite_merge leaves. */
  function Merge(approve: (Req, Req) -> bool, s: seq<Req>): (outs: seq<Req>)
    requires Sorted(s)
    ensures s == [] <==> outs == []
    ensures |outs| <= |s|
    ensures s != [] ==> outs[|outs| - 1].sector <= s[|s| - 1].sector
  {
    if |s| <= 1 then s
    else
      var outs, b := Merge(approve, s[..|s| - 1]), s[|s| - 1];
      Add(approve, outs, b)
  }

  /** One turn of the loop. */
  function Add(approve: (Req, Req) -> bool, outs: seq<Req>, b: Req): (r: seq<Req>)
    requires outs != [] && outs[|outs| - 1].sector <= b.sector
    ensures r != [] && |r| <= |outs| + 1 && r[|r| - 1].sector <= b.sector
  {
    var n := |outs| - 1;
    if Merges(approve, outs[n], b) then outs[..n] + [Merged(outs[n], b)] else outs + [b]
  }

  lemma {:induction false} MergeSound(approve: (Req, Req) -> bool, s: seq<Req>)
    requires Sorted(s) && AllSound(s)
    ensures AllSound(Merge(approve, s))
    ensures s != [] ==> End(Merge(approve, s)[|Merge(approve, s)| - 1]) == End(s[|s| - 1])
  {
    if |s| > 1 {
      var p, b := s[..|s| - 1], s[|s| - 1];
      MergeSound(approve, p);
      assert b in s;
      AddSound(approve, Merge(approve, p), b);
    }
  }

  lemma AddSound(approve: (Req, Req) -> bool, outs: seq<Req>, b: Req)
    requires AllSound(outs) && Sound(b) && outs != [] && outs[|outs| - 1].sector <= b.sector
    ensures var r := Add(approve, outs, b); AllSound(r) && End(r[|r| - 1]) == End(b)
  {
    MergedBytes(outs[|outs| - 1], b);
  }

  // ---------------------------------------------------------------- what merging does to each byte

  /** A byte keeps its meaning, becomes zero in an approved gap, or loses the data written to it, because a
      request was cut off where a shorter one inside it ended. */
  datatype Fate = Kept | Zeroed | Dropped

  function FateOf(approve: (Req, Req) -> bool, s: seq<Req>, x: nat): Fate
    requires Sorted(s)
  {
    if |s| <= 1 then Kept
    else
      var p, b := s[..|s| - 1], s[|s| - 1];
      var outs := Merge(approve, p);
      var a := outs[|outs| - 1];
      if Covers(b, x) then Kept
      else if !Merges(approve, a, b) then FateOf(approve, p, x)
      else if SECTOR * End(a) <= x < SECTOR * b.sector then Zeroed
      else if Covers(a, x) && SECTOR * b.sector <= x then Dropped
      else FateOf(approve, p, x)
  }

  lemma ValueSnoc(s: seq<Req>, b: Req, x: nat, v: Byte)
    requires AllSound(s) && Sound(b)
    ensures AllSound(s + [b]) && Value(s + [b], x, v) == if Covers(b, x) then ByteOf(b, x) else Value(s, x, v)
  {
    assert (s + [b])[..|s|] == s;
  }

  /** The value after one turn of the loop. */
  lemma AddValue(approve: (Req, Req) -> bool, outs: seq<Req>, b: Req, x: nat, v: Byte)
    requires outs != [] && AllSound(outs) && Sound(b) && outs[|outs| - 1].sector <= b.sector
    ensures AllSound(Add(approve, outs, b))
    ensures var n := |outs| - 1;
            var a := outs[n];
            Value(Add(approve, outs, b), x, v) ==
              if Covers(b, x) then ByteOf(b, x)
              else if !Merges(approve, a, b) then Value(outs, x, v)
              else if SECTOR * End(a) <= x < SECTOR * b.sector then 0
              else if Covers(a, x) && SECTOR * b.sector <= x then Value(outs[..n], x, v)
              else Value(outs, x, v)
  {
    var n := |outs| - 1;
    var a := outs[n];
    assert outs == outs[..n] + [a];
    ValueSnoc(outs[..n], a, x, v);
    if Merges(approve, a, b) {
      MergedBytes(a, b);
      MergedValue(a, b, x);
      ValueSnoc(outs[..n], Merged(a, b), x, v);
    } else {
      ValueSnoc(outs, b, x, v);
    }
  }

  lemma {:induction false} FateMeaning(approve: (Req, Req) -> bool, s: seq<Req>, x: nat, v: Byte)
    requires Sorted(s) && AllSound(s)
    ensures AllSound(Merge(approve, s))
    ensures FateOf(approve, s, x) == Kept ==> Value(Merge(approve, s), x, v) == Value(s, x, v)
    ensures FateOf(approve, s, x) == Zeroed ==> Value(Merge(approve, s), x, v) == 0
  {
    MergeSound(approve, s);
    if |s| > 1 {
      var p, b := s[..|s| - 1], s[|s| - 1];
      FateMeaning(approve, p, x, v);
      AddValue(approve, Merge(approve, p), b, x, v);
    }
  }

  // ---------------------------------------------------------------- the fate of a byte, read off the requests

  /** The merged request that request k meets; the driver is asked about the two if there is a gap. */
  function Met(approve: (Req, Req) -> bool, s: seq<Req>, k: nat): Req
    requires Sorted(s) && 1 <= k < |s|
  {
    var outs := Merge(approve, s[..k]);
    outs[|outs| - 1]
  }

  /** Request k is merged with what precedes it. */
  predicate Joined(approve: (Req, Req) -> bool, s: seq<Req>, k: nat)
    requires Sorted(s) && 1 <= k < |s|
  {
    Merges(approve, Met(approve, s, k), s[k])
  }

  /** Byte x lies in a gap, before request k, that is filled. */
  predicate GapAt(approve: (Req, Req) -> bool, s: seq<Req>, x: nat, k: nat)
    requires Sorted(s)
  {
    1 <= k < |s| && SECTOR * End(s[k - 1]) <= x < SECTOR * s[k].sector && Joined(approve, s, k)
  }

  predicate InGap(approve: (Req, Req) -> bool, s: seq<Req>, x: nat)
    requires Sorted(s)
  {
    exists k :: 0 <= k < |s| && GapAt(approve, s, x, k)
  }

  /** Request k - 1 is the last to cover x, and request k, which starts inside it, ends at or before x. */
  predicate OverhangsAt(s: seq<Req>, x: nat, k: nat) {
    && 1 <= k < |s| && Covers(s[k - 1], x) && SECTOR * End(s[k]) <= x
    && forall j :: k <= j < |s| ==> !Covers(s[j], x)
  }

  predicate Overhangs(s: seq<Req>, x: nat) { exists k :: 0 <= k < |s| && OverhangsAt(s, x, k) }

  predicate CutOff(approve: (Req, Req) -> bool, s: seq<Req>, x: nat)
    requires Sorted(s)
  {
    exists k :: 1 <= k < |s| && OverhangsAt(s, x, k) && Joined(approve, s, k)
  }

  predicate Covered(s: seq<Req>, x: nat) { exists r :: r in s && Covers(r, x) }

  lemma MetPrefix(approve: (Req, Req) -> bool, s: seq<Req>, k: nat)
    requires Sorted(s) && 1 <= k < |s| - 1
    ensures Met(approve, s[..|s| - 1], k) == Met(approve, s, k)
  {
    assert s[..|s| - 1][..k] == s[..k];
  }

  /** The last request changes neither question for the requests before it, unless it covers x or is joined there. */
  lemma GapPrefix(approve: (Req, Req) -> bool, s: seq<Req>, x: nat)
    requires Sorted(s) && |s| > 1 && !GapAt(approve, s, x, |s| - 1)
    ensures InGap(approve, s, x) == InGap(approve, s[..|s| - 1], x)
  {
    var p := s[..|s| - 1];
    forall k | 1 <= k < |p| ensures GapAt(approve, p, x, k) == GapAt(approve, s, x, k) { MetPrefix(approve, s, k); }
  }

  lemma CutPrefix(approve: (Req, Req) -> bool, s: seq<Req>, x: nat)
    requires Sorted(s) && |s| > 1 && !Covers(s[|s| - 1], x)
    requires !(OverhangsAt(s, x, |s| - 1) && Joined(approve, s, |s| - 1))
    ensures CutOff(approve, s, x) == CutOff(approve, s[..|s| - 1], x)
  {
    var p := s[..|s| - 1];
    forall k | 1 <= k < |p|
      ensures OverhangsAt(p, x, k) == OverhangsAt(s, x, k) && Joined(approve, p, k) == Joined(approve, s, k)
    {
      MetPrefix(approve, s, k);
      OverhangPrefix(s, x, k);
    }
  }

  lemma OverhangPrefix(s: seq<Req>, x: nat, k: nat)
    requires 1 <= k < |s| - 1 && !Covers(s[|s| - 1], x)
    ensures OverhangsAt(s[..|s| - 1], x, k) == OverhangsAt(s, x, k)
  {
    var p := s[..|s| - 1];
    assert OverhangsAt(p, x, k) ==> forall j :: k <= j < |s| ==> !Covers(s[j], x);
    assert OverhangsAt(s, x, k) ==> forall j :: k <= j < |p| ==> !Covers(p[j], x);
  }

  /** From the start of the last request on there is no gap. */
  lemma NoGapBehind(approve: (Req, Req) -> bool, s: seq<Req>, x: nat)
    requires Sorted(s) && s != [] && SECTOR * s[|s| - 1].sector <= x
    ensures !InGap(approve, s, x)
  {
    forall k | 0 <= k < |s| ensures !GapAt(approve, s, x, k) { assert s[k].sector <= s[|s| - 1].sector; }
  }

  lemma MetEnds(approve: (Req, Req) -> bool, s: seq<Req>, k: nat)
    requires Sorted(s) && AllSound(s) && 1 <= k < |s|
    ensures var a := Met(approve, s, k); End(a) == End(s[k - 1]) && a.sector <= s[k - 1].sector && Sound(a)
  {
    MergeSound(approve, s[..k]);
  }

  /** What the loop does to a byte, turn by turn, is what the list of requests says. */
  lemma {:induction false} FateIs(approve: (Req, Req) -> bool, s: seq<Req>, x: nat)
    requires Sorted(s) && AllSound(s)
    ensures FateOf(approve, s, x) ==
            if InGap(approve, s, x) then Zeroed else if CutOff(approve, s, x) then Dropped else Kept
  {
    if |s| > 1 {
      var n := |s| - 1;
      MetEnds(approve, s, n);
      if Covers(s[n], x) || SECTOR * s[n].sector <= x { NoGapBehind(approve, s, x); }
      if Covers(s[n], x) {
        assert !CutOff(approve, s, x);
      } else if GapAt(approve, s, x, n) {
      } else if OverhangsAt(s, x, n) && Joined(approve, s, n) {
        assert CutOff(approve, s, x);
      } else {
        FateIs(approve, s[..n], x);
        GapPrefix(approve, s, x);
        CutPrefix(approve, s, x);
      }
    }
  }

  /** Whatever the driver approves and wherever IOV_MAX binds: a byte in a filled gap is zero, and every other byte
      that is not cut off has the value that the sorted requests give it. */
  lemma MergeMeaning(approve: (Req, Req) -> bool, s: seq<Req>, x: nat, v: Byte)
    requires Sorted(s) && AllSound(s)
    ensures AllSound(Merge(approve, s))
    ensures InGap(approve, s, x) ==> Value(Merge(approve, s), x, v) == 0
    ensures !InGap(approve, s, x) && !CutOff(approve, s, x) ==> Value(Merge(approve, s), x, v) == Value(s, x, v)
  {
    FateIs(approve, s, x);
    FateMeaning(approve, s, x, v);
  }

  /** A gap is filled only if the driver approved it. */
  lemma GapIsApproved(approve: (Req, Req) -> bool, s: seq<Req>, x: nat, k: nat)
    requires Sorted(s) && AllSound(s) && GapAt(approve, s, x, k)
    ensures approve(Met(approve, s, k), s[k]) && End(Met(approve, s, k)) == End(s[k - 1]) < s[k].sector
  {
    MetEnds(approve, s, k);
  }

  /** A filled gap holds data that some request wrote exactly when a request before the gap reaches into it, past the
      end of the one that the gap follows. */
  lemma GapOverData(approve: (Req, Req) -> bool, s: seq<Req>, x: nat, k: nat)
    requires Sorted(s) && GapAt(approve, s, x, k)
    ensures Covered(s, x) <==> exists i :: 0 <= i < k - 1 && x < SECTOR * End(s[i])
  {
    assert forall i :: k <= i < |s| ==> s[k].sector <= s[i].sector;
    if Covered(s, x) {
      var r :| r in s && Covers(r, x);
      var i :| 0 <= i < |s| && s[i] == r;
      assert i < k - 1 && x < SECTOR * End(s[i]);
    }
    if i :| 0 <= i < k - 1 && x < SECTOR * End(s[i]) {
      assert s[i].sector <= s[k - 1].sector;
      assert Covers(s[i], x) && s[i] in s;
    }
  }

  predicate GrowingEnds(s: seq<Req>) { forall i, j :: 0 <= i < j < |s| ==> End(s[i]) <= End(s[j]) }

  /** If no request ends before an earlier one, nothing is cut off, and what is zeroed belongs to no request. */
  lemma GrowingEndsKeep(approve: (Req, Req) -> bool, s: seq<Req>, x: nat)
    requires Sorted(s) && GrowingEnds(s)
    ensures !Overhangs(s, x) && !CutOff(approve, s, x) && (InGap(approve, s, x) ==> !Covered(s, x))
  {
    forall k | 0 <= k < |s| ensures !OverhangsAt(s, x, k) { assert k >= 1 ==> End(s[k - 1]) <= End(s[k]); }
    if k :| 0 <= k < |s| && GapAt(approve, s, x, k) {
      GapOverData(approve, s, x, k);
      assert forall i :: 0 <= i < k - 1 ==> End(s[i]) <= End(s[k - 1]);
    }
  }

  /** No byte is zeroed unless the driver approved a gap. */
  lemma NoGapNoZero(approve: (Req, Req) -> bool, s: seq<Req>, x: nat)
    requires Sorted(s) && AllSound(s) && forall a, b :: !approve(a, b)
    ensures !InGap(approve, s, x)
  {
    forall k | 0 <= k < |s| ensures !GapAt(approve, s, x, k) { if k >= 1 { MetEnds(approve, s, k); } }
  }

  // ---------------------------------------------------------------- without the limit on buffers

  /** IOV_MAX never prevents a merge. */
  predicate Unlimited(approve: (Req, Req) -> bool, s: seq<Req>)
    requires Sorted(s)
  {
    |s| <= 1 ||
    (var p, b := s[..|s| - 1], s[|s| - 1];
     var outs := Merge(approve, p);
     Unlimited(approve, p) && |outs[|outs| - 1].qiov| + |b.qiov| + 1 <= IOV_MAX)
  }

  /** Later requests start after the end of earlier ones, with a gap. */
  predicate Apart(s: seq<Req>) { forall i, j :: 0 <= i < j < |s| ==> End(s[i]) < s[j].sector }

  lemma AddApart(approve: (Req, Req) -> bool, outs: seq<Req>, b: Req)
    requires outs != [] && Apart(outs) && outs[|outs| - 1].sector <= b.sector
    requires |outs[|outs| - 1].qiov| + |b.qiov| + 1 <= IOV_MAX
    ensures Apart(Add(approve, outs, b))
  {
    var n, r := |outs| - 1, Add(approve, outs, b);
    if Merges(approve, outs[n], b) {
      assert forall i :: 0 <= i < n ==> r[i] == outs[i] && End(outs[i]) < outs[n].sector;
    } else {
      forall i | 0 <= i <= n ensures End(outs[i]) < b.sector {
        if i < n { assert End(outs[i]) < outs[n].sector; }
      }
    }
  }

  /** The merged requests are pairwise disjoint. */
  lemma {:induction false} MergeApart(approve: (Req, Req) -> bool, s: seq<Req>)
    requires Sorted(s) && Unlimited(approve, s)
    ensures Apart(Merge(approve, s))
  {
    if |s| > 1 {
      MergeApart(approve, s[..|s| - 1]);
      AddApart(approve, Merge(approve, s[..|s| - 1]), s[|s| - 1]);
    }
  }

  lemma {:induction false} UncoveredValue(s: seq<Req>, x: nat, v: Byte)
    requires AllSound(s) && forall r :: r in s ==> !Covers(r, x)
    ensures Value(s, x, v) == v
  {
    if s != [] { UncoveredValue(s[..|s| - 1], x, v); }
  }

  /** A dropped byte is not written at all, although some request covers it. */
  lemma {:induction false} DroppedIsUnwritten(approve: (Req, Req) -> bool, s: seq<Req>, x: nat, v: Byte)
    requires Sorted(s) && AllSound(s) && Unlimited(approve, s) && FateOf(approve, s, x) == Dropped
    ensures AllSound(Merge(approve, s)) && Value(Merge(approve, s), x, v) == v
    ensures exists r :: r in s && Covers(r, x)
  {
    MergeSound(approve, s);
    var p, b := s[..|s| - 1], s[|s| - 1];
    var outs := Merge(approve, p);
    var n := |outs| - 1;
    MergeSound(approve, p);
    AddValue(approve, outs, b, x, v);
    if Covers(outs[n], x) && SECTOR * b.sector <= x && Merges(approve, outs[n], b) {
      MergeApart(approve, p);
      UncoveredValue(outs[..n], x, v);
      assert p[|p| - 1] in s && Covers(p[|p| - 1], x);
    } else {
      DroppedIsUnwritten(approve, p, x, v);
      var r :| r in p && Covers(r, x);
      assert r in s;
    }
  }

  lemma {:induction false} CoveredValue(s: seq<Req>, x: nat, v: Byte, w: Byte)
    requires AllSound(s) && exists r :: r in s && Covers(r, x)
    ensures Value(s, x, v) == Value(s, x, w)
  {
    var r :| r in s && Covers(r, x);
    var last := s[|s| - 1];
    if !Covers(last, x) {
      assert r in s[..|s| - 1];
      CoveredValue(s[..|s| - 1], x, v, w);
    }
  }

  /** IOV_MAX cannot bind while there are few buffers in all. */
  function Buffers(s: seq<Req>): nat { if s == [] then 0 else Buffers(s[..|s| - 1]) + |s[|s| - 1].qiov| }

  lemma {:induction false} FewBuffers(approve: (Req, Req) -> bool, s: seq<Req>)
    requires Sorted(s) && Buffers(s) + |s| <= IOV_MAX
    ensures Unlimited(approve, s)
    ensures s != [] ==> |Merge(approve, s)[|Merge(approve, s)| - 1].qiov| <= Buffers(s) + |s| - 1
  {
    if |s| > 1 {
      var p, b := s[..|s| - 1], s[|s| - 1];
      FewBuffers(approve, p);
      AddBuffers(approve, Merge(approve, p), b);
    } else if |s| == 1 {
      assert s[..0] == [];
    }
  }

  lemma AddBuffers(approve: (Req, Req) -> bool, outs: seq<Req>, b: Req)
    requires outs != [] && outs[|outs| - 1].sector <= b.sector
    ensures var r := Add(approve, outs, b); |r[|r| - 1].qiov| <= |outs[|outs| - 1].qiov| + |b.qiov| + 1
  {
    var a := outs[|outs| - 1];
    ConcatIs(a.qiov, SECTOR * (b.sector - a.sector));
    ConcatIs(b.qiov, |Flat(b.qiov)|);
  }

  /** Merging never makes a request of more than IOV_MAX buffers. */
  lemma {:induction false} MergedFew(approve: (Req, Req) -> bool, s: seq<Req>, k: nat)
    requires Sorted(s) && (forall r :: r in s ==> |r.qiov| <= IOV_MAX) && k < |Merge(approve, s)|
    ensures |Merge(approve, s)[k].qiov| <= IOV_MAX
  {
    if |s| > 1 {
      var outs, b := Merge(approve, s[..|s| - 1]), s[|s| - 1];
      assert b in s;
      AddFew(approve, outs, b, k);
      if k < |outs| { MergedFew(approve, s[..|s| - 1], k); }
    }
  }

  lemma AddFew(approve: (Req, Req) -> bool, outs: seq<Req>, b: Req, k: nat)
    requires outs != [] && outs[|outs| - 1].sector <= b.sector && |b.qiov| <= IOV_MAX && k < |Add(approve, outs, b)|
    ensures |Add(approve, outs, b)[k].qiov| <= IOV_MAX || (k < |outs| && Add(approve, outs, b)[k] == outs[k])
  {
    var a := outs[|outs| - 1];
    ConcatIs(a.qiov, SECTOR * (b.sector - a.sector));
    ConcatIs(b.qiov, |Flat(b.qiov)|);
  }

  /** r starts where an output does that could not take it in: it would have had too many buffers. */
  predicate TooMany(a: Req, b: Req, r: Req) { r.sector == b.sector && |a.qiov| + |r.qiov| + 1 > IOV_MAX }

  /** Requests that follow each other without a gap, or overlap, stay apart only because of IOV_MAX. */
  lemma {:induction false} TouchingMerge(approve: (Req, Req) -> bool, s: seq<Req>, k: nat)
    requires Sorted(s) && k + 1 < |Merge(approve, s)|
    ensures var outs := Merge(approve, s);
            End(outs[k]) < outs[k + 1].sector || exists r :: r in s && TooMany(outs[k], outs[k + 1], r)
  {
    var p, b := s[..|s| - 1], s[|s| - 1];
    var before, outs := Merge(approve, p), Merge(approve, s);
    if k + 1 < |before| {
      TouchingMerge(approve, p, k);
      assert before[k] == outs[k] && before[k + 1].sector == outs[k + 1].sector;
      if End(outs[k]) >= outs[k + 1].sector {
        var r :| r in p && TooMany(before[k], before[k + 1], r);
        assert r in s && TooMany(outs[k], outs[k + 1], r);
      }
    } else if End(outs[k]) >= outs[k + 1].sector {
      assert b in s && TooMany(outs[k], outs[k + 1], b);
    }
  }

  lemma {:induction false} UnlimitedAt(approve: (Req, Req) -> bool, s: seq<Req>, k: nat)
    requires Sorted(s) && Unlimited(approve, s) && 1 <= k < |s|
    ensures |Met(approve, s, k).qiov| + |s[k].qiov| + 1 <= IOV_MAX
  {
    if k < |s| - 1 {
      MetPrefix(approve, s, k);
      UnlimitedAt(approve, s[..|s| - 1], k);
    }
  }

  /** Then whether a byte is cut off can be read off the requests alone. */
  lemma CutOffIsOverhang(approve: (Req, Req) -> bool, s: seq<Req>, x: nat)
    requires Sorted(s) && AllSound(s) && Unlimited(approve, s)
    ensures CutOff(approve, s, x) <==> Overhangs(s, x)
  {
    forall k | 0 <= k < |s| && OverhangsAt(s, x, k) ensures Joined(approve, s, k) {
      UnlimitedAt(approve, s, k);
      MetEnds(approve, s, k);
    }
  }

  /** And a gap is filled exactly when the driver approved it. */
  lemma GapIsApproval(approve: (Req, Req) -> bool, s: seq<Req>, x: nat, k: nat)
    requires Sorted(s) && AllSound(s) && Unlimited(approve, s) && 1 <= k < |s|
    ensures GapAt(approve, s, x, k) <==>
            SECTOR * End(s[k - 1]) <= x < SECTOR * s[k].sector && approve(Met(approve, s, k), s[k])
  {
    UnlimitedAt(approve, s, k);
    MetEnds(approve, s, k);
  }

  lemma CutOffIsUnwritten(approve: (Req, Req) -> bool, s: seq<Req>, x: nat, v: Byte)
    requires Sorted(s) && AllSound(s) && Unlimited(approve, s) && !InGap(approve, s, x) && Overhangs(s, x)
    ensures AllSound(Merge(approve, s)) && Value(Merge(approve, s), x, v) == v && Covered(s, x)
  {
    FateIs(approve, s, x);
    CutOffIsOverhang(approve, s, x);
    DroppedIsUnwritten(approve, s, x, v);
  }

  /** What every byte holds after the merged requests, when IOV_MAX does not bind; and so, that merging means what the
      sorted requests mean, for every disk, exactly when the byte is not cut off, and if it lies in an approved gap,
      when some request writes a zero there. */
  lemma MergeExact(approve: (Req, Req) -> bool, s: seq<Req>, x: nat)
    requires Sorted(s) && AllSound(s) && Unlimited(approve, s)
    ensures AllSound(Merge(approve, s))
    ensures forall v :: Value(Merge(approve, s), x, v) ==
              if InGap(approve, s, x) then 0 else if Overhangs(s, x) then v else Value(s, x, v)
    ensures (forall v :: Value(Merge(approve, s), x, v) == Value(s, x, v)) <==>
            if InGap(approve, s, x) then Covered(s, x) && Value(s, x, 0) == 0 else !Overhangs(s, x)
  {
    MergeSound(approve, s);
    CutOffIsOverhang(approve, s, x);
    forall v ensures Value(Merge(approve, s), x, v) ==
                     if InGap(approve, s, x) then 0 else if Overhangs(s, x) then v else Value(s, x, v)
    {
      MergeMeaning(approve, s, x, v);
      if !InGap(approve, s, x) && Overhangs(s, x) { CutOffIsUnwritten(approve, s, x, v); }
    }
    SortedValue(s, x);
    ValueDiffers(Merge(approve, s), s, x, InGap(approve, s, x), Overhangs(s, x));
  }

  lemma ValueDiffers(outs: seq<Req>, s: seq<Req>, x: nat, gap: bool, cut: bool)
    requires AllSound(outs) && AllSound(s) && (cut ==> Covered(s, x))
    requires forall v :: Value(outs, x, v) == if gap then 0 else if cut then v else Value(s, x, v)
    ensures (forall v :: Value(outs, x, v) == Value(s, x, v)) <==>
            if gap then Covered(s, x) && Value(s, x, 0) == 0 else !cut
  {
    SortedValue(s, x);
    var v := Value(s, x, 0) + 1;
    assert gap && !Covered(s, x) ==> Value(outs, x, 1) != Value(s, x, 1);
    assert gap && Covered(s, x) ==> Value(s, x, 0) == Value(s, x, v);
    assert !gap && cut ==> Value(outs, x, v) != Value(s, x, v);
  }

  /** A covered byte has the same value for every disk, and another one that of the disk. */
  lemma SortedValue(s: seq<Req>, x: nat)
    requires AllSound(s)
    ensures Covered(s, x) ==> forall v, w :: Value(s, x, v) == Value(s, x, w)
    ensures !Covered(s, x) ==> forall v :: Value(s, x, v) == v
    ensures Overhangs(s, x) ==> Covered(s, x)
  {
    if Covered(s, x) {
      forall v, w ensures Value(s, x, v) == Value(s, x, w) { CoveredValue(s, x, v, w); }
    } else {
      forall v ensures Value(s, x, v) == v { UncoveredValue(s, x, v); }
    }
  }

  lemma {:induction false} MergeFits(approve: (Req, Req) -> bool, disk: seq<Byte>, s: seq<Req>)
    requires Sorted(s) && Fits(disk, s)
    ensures Fits(disk, Merge(approve, s))
  {
    if |s| > 1 {
      var p, b := s[..|s| - 1], s[|s| - 1];
      MergeFits(approve, disk, p);
      assert b in s;
      AddFits(approve, disk, Merge(approve, p), b);
    }
  }

  lemma AddFits(approve: (Req, Req) -> bool, disk: seq<Byte>, outs: seq<Req>, b: Req)
    requires Fits(disk, outs) && Sound(b) && SECTOR * End(b) <= |disk| && outs != [] &&
             outs[|outs| - 1].sector <= b.sector
    ensures Fits(disk, Add(approve, outs, b))
  {
    MergedBytes(outs[|outs| - 1], b);
    AddSound(approve, outs, b);
  }

  /** On a disk, for every driver, when IOV_MAX does not bind: zeros in approved gaps, the old content where a tail was
      cut off, and everywhere else what the sorted requests write. */
  lemma MergeOnDisk(approve: (Req, Req) -> bool, disk: seq<Byte>, s: seq<Req>, x: nat)
    requires Sorted(s) && Fits(disk, s) && Unlimited(approve, s) && x < |disk|
    ensures Fits(disk, Merge(approve, s))
    ensures WriteAll(disk, Merge(approve, s))[x] ==
            if InGap(approve, s, x) then 0 else if Overhangs(s, x) then disk[x] else WriteAll(disk, s)[x]
  {
    MergeFits(approve, disk, s);
    WriteAllIsValue(disk, Merge(approve, s), x);
    WriteAllIsValue(disk, s, x);
    MergeExact(approve, s, x);
  }

  /** If no request ends before an earlier one, then for every driver and every number of buffers the merged requests
      leave every disk as the sorted ones do, except for zeros in filled gaps, where no request writes. */
  lemma MergePreservesDisk(approve: (Req, Req) -> bool, disk: seq<Byte>, s: seq<Req>)
    requires Sorted(s) && Fits(disk, s) && GrowingEnds(s)
    ensures Fits(disk, Merge(approve, s))
    ensures forall x :: 0 <= x < |disk| ==>
              WriteAll(disk, Merge(approve, s))[x] == if InGap(approve, s, x) then 0 else WriteAll(disk, s)[x]
    ensures forall x: nat :: InGap(approve, s, x) ==> !Covered(s, x)
  {
    MergeFits(approve, disk, s);
    forall x | 0 <= x < |disk|
      ensures WriteAll(disk, Merge(approve, s))[x] == if InGap(approve, s, x) then 0 else WriteAll(disk, s)[x]
    {
      WriteAllIsValue(disk, Merge(approve, s), x);
      WriteAllIsValue(disk, s, x);
      GrowingEndsKeep(approve, s, x);
      MergeMeaning(approve, s, x, disk[x]);
    }
    forall x: nat | InGap(approve, s, x) ensures !Covered(s, x) { GrowingEndsKeep(approve, s, x); }
  }

  function Sectors(n: nat, v: Byte): seq<Byte> { seq(SECTOR * n, _ => v) }

  lemma OneBuffer(sector: nat, n: nat, v: Byte)
    ensures Sound(Req(sector, n, [Sectors(n, v)]))
    ensures forall x :: SECTOR * sector <= x < SECTOR * (sector + n) ==> ByteOf(Req(sector, n, [Sectors(n, v)]), x) == v
  {
    FlatOne(Sectors(n, v));
  }

  /** Four sectors at 0 and one sector inside them: whatever the driver says, the last two sectors are not written. */
  lemma ContainedRequestLosesTail(approve: (Req, Req) -> bool, x: nat, v: Byte)
    requires 1024 <= x < 2048
    ensures var s := [Req(0, 4, [Sectors(4, 1)]), Req(1, 1, [Sectors(1, 2)])];
            && Sorted(s) && AllSound(s) && AllSound(Merge(approve, s))
            && Value(s, x, v) == 1 && Value(Merge(approve, s), x, v) == v
  {
    var s := [Req(0, 4, [Sectors(4, 1)]), Req(1, 1, [Sectors(1, 2)])];
    OneBuffer(0, 4, 1);
    OneBuffer(1, 1, 2);
    TwoBuffers(s);
    FewBuffers(approve, s);
    assert OverhangsAt(s, x, 1);
    NoGapBehind(approve, s, x);
    CutOffIsUnwritten(approve, s, x, v);
  }

  /** Ten sectors at 0, one sector inside them at 1 and one at 5: a driver that approves the gap between the last two
      has the data of the first one overwritten with zeros. No driver of the repository approves any. */
  lemma ContainedRequestIsZeroed(approve: (Req, Req) -> bool, x: nat, v: Byte)
    requires 1024 <= x < 2560 && forall a, b :: approve(a, b)
    ensures var s := [Req(0, 10, [Sectors(10, 1)]), Req(1, 1, [Sectors(1, 2)]), Req(5, 1, [Sectors(1, 3)])];
            && Sorted(s) && AllSound(s) && AllSound(Merge(approve, s))
            && Value(s, x, v) == 1 && Value(Merge(approve, s), x, v) == 0
  {
    var s := [Req(0, 10, [Sectors(10, 1)]), Req(1, 1, [Sectors(1, 2)]), Req(5, 1, [Sectors(1, 3)])];
    OneBuffer(0, 10, 1);
    OneBuffer(1, 1, 2);
    OneBuffer(5, 1, 3);
    ThreeBuffers(s);
    ZeroedBehind(approve, s, x, v);
    ThreeValues(s, x, v);
  }

  lemma ZeroedBehind(approve: (Req, Req) -> bool, s: seq<Req>, x: nat, v: Byte)
    requires Sorted(s) && AllSound(s) && |s| == 3 && Buffers(s) + 3 <= IOV_MAX && forall a, b :: approve(a, b)
    requires SECTOR * End(s[1]) <= x < SECTOR * s[2].sector
    ensures AllSound(Merge(approve, s)) && Value(Merge(approve, s), x, v) == 0
  {
    FewBuffers(approve, s);
    GapIsApproval(approve, s, x, 2);
    MergeMeaning(approve, s, x, v);
  }

  lemma TwoBuffers(s: seq<Req>)
    requires |s| == 2
    ensures Buffers(s) == |s[0].qiov| + |s[1].qiov|
  {
    assert s[..1][..0] == [];
    assert Buffers(s[..1]) == |s[0].qiov|;
  }

  lemma ThreeBuffers(s: seq<Req>)
    requires |s| == 3
    ensures Buffers(s) == |s[0].qiov| + |s[1].qiov| + |s[2].qiov|
  {
    TwoBuffers(s[..2]);
  }

  lemma ThreeValues(s: seq<Req>, x: nat, v: Byte)
    requires |s| == 3 && AllSound(s) && Covers(s[0], x) && !Covers(s[1], x) && !Covers(s[2], x)
    ensures Value(s, x, v) == ByteOf(s[0], x)
  {
    assert s[..2][..1] == s[..1] && s[..1][0] == s[0];
    assert Value(s[..1], x, v) == ByteOf(s[0], x) && Value(s[..2], x, v) == Value(s[..1], x, v);
  }

  // ---------------------------------------------------------------- completion order

  lemma {:induction false} DisjointValue(s: seq<Req>, r: Req, x: nat, v: Byte)
    requires AllSound(s) && r in s && Covers(r, x) && forall q :: q in s && Covers(q, x) ==> q == r
    ensures Value(s, x, v) == ByteOf(r, x)
  {
    var last := s[|s| - 1];
    if !Covers(last, x) {
      assert r in s[..|s| - 1];
      DisjointValue(s[..|s| - 1], r, x, v);
    }
  }

  /** When IOV_MAX does not bind, the merged requests may complete in any order. */
  lemma AnyCompletionOrder(approve: (Req, Req) -> bool, s: seq<Req>, order: seq<Req>, x: nat, v: Byte)
    requires Sorted(s) && AllSound(s) && Unlimited(approve, s) && multiset(order) == multiset(Merge(approve, s))
    ensures AllSound(order) && AllSound(Merge(approve, s))
    ensures Value(order, x, v) == Value(Merge(approve, s), x, v)
  {
    var outs := Merge(approve, s);
    MergeSound(approve, s);
    MergeApart(approve, s);
    SameMembers(order, outs);
    if r :| r in outs && Covers(r, x) {
      forall q | q in outs && Covers(q, x) ensures q == r { OnlyOne(outs, q, r, x); }
      DisjointValue(outs, r, x, v);
      DisjointValue(order, r, x, v);
    } else {
      UncoveredValue(outs, x, v);
      UncoveredValue(order, x, v);
    }
  }

  lemma SameMembers(a: seq<Req>, b: seq<Req>)
    requires multiset(a) == multiset(b)
    ensures forall r :: r in a <==> r in b
  {
    forall r ensures r in a <==> r in b {
      assert r in a <==> r in multiset(a);
      assert r in b <==> r in multiset(b);
    }
  }

  lemma OnlyOne(s: seq<Req>, q: Req, r: Req, x: nat)
    requires Apart(s) && q in s && r in s && Covers(q, x) && Covers(r, x)
    ensures q == r
  {
    var i :| 0 <= i < |s| && s[i] == q;
    var j :| 0 <= j < |s| && s[j] == r;
  }

  // ---------------------------------------------------------------- the code

  /** b put in its place among sorted requests. */
  method Insert(s: seq<Req>, b: Req) returns (r: seq<Req>)
    requires Sorted(s)
    ensures Sorted(r) && multiset(r) == multiset(s) + multiset{b}
  {
    var k := 0;
    while k < |s| && s[k].sector <= b.sector
      invariant 0 <= k <= |s| && forall i :: 0 <= i < k ==> s[i].sector <= b.sector
    {
      k := k + 1;
    }
    r := s[..k] + [b] + s[k..];
    assert s == s[..k] + s[k..];
  }

  /** The call of qsort: some permutation that is sorted by start sector. */
  method SortRequests(reqs: array<Req>)
    modifies reqs
    ensures Sorted(reqs[..]) && multiset(reqs[..]) == multiset(old(reqs[..]))
  {
    var s: seq<Req> := [];
    var i := 0;
    while i < reqs.Length
      invariant 0 <= i <= reqs.Length && Sorted(s) && multiset(s) == multiset(reqs[..i]) && reqs[..] == old(reqs[..])
    {
      assert reqs[..i + 1] == reqs[..i] + [reqs[i]];
      s := Insert(s, reqs[i]);
      i := i + 1;
    }
    assert reqs[..i] == reqs[..];
    SameLength(s, reqs[..]);
    forall k | 0 <= k < reqs.Length { reqs[k] := s[k]; }
    assert reqs[..] == s;
  }

  lemma SameLength(a: seq<Req>, b: seq<Req>)
    requires multiset(a) == multiset(b)
    ensures |a| == |b|
  {
    assert |a| == |multiset(a)| && |b| == |multiset(b)|;
  }

  /** One turn of the loop of multiwrite_merge, in place. */
  method Turn(approve: (Req, Req) -> bool, reqs: array<Req>, outidx: nat, i: nat) returns (next: nat)
    requires outidx < i < reqs.Length && reqs[outidx].sector <= reqs[i].sector
    modifies reqs
    ensures next < i + 1 && reqs[..][..next + 1] == Add(approve, old(reqs[..])[..outidx + 1], old(reqs[..])[i])
    ensures forall k :: i < k < reqs.Length ==> reqs[..][k] == old(reqs[..])[k]
  {
    var a, b := reqs[outidx], reqs[i];
    ghost var outs := reqs[..outidx + 1];
    assert outs[..outidx] == reqs[..outidx];
    var merge := b.sector <= End(a);
    if !merge { merge := approve(a, b); }
    if |a.qiov| + |b.qiov| + 1 > IOV_MAX { merge := false; }
    next := outidx;
    if merge {
      reqs[outidx] := Merged(a, b);
      assert reqs[..outidx + 1] == reqs[..outidx] + [Merged(a, b)];
    } else {
      next := outidx + 1;
      reqs[next] := b;
      assert reqs[..next + 1] == reqs[..next] + [b];
    }
  }

  /** The first i requests have been merged into the first outidx + 1 places; the rest are untouched. */
  ghost predicate Progress(approve: (Req, Req) -> bool, s: seq<Req>, r: seq<Req>, outidx: nat, i: nat) {
    && |r| == |s| && outidx < i <= |s| && Sorted(s[..i]) && r[..outidx + 1] == Merge(approve, s[..i])
    && forall k :: i <= k < |s| ==> r[k] == s[k]
  }

  lemma ProgressBegins(approve: (Req, Req) -> bool, s: seq<Req>)
    requires |s| >= 1
    ensures Progress(approve, s, s, 0, 1)
  {
    assert s[..1] == [s[0]];
  }

  lemma ProgressEnds(approve: (Req, Req) -> bool, s: seq<Req>, r: seq<Req>, outidx: nat)
    requires Sorted(s) && Progress(approve, s, r, outidx, |s|)
    ensures r[..outidx + 1] == Merge(approve, s)
  {
    assert s[..|s|] == s;
  }

  lemma ProgressTop(approve: (Req, Req) -> bool, s: seq<Req>, r: seq<Req>, outidx: nat, i: nat)
    requires Sorted(s) && i < |s| && Progress(approve, s, r, outidx, i)
    ensures r[i] == s[i] && r[outidx].sector <= s[i].sector
  {
    MergeGrows(approve, s, i);
    assert r[outidx] == r[..outidx + 1][outidx];
  }

  lemma ProgressNext(approve: (Req, Req) -> bool, s: seq<Req>, r: seq<Req>, r1: seq<Req>, outidx: nat, i: nat,
                     next: nat)
    requires Sorted(s) && i < |s| && Progress(approve, s, r, outidx, i) && r[outidx].sector <= s[i].sector
    requires |r1| == |r| && next < i + 1 && r1[..next + 1] == Add(approve, r[..outidx + 1], s[i])
    requires forall k :: i < k < |r| ==> r1[k] == r[k]
    ensures Progress(approve, s, r1, next, i + 1)
  {
    MergeGrows(approve, s, i);
  }

  method MergeOne(approve: (Req, Req) -> bool, reqs: array<Req>, ghost s: seq<Req>, outidx: nat, i: nat)
    returns (next: nat)
    requires Sorted(s) && i < |s| && Progress(approve, s, reqs[..], outidx, i)
    modifies reqs
    ensures Progress(approve, s, reqs[..], next, i + 1)
  {
    ghost var was := reqs[..];
    ProgressTop(approve, s, was, outidx, i);
    next := Turn(approve, reqs, outidx, i);
    ProgressNext(approve, s, was, reqs[..], outidx, i, next);
  }

  /** multiwrite_merge: the result is the number of requests that remain, at the front of the array. */
  method MultiwriteMerge(approve: (Req, Req) -> bool, reqs: array<Req>) returns (n: nat, ghost s: seq<Req>)
    requires reqs.Length >= 1
    modifies reqs
    ensures Sorted(s) && multiset(s) == multiset(old(reqs[..]))
    ensures n == |Merge(approve, s)| <= reqs.Length && reqs[..n] == Merge(approve, s)
  {
    SortRequests(reqs);
    s := reqs[..];
    ProgressBegins(approve, s);
    var outidx, i := 0, 1;
    while i < reqs.Length
      invariant 0 <= outidx < i <= reqs.Length && Progress(approve, s, reqs[..], outidx, i)
    {
      outidx := MergeOne(approve, reqs, s, outidx, i);
      i := i + 1;
    }
    ProgressEnds(approve, s, reqs[..], outidx);
    assert reqs[..outidx + 1] == reqs[..][..outidx + 1];
    n := outidx + 1;
  }

  lemma MergeGrows(approve: (Req, Req) -> bool, s: seq<Req>, i: nat)
    requires 1 <= i < |s| && Sorted(s)
    ensures Sorted(s[..i]) && Sorted(s[..i + 1])
    ensures var outs := Merge(approve, s[..i]);
            outs != [] && outs[|outs| - 1].sector <= s[i].sector &&
            Merge(approve, s[..i + 1]) == Add(approve, outs, s[i])
  {
    assert s[..i + 1][..i] == s[..i];
    assert s[..i][i - 1].sector <= s[i].sector;
  }
}
