/** Dirty tracking of a block device (block.c): a bitmap with one bit per chunk of 2048 sectors and a
    counter that is kept beside it. Along every run of a block migration the two are the dirty chunks of the
    device and their number. */
module DirtyTracking {
  import opened Bitops
  import opened Bitmap
  import M = BlockMigration

  const CHUNK := M.CHUNK

  /** How many of the first n booleans are set. */
  ghost function Count(s: seq<Word>, n: nat): nat
    requires n <= BITS * |s|
  {
    if n == 0 then 0 else Count(s, n - 1) + Digit(BitAt(s, n - 1))
  }

  lemma {:induction false} CountOneChange(a: seq<Word>, b: seq<Word>, i: nat, val: bool, n: nat)
    requires n <= BITS * |a| && RangeSet(a, b, i, i + 1, val) && i < BITS * |a| && BitAt(a, i) != val
    ensures Count(b, n) == Count(a, n) + if i < n then (if val then 1 else -1) else 0
    decreases n
  {
    if n > 0 {
      CountOneChange(a, b, i, val, n - 1);
      assert BitAt(b, n - 1) == if i <= n - 1 < i + 1 then val else BitAt(a, n - 1);
    }
  }

  lemma {:induction false} CountZero(s: seq<Word>, n: nat)
    requires n <= BITS * |s| && forall i :: 0 <= i < n ==> !BitAt(s, i)
    ensures Count(s, n) == 0
  {
    if n > 0 { CountZero(s, n - 1); }
  }

  /** The mask 1UL << bit. */
  lemma OneBit(bit: nat)
    requires bit < BITS
    ensures Covers(Shl(1, bit), bit, bit + 1)
  {
    var m := Shl(1, bit);
    forall k | 0 <= k < BITS ensures Bit(m, k) <==> k == bit {
      BitShl(1, bit, k);
      if k > bit { BitZero(k - bit - 1); }
    }
  }

  /** The last chunk that a request touches, with C division. */
  function LastChunk(sector: nat, nb: nat): nat { M.LastMarked(M.Write(0, sector, nb)) }

  // ---------------------------------------------------------------- the bitmap as a set of chunks

  /** The chunks of device d among the first n bits. */
  ghost function ChunksUpTo(s: seq<Word>, d: nat, n: nat): set<M.Chunk>
    requires n <= BITS * |s|
  {
    set k: nat | k < n && BitAt(s, k) :: M.Chunk(d, k)
  }

  ghost function Chunks(s: seq<Word>, d: nat): set<M.Chunk> { ChunksUpTo(s, d, BITS * |s|) }

  lemma {:induction false} CountIsSize(s: seq<Word>, d: nat, n: nat)
    requires n <= BITS * |s|
    ensures Count(s, n) == |ChunksUpTo(s, d, n)|
  {
    if n > 0 {
      CountIsSize(s, d, n - 1);
      ChunksNext(s, d, n);
    } else {
      assert ChunksUpTo(s, d, 0) == {};
    }
  }

  lemma ChunksNext(s: seq<Word>, d: nat, n: nat)
    requires 0 < n <= BITS * |s|
    ensures M.Chunk(d, n - 1) !in ChunksUpTo(s, d, n - 1)
    ensures ChunksUpTo(s, d, n) == ChunksUpTo(s, d, n - 1) + if BitAt(s, n - 1) then {M.Chunk(d, n - 1)} else {}
  {
    forall c | c in ChunksUpTo(s, d, n) && c !in ChunksUpTo(s, d, n - 1)
      ensures BitAt(s, n - 1) && c == M.Chunk(d, n - 1)
    {
      var k: nat :| k < n && BitAt(s, k) && c == M.Chunk(d, k);
    }
    forall c | c in ChunksUpTo(s, d, n - 1) ensures c in ChunksUpTo(s, d, n) {
      var k: nat :| k < n - 1 && BitAt(s, k) && c == M.Chunk(d, k);
    }
  }

  /** Changing the bits of a request adds or removes the chunks that it marks. */
  lemma RangeIsMarks(a: seq<Word>, b: seq<Word>, w: M.Write, val: bool)
    requires M.LastMarked(w) < BITS * |a| && RangeSet(a, b, w.first / CHUNK, M.LastMarked(w) + 1, val)
    ensures Chunks(b, w.dev) ==
            if val then Chunks(a, w.dev) + M.MarkedChunks(w) else Chunks(a, w.dev) - M.MarkedChunks(w)
  {
    forall k: nat | k < BITS * |a|
      ensures M.Chunk(w.dev, k) in M.MarkedChunks(w) <==> w.first / CHUNK <= k <= M.LastMarked(w)
    {
    }
  }

  /** The request that bdrv_reset_dirty is called for covers one chunk. */
  lemma ResetMarksOne(d: nat, k: nat, nb: nat)
    requires 0 < nb <= CHUNK
    ensures M.MarkedChunks(M.Write(d, k * CHUNK, nb)) == {M.Chunk(d, k)}
    ensures M.LastMarked(M.Write(d, k * CHUNK, nb)) == k == k * CHUNK / CHUNK
  {
    assert (k * CHUNK + nb - 1) / CHUNK == k;
  }

  // ---------------------------------------------------------------- the calls that a migration makes

  /** What a step does to the bitmap of its device. */
  datatype Call = Nothing | Mark(w: M.Write) | Reset(c: M.Chunk)

  ghost function CallOf(s: M.State, t: M.Step): Call
    requires M.Shape(s) && M.Enabled(s, t)
  {
    match t
    case GuestMark(i) => Mark(s.writes[i])
    case Bulk(d) =>
      if M.BulkStart(s, d) < s.total[d] then Reset(M.Chunk(d, M.BulkStart(s, d) / CHUNK)) else Nothing
    case DirtyAsync(c) => Reset(c)
    case DirtySync(c) => Reset(c)
    case _ => Nothing
  }

  ghost function DirtyOf(s: M.State, d: nat): set<M.Chunk> { set c | c in s.dirty && c.dev == d }

  /** The calls are those of the run. */
  ghost predicate CallsOf(s: M.State, run: seq<M.Step>, calls: seq<Call>)
    decreases |run|
  {
    && M.Shape(s) && |calls| == |run|
    && (run != [] ==>
          M.Enabled(s, run[0]) && calls[0] == CallOf(s, run[0]) && CallsOf(M.Apply(s, run[0]), run[1..], calls[1..]))
  }

  /** The dirty chunks of device d after a call. */
  ghost function Called(dirty: set<M.Chunk>, d: nat, call: Call): set<M.Chunk> {
    match call
    case Nothing => dirty
    case Mark(w) => if w.dev == d then dirty + M.MarkedChunks(w) else dirty
    case Reset(c) => dirty - {c}
  }

  lemma CallIsStep(s: M.State, t: M.Step, d: nat)
    requires M.Shape(s) && M.Enabled(s, t)
    ensures DirtyOf(M.Apply(s, t), d) == Called(DirtyOf(s, d), d, CallOf(s, t))
  {
  }

  /** The chunks of a call lie inside the device. */
  lemma CallFits(s: M.State, t: M.Step)
    requires M.Shape(s) && M.Enabled(s, t)
    ensures var call := CallOf(s, t);
            && (call.Mark? ==> call.w.dev < |s.total| && call.w.first + call.w.count <= s.total[call.w.dev])
            && (call.Reset? ==> call.c.dev < |s.total| && call.c.index * CHUNK < s.total[call.c.dev])
  {
    if t.GuestMark? { assert s.writes[t.i] in s.writes; }
  }

  class Device {
    const dev: nat
    const sectors: nat
    var bitmap: array?<Word>
    var dirtyCount: int

    /** The counter equals the number of set bits. */
    ghost predicate Valid()
      reads this, bitmap
    {
      && (bitmap != null ==> sectors <= BITS * bitmap.Length * CHUNK)
      && dirtyCount == if bitmap == null then 0 else Count(bitmap[..], BITS * bitmap.Length)
    }

    constructor (dev: nat, sectors: nat)
      ensures Valid() && bitmap == null && this.dev == dev && this.sectors == sectors
    {
      this.dev, this.sectors := dev, sectors;
      bitmap := null;
      dirtyCount := 0;
    }

    /** One turn of the loop in set_dirty_bitmap. */
    method SetChunk(start: nat, dirty: bool)
      requires Valid() && bitmap != null && start < BITS * bitmap.Length
      modifies this`dirtyCount, bitmap
      ensures Valid() && RangeSet(old(bitmap[..]), bitmap[..], start, start + 1, dirty)
    {
      var idx, bit := start / BITS, start % BITS;
      var mask := Shl(1, bit);
      var val := bitmap[idx];
      ghost var before := bitmap[..];
      OneBit(bit);
      MaskWord(before, idx, mask, bit, bit + 1, dirty);
      BitTest(val, bit);
      if (And(val, mask) != 0) != dirty {
        dirtyCount := if dirty then dirtyCount + 1 else dirtyCount - 1;
        bitmap[idx] := Masked(val, mask, dirty);
        assert bitmap[..] == before[idx := Masked(val, mask, dirty)];
        CountOneChange(before, bitmap[..], start, dirty, BITS * bitmap.Length);
      }
    }

    /** set_dirty_bitmap: marks or clears every chunk the request touches and nothing else. */
    method SetDirtyBitmap(sector: nat, nb: nat, dirty: bool)
      requires Valid() && bitmap != null && LastChunk(sector, nb) < BITS * bitmap.Length
      modifies this`dirtyCount, bitmap
      ensures Valid()
      ensures RangeSet(old(bitmap[..]), bitmap[..], sector / CHUNK, LastChunk(sector, nb) + 1, dirty)
      ensures var marks := M.MarkedChunks(M.Write(dev, sector, nb));
              Chunks(bitmap[..], dev) ==
                if dirty then old(Chunks(bitmap[..], dev)) + marks
                else old(Chunks(bitmap[..], dev)) - marks
    {
      var start := sector / CHUNK;
      var end := LastChunk(sector, nb);
      while start <= end
        invariant Valid() && sector / CHUNK <= start
        invariant RangeSet(old(bitmap[..]), bitmap[..], sector / CHUNK, start, dirty)
        invariant start <= end + 1 || start == sector / CHUNK
        decreases end + 1 - start
      {
        ghost var mid := bitmap[..];
        SetChunk(start, dirty);
        RangeSetThen(old(bitmap[..]), mid, bitmap[..], sector / CHUNK, start, start + 1, dirty);
        start := start + 1;
      }
      RangeIsMarks(old(bitmap[..]), bitmap[..], M.Write(dev, sector, nb), dirty);
    }

    /** The bitmap holds the dirty chunks of the device in a state of the migration, and the counter their number. */
    ghost predicate Follows(s: M.State)
      reads this, bitmap
    {
      && Valid() && bitmap != null && dev < |s.total| && sectors == s.total[dev]
      && Chunks(bitmap[..], dev) == DirtyOf(s, dev)
    }

    /** set_dirty_bitmap or bdrv_reset_dirty, as a step of the migration calls it. */
    method Do(call: Call, ghost s: M.State, ghost t: M.Step)
      requires M.Shape(s) && M.Enabled(s, t) && call == CallOf(s, t) && Follows(s)
      modifies this`dirtyCount, bitmap
      ensures Follows(M.Apply(s, t))
    {
      CallFits(s, t);
      CallIsStep(s, t, dev);
      match call
      case Nothing =>
      case Mark(w) => if w.dev == dev { SetDirtyBitmap(w.first, w.count, true); }
      case Reset(c) =>
        if c.dev == dev {
          var first := c.index * CHUNK;
          var nb := if sectors - first < CHUNK then sectors - first else CHUNK;
          ResetMarksOne(dev, c.index, nb);
          SetDirtyBitmap(first, nb, false);
        }
    }

    /** In every reachable state of a migration dirty_count is the number of dirty chunks of the device. */
    method DoAll(calls: seq<Call>, ghost s: M.State, ghost run: seq<M.Step>)
      requires Follows(s) && CallsOf(s, run, calls)
      modifies this`dirtyCount, bitmap
      ensures M.Legal(s, run) && Follows(M.Exec(s, run)) && dirtyCount == |DirtyOf(M.Exec(s, run), dev)|
      decreases |run|
    {
      if calls == [] {
        CountIsSize(bitmap[..], dev, BITS * bitmap.Length);
      } else {
        Do(calls[0], s, run[0]);
        DoAll(calls[1..], M.Apply(s, run[0]), run[1..]);
      }
    }

    /** bdrv_get_dirty. */
    method GetDirty(sector: nat) returns (r: bool)
      requires Valid()
      ensures r <==> bitmap != null && sector < sectors && BitAt(bitmap[..], sector / CHUNK)
    {
      if bitmap == null || sector >= sectors { return false; }
      var chunk := sector / CHUNK;
      BitTest(bitmap[chunk / BITS], chunk % BITS);
      r := And(bitmap[chunk / BITS], Shl(1, chunk % BITS)) != 0;
    }

    /** bdrv_set_dirty_tracking. It zeroes the counter even when it keeps a bitmap that is already
        there, so the counter is right afterwards exactly when that bitmap has no bit set. */
    method SetDirtyTracking(enable: bool)
      requires Valid()
      modifies this
      ensures dirtyCount == 0
      ensures !enable ==> bitmap == null && Valid()
      ensures enable && old(bitmap) == null ==>
              bitmap != null && fresh(bitmap) && Valid() && Chunks(bitmap[..], dev) == {}
      ensures enable && old(bitmap) != null ==> bitmap == old(bitmap) && (Valid() <==> old(dirtyCount) == 0)
    {
      dirtyCount := 0;
      if enable {
        if bitmap == null {
          var words := (sectors / CHUNK + 1) / BITS + 1;
          bitmap := new Word[words](_ => 0);
          forall i | 0 <= i < BITS * words ensures !BitAt(bitmap[..], i) { BitZero(i % BITS); }
          CountZero(bitmap[..], BITS * words);
        }
      } else {
        bitmap := null;
      }
    }
  }

  /** Tracking that is enabled twice with a chunk marked in between: the counter says 0 and one bit is set. */
  method MarkedThenEnabledAgain() returns (device: Device)
    ensures !device.Valid() && device.dirtyCount == 0
  {
    device := new Device(0, CHUNK);
    device.SetDirtyTracking(true);
    device.SetDirtyBitmap(0, 1, true);
    CountSome(device.bitmap[..], 0, BITS * device.bitmap.Length);
    device.SetDirtyTracking(true);
  }

  lemma {:induction false} CountSome(s: seq<Word>, i: nat, n: nat)
    requires i < n <= BITS * |s| && BitAt(s, i)
    ensures Count(s, n) > 0
  {
    if i < n - 1 { CountSome(s, i, n - 1); }
  }

  lemma BitTest(val: Word, bit: nat)
    requires bit < BITS
    ensures And(val, Shl(1, bit)) != 0 <==> Bit(val, bit)
  {
    OneBit(bit);
    BitAnd(val, Shl(1, bit), bit);
    if And(val, Shl(1, bit)) != 0 {
      var k := NonzeroBit(And(val, Shl(1, bit)));
      BitAnd(val, Shl(1, bit), k);
    } else {
      BitZero(bit);
    }
  }
}
