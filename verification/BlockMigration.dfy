/** Live block migration: the protocol that copies a disk while the guest keeps writing to it.

    The protocol is a transition system over the state that block-migration.c keeps (cursors,
    outstanding reads, the queue of finished reads, the emitted stream) together with the state it
    shares with the block layer (disk contents, dirty chunks, guest writes in flight). A run is a
    sequence of steps; nothing bounds its length or restricts how guest and migration interleave. */
module BlockMigration {

  /** BDRV_SECTORS_PER_DIRTY_CHUNK. */
  const CHUNK: nat := 2048

  /** What one 512-byte sector holds. */
  type Content = int

  datatype Addr = Addr(dev: nat, sector: nat)

  datatype Chunk = Chunk(dev: nat, index: nat)

  function ChunkOf(a: Addr): Chunk { Chunk(a.dev, a.sector / CHUNK) }

  /** A BlkMigBlock. `buf` holds the sectors that the read has sampled so far. */
  datatype Block = Block(chunk: Chunk, bulk: bool, ret: int, buf: map<nat, Content>)

  /** A guest write request between its submission and the marking of its chunks. */
  datatype Write = Write(dev: nat, first: nat, count: nat)

  predicate Touches(w: Write, a: Addr) {
    w.dev == a.dev && w.first <= a.sector < w.first + w.count
  }

  /** The last chunk that set_dirty_bitmap visits for a request. C division truncates toward zero, so an empty
      request at sector 0 still marks chunk 0. */
  function LastMarked(w: Write): nat {
    if w.first + w.count == 0 then 0 else (w.first + w.count - 1) / CHUNK
  }

  datatype Phase = Live | Final | Done

  datatype State = State(
    total: seq<nat>,            // sectors per device
    shared: bool,               // shared_base
    disk: map<Addr, Content>,
    alloc: set<Addr>,
    dirty: set<Chunk>,          // bs->dirty_bitmap
    inflight: set<Chunk>,       // bmds->aio_bitmap
    cursor: seq<nat>,           // bmds->cur_sector
    writes: seq<Write>,
    pending: seq<Block>,        // submitted, in submission order
    queue: seq<Block>,          // blk_list
    stream: seq<Block>,         // device blocks sent
    submitted: int,
    readDone: int,
    transferred: int,
    phase: Phase,
    dropped: seq<Block>,        // what stage 3 found in blk_list and freed
    error: bool)                // last_error of the file

  predicate InDisk(total: seq<nat>, a: Addr) { a.dev < |total| && a.sector < total[a.dev] }

  predicate InChunk(total: seq<nat>, c: Chunk, k: nat) { c.dev < |total| && k < total[c.dev] && k / CHUNK == c.index }

  ghost predicate Complete(total: seq<nat>, b: Block) {
    forall k: nat :: InChunk(total, b.chunk, k) ==> k in b.buf
  }

  predicate BulkCompleted(s: State) {
    |s.cursor| == |s.total| && forall d :: 0 <= d < |s.total| ==> s.cursor[d] == s.total[d]
  }

  /** The loop over bdrv_is_allocated: it stops at the first allocated sector, whatever run lengths
      the driver reports. */
  function FirstAllocated(alloc: set<Addr>, d: nat, k: nat, total: nat): (r: nat)
    requires k <= total
    ensures k <= r <= total
    ensures forall j: nat :: k <= j < r ==> Addr(d, j) !in alloc
    ensures r < total ==> Addr(d, r) in alloc
    decreases total - k
  {
    if k == total || Addr(d, k) in alloc then k else FirstAllocated(alloc, d, k + 1, total)
  }

  function BulkStart(s: State, d: nat): nat
    requires d < |s.cursor| && d < |s.total| && s.cursor[d] <= s.total[d]
  {
    if s.shared then FirstAllocated(s.alloc, d, s.cursor[d], s.total[d]) else s.cursor[d]
  }

  function Min(a: nat, b: nat): nat { if a < b then a else b }

  /** Fail sets the error of the file: a read was refused or failed, or a failed one was found in the queue. */
  datatype Step =
    | GuestBegin(w: Write)
    | GuestLand(i: nat, a: Addr, v: Content)
    | GuestMark(i: nat)
    | Bulk(d: nat)
    | DirtyAsync(c: Chunk)
    | Sample(i: nat, k: nat)
    | ReadCb(i: nat, ret: int)
    | Flush
    | Stage3
    | DirtySync(c: Chunk)
    | Fail
    | Finish

  ghost predicate Enabled(s: State, t: Step) {
    match t
    case GuestBegin(w) => s.phase == Live && w.dev < |s.total| && w.first + w.count <= s.total[w.dev]
    case GuestLand(i, a, _) => i < |s.writes| && Touches(s.writes[i], a)
    case GuestMark(i) => i < |s.writes|
    case Bulk(d) => s.phase == Live && d < |s.total| == |s.cursor| && s.cursor[d] < s.total[d]
    case DirtyAsync(c) => s.phase == Live && BulkCompleted(s) && c in s.dirty && c !in s.inflight
    case Sample(i, k) => i < |s.pending| && InChunk(s.total, s.pending[i].chunk, k) && k !in s.pending[i].buf
                         && Addr(s.pending[i].chunk.dev, k) in s.disk
    case ReadCb(i, ret) => i < |s.pending| && (ret >= 0 ==> Complete(s.total, s.pending[i]))
    case Flush => s.phase == Live && s.queue != [] && s.queue[0].ret >= 0 && !s.error
    case Stage3 => s.phase == Live && BulkCompleted(s) && s.submitted == 0 && s.writes == [] && !s.error
    case DirtySync(c) => s.phase == Final && c in s.dirty
    case Fail => s.phase != Done
    case Finish => s.phase == Final && s.dirty == {}
  }

  function Remove<T>(q: seq<T>, i: nat): seq<T>
    requires i < |q|
  {
    q[..i] + q[i + 1..]
  }

  /** The sectors of a chunk as they are on the disk now. */
  function Snapshot(s: State, c: Chunk): (m: map<nat, Content>)
  {
    map a | a in s.disk && ChunkOf(a) == c :: a.sector := s.disk[a]
  }

  function MarkedChunks(w: Write): set<Chunk> {
    set k: nat | w.first / CHUNK <= k <= LastMarked(w) :: Chunk(w.dev, k)
  }

  /** A write marks the chunks of the sectors it touches; an empty one, which touches none, marks at most one. */
  lemma MarkedIsTouched(w: Write, c: Chunk)
    ensures w.count > 0 ==> (c in MarkedChunks(w) <==> exists a :: Touches(w, a) && ChunkOf(a) == c)
    ensures w.count == 0 ==>
              (c in MarkedChunks(w) <==> c == Chunk(w.dev, w.first / CHUNK) && (w.first % CHUNK != 0 || w.first == 0))
  {
    var k := c.index * CHUNK;
    var a := Addr(w.dev, if k < w.first then w.first else k);
    if w.count > 0 && c in MarkedChunks(w) {
      assert Touches(w, a) && ChunkOf(a) == c;
    }
  }

  ghost function Apply(s: State, t: Step): State
    requires Enabled(s, t)
  {
    match t
    case GuestBegin(w) => s.(writes := s.writes + [w])
    case GuestLand(_, a, v) => s.(disk := s.disk[a := v], alloc := s.alloc + {a})
    case GuestMark(i) => s.(writes := Remove(s.writes, i), dirty := s.dirty + MarkedChunks(s.writes[i]))
    case Bulk(d) =>
      var start := BulkStart(s, d);
      if start >= s.total[d] then s.(cursor := s.cursor[d := s.total[d]])
      else
        var c := Chunk(d, start / CHUNK);
        s.(pending := s.pending + [Block(c, true, 0, map[])],
           submitted := s.submitted + 1,
           dirty := s.dirty - {c},
           cursor := s.cursor[d := Min((c.index + 1) * CHUNK, s.total[d])])
    case DirtyAsync(c) =>
      s.(pending := s.pending + [Block(c, false, 0, map[])],
         submitted := s.submitted + 1,
         inflight := s.inflight + {c},
         dirty := s.dirty - {c})
    case Sample(i, k) =>
      var b := s.pending[i];
      s.(pending := s.pending[i := b.(buf := b.buf[k := s.disk[Addr(b.chunk.dev, k)]])])
    case ReadCb(i, ret) =>
      s.(pending := Remove(s.pending, i),
         queue := s.queue + [s.pending[i].(ret := ret)],
         inflight := s.inflight - {s.pending[i].chunk},
         submitted := s.submitted - 1,
         readDone := s.readDone + 1)
    case Flush =>
      s.(queue := s.queue[1..],
         stream := s.stream + [s.queue[0]],
         readDone := s.readDone - 1,
         transferred := s.transferred + 1)
    case Stage3 => s.(phase := Final, dropped := s.queue, queue := [])
    case DirtySync(c) =>
      s.(stream := if s.error then s.stream else s.stream + [Block(c, false, 0, Snapshot(s, c))],
         dirty := s.dirty - {c})
    case Fail => s.(error := true)
    case Finish => s.(phase := Done)
  }

  // ---------------------------------------------------------------- runs

  ghost predicate Legal(s: State, run: seq<Step>)
    decreases |run|
  {
    run == [] || (Enabled(s, run[0]) && Legal(Apply(s, run[0]), run[1..]))
  }

  ghost function Exec(s: State, run: seq<Step>): State
    requires Legal(s, run)
    decreases |run|
  {
    if run == [] then s else Exec(Apply(s, run[0]), run[1..])
  }

  // ---------------------------------------------------------------- the receiver

  /** The content the receiver ends up with for `a` if it writes `copies` in order; None while the
      newest copy has not sampled `a` yet. */
  function Latest(copies: seq<Block>, a: Addr, was: Option): Option {
    if copies == [] then was
    else
      var b := copies[|copies| - 1];
      if b.chunk == ChunkOf(a) then Held(b, a) else Latest(copies[..|copies| - 1], a, was)
  }

  function Held(b: Block, a: Addr): Option { if a.sector in b.buf then Some(b.buf[a.sector]) else None }

  datatype Option = None | Some(v: Content)

  /** block_load on the device blocks of a stream. */
  function Replay(stream: seq<Block>, dst: map<Addr, Content>): map<Addr, Content>
    decreases |stream|
  {
    if stream == [] then dst else Replay(stream[1..], Load(dst, stream[0]))
  }

  /** bdrv_write of one received block: it covers the sectors of the chunk that the device has. */
  function Load(dst: map<Addr, Content>, b: Block): map<Addr, Content> {
    map a | a in dst :: if ChunkOf(a) == b.chunk && a.sector in b.buf then b.buf[a.sector] else dst[a]
  }

  // ---------------------------------------------------------------- the invariant

  /** The copies of sectors that were begun, in the order of submission, each with what it has sampled so far; which of
      them have been queued or sent, in that order; and which are outstanding, as in `pending`. */
  datatype Log = Log(copies: seq<Block>, done: seq<nat>, out: seq<nat>)

  const NO_COPIES := Log([], [], [])

  ghost function Logged(s: State, g: Log, t: Step): Log
    requires Enabled(s, t)
  {
    var r, n := Apply(s, t), |g.copies|;
    match t
    case Bulk(_) =>
      if |r.pending| == |s.pending| then g
      else g.(copies := g.copies + [r.pending[|s.pending|]], out := g.out + [n])
    case DirtyAsync(c) => g.(copies := g.copies + [Block(c, false, 0, map[])], out := g.out + [n])
    case Sample(i, _) =>
      if i < |g.out| && g.out[i] < n then g.(copies := g.copies[g.out[i] := r.pending[i]]) else g
    case ReadCb(i, _) => if i < |g.out| then g.(done := g.done + [g.out[i]], out := Remove(g.out, i)) else g
    case DirtySync(c) => g.(copies := g.copies + [Block(c, false, 0, Snapshot(s, c))], done := g.done + [n])
    case _ => g
  }

  ghost function LogAfter(s: State, g: Log, run: seq<Step>): Log
    requires Legal(s, run)
    decreases |run|
  {
    if run == [] then g else LogAfter(Apply(s, run[0]), Logged(s, g, run[0]), run[1..])
  }

  /** The outstanding copies are those of `pending`, and only chunks behind the cursor have been copied. */
  ghost predicate Matches(s: State, g: Log) {
    && |g.out| == |s.pending|
    && (forall i :: 0 <= i < |g.out| ==> g.out[i] < |g.copies| && g.copies[g.out[i]] == s.pending[i])
    && (forall i, j :: 0 <= i < j < |g.out| ==> g.out[i] < g.out[j])
    && (forall b :: b in g.copies ==> Behind(s, b.chunk))
  }

  /** submitted and read_done count the outstanding and the queued reads. */
  ghost predicate Counted(s: State) {
    && s.submitted == |s.pending|
    && s.readDone == |s.queue| + |s.dropped|
    && (s.phase == Live ==> s.dropped == [])
    && (s.phase != Live ==> s.queue == [] && s.pending == [] && s.writes == [])
    && (s.phase == Done ==> s.dirty == {})
  }

  ghost predicate Shape(s: State) {
    && Counted(s)
    && |s.cursor| == |s.total|
    && (forall d :: 0 <= d < |s.total| ==> 0 < s.total[d])
    && (forall d :: 0 <= d < |s.total| ==>
        s.cursor[d] <= s.total[d] && (s.cursor[d] % CHUNK == 0 || s.cursor[d] == s.total[d]))
    && (forall a :: a in s.disk <==> InDisk(s.total, a))
    && (forall w :: w in s.writes ==> w.dev < |s.total| && w.first + w.count <= s.total[w.dev])
    && (forall c :: c in s.dirty ==> c.dev < |s.total| && c.index * CHUNK < s.total[c.dev])
    && (s.phase != Live ==> BulkCompleted(s))
  }

  /** The chunk starts behind the bulk cursor, so it has been read at least once. */
  predicate Behind(s: State, c: Chunk) {
    c.dev < |s.cursor| && c.index * CHUNK < s.cursor[c.dev]
  }

  predicate Written(s: State, a: Addr) { exists i :: 0 <= i < |s.writes| && Touches(s.writes[i], a) }

  predicate UpToDate(s: State, g: Log, a: Addr, was: map<Addr, Content>)
    requires a in s.disk && a in was
  {
    var v := Latest(g.copies, a, Some(was[a]));
    v == None || v == Some(s.disk[a])
  }

  /** The sector is dirty, or has a write that is not marked yet, or the copy of it that was submitted last has still to
      sample it, or that copy equals the source. */
  ghost predicate Safe(s: State, g: Log, a: Addr, was: map<Addr, Content>)
    requires a in s.disk && a in was
  {
    ChunkOf(a) in s.dirty || Written(s, a) || UpToDate(s, g, a, was)
  }

  /** The invariant of the protocol. With a shared base the destination already has every sector
      that the overlay does not allocate. */
  ghost predicate Converging(s: State, g: Log, was: map<Addr, Content>)
    requires Shape(s)
  {
    && s.disk.Keys <= was.Keys
    && (forall a :: a in s.disk && a.sector < s.cursor[a.dev] ==> Safe(s, g, a, was))
    && (s.shared ==> forall a :: a in s.disk && a !in s.alloc ==> s.disk[a] == was[a])
  }

  // ---------------------------------------------------------------- the newest copy

  lemma {:induction false} LatestConcat(x: seq<Block>, y: seq<Block>, a: Addr, was: Option)
    ensures Latest(x + y, a, was) == Latest(y, a, Latest(x, a, was))
  {
    if y == [] {
      assert x + y == x;
    } else {
      var n := |y| - 1;
      assert (x + y)[..|x + y| - 1] == x + y[..n];
      LatestConcat(x, y[..n], a, was);
    }
  }

  lemma {:induction false} LatestUncovered(cs: seq<Block>, a: Addr, was: Option)
    requires forall b :: b in cs ==> b.chunk != ChunkOf(a)
    ensures Latest(cs, a, was) == was
  {
    if cs != [] {
      LatestUncovered(cs[..|cs| - 1], a, was);
    }
  }

  /** Filling one more sector of one copy changes the newest copy of that sector only. */
  lemma {:induction false} LatestFill(cs: seq<Block>, i: nat, k: nat, v: Content, a: Addr, was: Option)
    requires i < |cs|
    ensures var b := cs[i]; var ds := cs[i := b.(buf := b.buf[k := v])];
            || Latest(ds, a, was) == Latest(cs, a, was)
            || (a == Addr(b.chunk.dev, k) && Latest(ds, a, was) == Some(v))
  {
    var n := |cs| - 1;
    var b := cs[i];
    var ds := cs[i := b.(buf := b.buf[k := v])];
    if i < n {
      assert ds[..n] == cs[..n][i := b.(buf := b.buf[k := v])];
      LatestFill(cs[..n], i, k, v, a, was);
    } else {
      assert ds[..n] == cs[..n];
    }
  }

  // ---------------------------------------------------------------- every step keeps the shape

  lemma ShapeKept(s: State, t: Step)
    requires Shape(s) && Enabled(s, t)
    ensures Shape(Apply(s, t))
  {
    match t
    case GuestBegin(_) => ShapeGuest(s, t);
    case GuestLand(_, _, _) => ShapeGuest(s, t);
    case GuestMark(_) => ShapeGuest(s, t);
    case Bulk(d) => ShapeBulk(s, d);
    case _ =>
  }

  lemma ShapeGuest(s: State, t: Step)
    requires Shape(s) && Enabled(s, t) && (t.GuestBegin? || t.GuestLand? || t.GuestMark?)
    ensures Shape(Apply(s, t))
  {
    if !t.GuestBegin? { assert s.writes[t.i] in s.writes; }
  }

  lemma ShapeBulk(s: State, d: nat)
    requires Shape(s) && Enabled(s, Bulk(d))
    ensures Shape(Apply(s, Bulk(d)))
  {
    assert s.cursor[d] <= Apply(s, Bulk(d)).cursor[d];
  }

  // ---------------------------------------------------------------- every step keeps convergence

  lemma MatchesKept(s: State, g: Log, t: Step)
    requires Shape(s) && Matches(s, g) && Enabled(s, t)
    ensures Matches(Apply(s, t), Logged(s, g, t))
  {
    match t
    case Bulk(d) => MatchesBulk(s, g, d);
    case DirtyAsync(c) => MatchesDirty(s, g, t);
    case DirtySync(c) => MatchesDirty(s, g, t);
    case Sample(i, k) => MatchesSample(s, g, i, k);
    case ReadCb(i, ret) => MatchesReadCb(s, g, i, ret);
    case _ => MatchesOther(s, g, t);
  }

  lemma MatchesOther(s: State, g: Log, t: Step)
    requires Matches(s, g) && Enabled(s, t) && !t.Bulk? && !t.DirtyAsync? && !t.DirtySync? && !t.Sample? && !t.ReadCb?
    ensures Matches(Apply(s, t), Logged(s, g, t))
  {
    var r := Apply(s, t);
    assert Logged(s, g, t) == g && r.pending == s.pending && r.cursor == s.cursor;
  }

  lemma MatchesDirty(s: State, g: Log, t: Step)
    requires Shape(s) && Matches(s, g) && Enabled(s, t) && (t.DirtyAsync? || t.DirtySync?)
    ensures Matches(Apply(s, t), Logged(s, g, t))
  {
    assert Behind(s, t.c);
  }

  lemma MatchesSample(s: State, g: Log, i: nat, k: nat)
    requires Matches(s, g) && Enabled(s, Sample(i, k))
    ensures Matches(Apply(s, Sample(i, k)), Logged(s, g, Sample(i, k)))
  {
    var r, h := Apply(s, Sample(i, k)), Logged(s, g, Sample(i, k));
    assert g.copies[g.out[i]] in g.copies;
    assert forall b :: b in h.copies ==> b in g.copies || b == r.pending[i];
  }

  lemma MatchesReadCb(s: State, g: Log, i: nat, ret: int)
    requires Matches(s, g) && Enabled(s, ReadCb(i, ret))
    ensures Matches(Apply(s, ReadCb(i, ret)), Logged(s, g, ReadCb(i, ret)))
  {
    var r, h := Apply(s, ReadCb(i, ret)), Logged(s, g, ReadCb(i, ret));
    assert forall j :: 0 <= j < |h.out| ==> h.out[j] == g.out[if j < i then j else j + 1];
    assert forall j :: 0 <= j < |h.out| ==> r.pending[j] == s.pending[if j < i then j else j + 1];
  }

  lemma MatchesBulk(s: State, g: Log, d: nat)
    requires Shape(s) && Matches(s, g) && Enabled(s, Bulk(d))
    ensures Matches(Apply(s, Bulk(d)), Logged(s, g, Bulk(d)))
  {
    var r, h := Apply(s, Bulk(d)), Logged(s, g, Bulk(d));
    assert s.cursor[d] <= r.cursor[d];
    forall b | b in h.copies ensures Behind(r, b.chunk) {
      if b in g.copies { assert Behind(s, b.chunk); }
    }
  }

  lemma ConvergingGuest(s: State, g: Log, t: Step, was: map<Addr, Content>)
    requires Shape(s) && Converging(s, g, was) && Enabled(s, t) && (t.GuestBegin? || t.GuestLand? || t.GuestMark?)
    requires Shape(Apply(s, t))
    ensures Converging(Apply(s, t), g, was)
  {
    var r := Apply(s, t);
    forall a | a in r.disk && a.sector < r.cursor[a.dev] ensures Safe(r, g, a, was) {
      if t.GuestLand? && a == t.a {
        assert Touches(r.writes[t.i], a);
      } else if Written(s, a) {
        WrittenKept(s, t, a);
      } else {
        assert Safe(s, g, a, was);
      }
    }
  }

  lemma WrittenKept(s: State, t: Step, a: Addr)
    requires Enabled(s, t) && (t.GuestBegin? || t.GuestLand? || t.GuestMark?) && Written(s, a)
    ensures Written(Apply(s, t), a) || ChunkOf(a) in Apply(s, t).dirty
  {
    var r := Apply(s, t);
    var j :| 0 <= j < |s.writes| && Touches(s.writes[j], a);
    if t.GuestMark? && j >= t.i {
      if j == t.i {
        MarkedIsTouched(s.writes[j], ChunkOf(a));
      } else {
        assert r.writes[j - 1] == s.writes[j];
      }
    } else {
      assert r.writes[j] == s.writes[j];
    }
  }

  /** One more copy: the newest of its chunk, and of no other. */
  lemma LatestAppend(cs: seq<Block>, b: Block, a: Addr, was: Option)
    ensures Latest(cs + [b], a, was) == if b.chunk == ChunkOf(a) then Held(b, a) else Latest(cs, a, was)
  {
    assert (cs + [b])[..|cs|] == cs;
  }

  lemma ConvergingBulk(s: State, g: Log, d: nat, was: map<Addr, Content>)
    requires Shape(s) && Matches(s, g) && Converging(s, g, was) && Enabled(s, Bulk(d))
    requires Shape(Apply(s, Bulk(d)))
    ensures Converging(Apply(s, Bulk(d)), Logged(s, g, Bulk(d)), was)
  {
    var r, h := Apply(s, Bulk(d)), Logged(s, g, Bulk(d));
    forall a | a in r.disk && a.sector < r.cursor[a.dev] ensures Safe(r, h, a, was) {
      if a.sector < s.cursor[a.dev] { BulkBehind(s, g, d, a, was); } else { BulkReached(s, g, d, a, was); }
    }
  }

  lemma BulkBehind(s: State, g: Log, d: nat, a: Addr, was: map<Addr, Content>)
    requires Shape(s) && Converging(s, g, was) && Enabled(s, Bulk(d)) && a in s.disk && a.sector < s.cursor[a.dev]
    ensures Safe(Apply(s, Bulk(d)), Logged(s, g, Bulk(d)), a, was)
  {
    var r := Apply(s, Bulk(d));
    assert Safe(s, g, a, was);
    assert Written(s, a) ==> Written(r, a);
    if |r.pending| > |s.pending| { LatestAppend(g.copies, r.pending[|s.pending|], a, Some(was[a])); }
  }

  lemma BulkReached(s: State, g: Log, d: nat, a: Addr, was: map<Addr, Content>)
    requires Shape(s) && Matches(s, g) && Converging(s, g, was) && Enabled(s, Bulk(d))
    requires a in s.disk && s.cursor[a.dev] <= a.sector < Apply(s, Bulk(d)).cursor[a.dev]
    ensures Safe(Apply(s, Bulk(d)), Logged(s, g, Bulk(d)), a, was)
  {
    var r := Apply(s, Bulk(d));
    BulkSkipped(s, g, d, a, was);
    if |r.pending| > |s.pending| { LatestAppend(g.copies, r.pending[|s.pending|], a, Some(was[a])); }
  }

  /** A sector that the bulk cursor passes is either in the chunk being read or, with a shared base,
      unallocated and therefore already at the destination. */
  lemma BulkSkipped(s: State, g: Log, d: nat, a: Addr, was: map<Addr, Content>)
    requires Shape(s) && Matches(s, g) && Converging(s, g, was) && Enabled(s, Bulk(d))
    requires a in s.disk && s.cursor[a.dev] <= a.sector < Apply(s, Bulk(d)).cursor[a.dev]
    ensures var start := BulkStart(s, d);
            || (start < s.total[d] && ChunkOf(a) == Chunk(d, start / CHUNK))
            || (s.disk[a] == was[a] && Latest(g.copies, a, Some(was[a])) == Some(was[a]))
  {
    var start := BulkStart(s, d);
    if !(start < s.total[d] && ChunkOf(a) == Chunk(d, start / CHUNK)) {
      assert a.sector < start;
      assert s.shared && Addr(d, a.sector) !in s.alloc;
      forall b | b in g.copies ensures b.chunk != ChunkOf(a) {
        assert Behind(s, b.chunk);
      }
      LatestUncovered(g.copies, a, Some(was[a]));
    }
  }

  /** The sector at which the next bulk read of device d is to begin: the cursor or, with a shared base, the first
      allocated sector from there on; the end of the device if there is none. */
  ghost predicate BeginsAt(s: State, d: nat, k: nat)
    requires d < |s.total| && d < |s.cursor|
  {
    && s.cursor[d] <= k <= s.total[d]
    && (!s.shared ==> k == s.cursor[d])
    && (s.shared ==> (forall j: nat :: s.cursor[d] <= j < k ==> Addr(d, j) !in s.alloc))
    && (s.shared && k < s.total[d] ==> Addr(d, k) in s.alloc)
  }

  /** One bulk step: nothing is read if nothing is left to read; otherwise exactly the chunk of that sector, which is
      then clean, and the cursor goes to the end of the chunk. */
  lemma BulkReads(s: State, d: nat, k: nat)
    requires Shape(s) && Enabled(s, Bulk(d)) && BeginsAt(s, d, k)
    ensures Apply(s, Bulk(d)) ==
            if k == s.total[d] then s.(cursor := s.cursor[d := k])
            else s.(pending := s.pending + [Block(Chunk(d, k / CHUNK), true, 0, map[])],
                    submitted := s.submitted + 1,
                    dirty := s.dirty - {Chunk(d, k / CHUNK)},
                    cursor := s.cursor[d := Min((k / CHUNK + 1) * CHUNK, s.total[d])])
  {
    assert BulkStart(s, d) == k;
  }

  /** There is exactly one such sector. */
  lemma BulkBegins(s: State, d: nat) returns (k: nat)
    requires Shape(s) && d < |s.total|
    ensures BeginsAt(s, d, k) && forall j: nat :: BeginsAt(s, d, j) ==> j == k
  {
    k := BulkStart(s, d);
  }

  lemma ConvergingDirty(s: State, g: Log, t: Step, was: map<Addr, Content>)
    requires Shape(s) && Converging(s, g, was) && Enabled(s, t) && (t.DirtyAsync? || t.DirtySync?)
    requires Shape(Apply(s, t))
    ensures Converging(Apply(s, t), Logged(s, g, t), was)
  {
    var r, h := Apply(s, t), Logged(s, g, t);
    forall a | a in r.disk && a.sector < r.cursor[a.dev] ensures Safe(r, h, a, was) {
      assert Safe(s, g, a, was);
      assert Written(s, a) ==> Written(r, a);
      LatestAppend(g.copies, h.copies[|g.copies|], a, Some(was[a]));
      if ChunkOf(a) == t.c { SnapshotHolds(s, a); }
    }
  }

  lemma SnapshotHolds(s: State, a: Addr)
    requires a in s.disk
    ensures a.sector in Snapshot(s, ChunkOf(a)) && Snapshot(s, ChunkOf(a))[a.sector] == s.disk[a]
  {
  }

  lemma ConvergingSample(s: State, g: Log, i: nat, k: nat, was: map<Addr, Content>)
    requires Shape(s) && Matches(s, g) && Converging(s, g, was) && Enabled(s, Sample(i, k))
    requires Shape(Apply(s, Sample(i, k)))
    ensures Converging(Apply(s, Sample(i, k)), Logged(s, g, Sample(i, k)), was)
  {
    var r, h := Apply(s, Sample(i, k)), Logged(s, g, Sample(i, k));
    var v := s.disk[Addr(s.pending[i].chunk.dev, k)];
    forall a | a in r.disk && a.sector < r.cursor[a.dev] ensures Safe(r, h, a, was) {
      LatestFill(g.copies, g.out[i], k, v, a, Some(was[a]));
      assert Safe(s, g, a, was);
      assert Written(s, a) ==> Written(r, a);
    }
  }

  /** Completions, in whatever order, and sending leave the copies as they are. */
  lemma ConvergingSend(s: State, g: Log, t: Step, was: map<Addr, Content>)
    requires Shape(s) && Converging(s, g, was) && Enabled(s, t)
    requires t.ReadCb? || t.Flush? || t.Stage3? || t.Fail? || t.Finish?
    requires Shape(Apply(s, t))
    ensures Converging(Apply(s, t), Logged(s, g, t), was)
  {
    var r, h := Apply(s, t), Logged(s, g, t);
    forall a | a in r.disk && a.sector < r.cursor[a.dev] ensures Safe(r, h, a, was) {
      assert Safe(s, g, a, was);
      assert Written(s, a) ==> Written(r, a);
    }
  }

  /** One step, of the guest or of the migration, in any state the protocol can be in. */
  lemma ConvergingKept(s: State, g: Log, t: Step, was: map<Addr, Content>)
    requires Shape(s) && Matches(s, g) && Converging(s, g, was) && Enabled(s, t)
    ensures Shape(Apply(s, t)) && Converging(Apply(s, t), Logged(s, g, t), was)
  {
    ShapeKept(s, t);
    match t
    case GuestBegin(_) => ConvergingGuest(s, g, t, was);
    case GuestLand(_, _, _) => ConvergingGuest(s, g, t, was);
    case GuestMark(_) => ConvergingGuest(s, g, t, was);
    case Bulk(d) => ConvergingBulk(s, g, d, was);
    case DirtyAsync(_) => ConvergingDirty(s, g, t, was);
    case DirtySync(_) => ConvergingDirty(s, g, t, was);
    case Sample(i, k) => ConvergingSample(s, g, i, k, was);
    case ReadCb(_, _) => ConvergingSend(s, g, t, was);
    case Flush => ConvergingSend(s, g, t, was);
    case Stage3 => ConvergingSend(s, g, t, was);
    case Fail => ConvergingSend(s, g, t, was);
    case Finish => ConvergingSend(s, g, t, was);
  }

  // ---------------------------------------------------------------- what is sent is complete

  ghost predicate Filled(s: State) {
    && (forall b :: b in s.stream ==> Complete(s.total, b))
    && (forall b :: b in s.queue && b.ret >= 0 ==> Complete(s.total, b))
  }

  lemma FilledKept(s: State, t: Step)
    requires Shape(s) && Filled(s) && Enabled(s, t)
    ensures Filled(Apply(s, t))
  {
    if t.DirtySync? {
      SnapshotComplete(s, t.c);
    } else if t.Flush? {
      assert s.queue[0] in s.queue;
    }
  }

  /** As long as no read has failed, the copies that are not outstanding are complete. */
  ghost predicate LogFilled(s: State, g: Log) {
    s.phase == Live && (forall b :: b in s.queue ==> b.ret >= 0) ==>
      forall j :: 0 <= j < |g.copies| && j !in g.out ==> Complete(s.total, g.copies[j])
  }

  lemma LogFilledKept(s: State, g: Log, t: Step)
    requires Shape(s) && Matches(s, g) && LogFilled(s, g) && Enabled(s, t)
    ensures LogFilled(Apply(s, t), Logged(s, g, t))
  {
    var r, h := Apply(s, t), Logged(s, g, t);
    if r.phase == Live && forall b :: b in r.queue ==> b.ret >= 0 {
      QueueBefore(s, t);
      forall j | 0 <= j < |h.copies| && j !in h.out ensures Complete(r.total, h.copies[j]) {
        if t.ReadCb? {
          assert r.queue[|s.queue|].ret == t.ret;
          assert j in g.out ==> j == g.out[t.i];
        } else if t.Sample? {
          assert g.out[t.i] in g.out;
        } else if h.out != g.out {
          assert h.out == g.out + [|g.copies|];
        }
      }
    }
  }

  lemma QueueBefore(s: State, t: Step)
    requires Enabled(s, t) && Apply(s, t).phase == Live && forall b :: b in Apply(s, t).queue ==> b.ret >= 0
    ensures s.phase == Live && forall b :: b in s.queue ==> b.ret >= 0
  {
    var r := Apply(s, t);
    forall b | b in s.queue ensures b.ret >= 0 {
      if t.Flush? { assert s.queue == [s.queue[0]] + r.queue; } else { assert b in r.queue; }
    }
  }

  lemma SnapshotComplete(s: State, c: Chunk)
    requires Shape(s)
    ensures Complete(s.total, Block(c, false, 0, Snapshot(s, c)))
  {
    forall k: nat | InChunk(s.total, c, k) ensures k in Snapshot(s, c) {
      SnapshotHolds(s, Addr(c.dev, k));
    }
  }

  /** Replaying complete blocks leaves each sector with its newest copy. */
  lemma {:induction false} ReplayIsLatest(total: seq<nat>, stream: seq<Block>, dst: map<Addr, Content>, a: Addr)
    requires InDisk(total, a) && a in dst
    requires forall b :: b in stream ==> Complete(total, b)
    ensures Replay(stream, dst).Keys == dst.Keys
    ensures Latest(stream, a, Some(dst[a])) == Some(Replay(stream, dst)[a])
    decreases |stream|
  {
    if stream != [] {
      var b := stream[0];
      assert b in stream;
      assert stream == [b] + stream[1..];
      assert InChunk(total, ChunkOf(a), a.sector);
      LatestConcat([b], stream[1..], a, Some(dst[a]));
      ReplayIsLatest(total, stream[1..], Load(dst, b), a);
      assert Load(dst, b).Keys == dst.Keys;
    }
  }

  lemma {:induction false} FilledHolds(s: State, run: seq<Step>)
    requires Shape(s) && Filled(s) && Legal(s, run)
    ensures Filled(Exec(s, run))
    decreases |run|
  {
    if run != [] {
      ShapeKept(s, run[0]);
      FilledKept(s, run[0]);
      FilledHolds(Apply(s, run[0]), run[1..]);
    }
  }

  // ---------------------------------------------------------------- whole runs

  /** The state after stage 1: dirty tracking is on, nothing has been read. Guest writes may already be
      in flight and chunks may already be dirty. `was` is the destination before migration. */
  ghost predicate Init(s: State, was: map<Addr, Content>) {
    && Shape(s)
    && s.phase == Live
    && (forall d :: 0 <= d < |s.cursor| ==> s.cursor[d] == 0)
    && s.stream == [] && s.queue == [] && s.pending == [] && s.inflight == {}
    && s.transferred == 0 && !s.error
    && was.Keys == s.disk.Keys
    && (s.shared ==> forall a :: a in s.disk && a !in s.alloc ==> s.disk[a] == was[a])
  }

  ghost predicate Inv(s: State, g: Log, was: map<Addr, Content>) {
    && Shape(s) && Matches(s, g) && Converging(s, g, was)
    && Filled(s) && LogFilled(s, g) && was.Keys == s.disk.Keys
  }

  lemma InvKept(s: State, g: Log, t: Step, was: map<Addr, Content>)
    requires Inv(s, g, was) && Enabled(s, t)
    ensures Inv(Apply(s, t), Logged(s, g, t), was)
  {
    ConvergingKept(s, g, t, was);
    MatchesKept(s, g, t);
    FilledKept(s, t);
    LogFilledKept(s, g, t);
    assert Apply(s, t).total == s.total;
    assert Apply(s, t).disk.Keys == s.disk.Keys;
  }

  lemma {:induction false} InvHolds(s: State, g: Log, run: seq<Step>, was: map<Addr, Content>)
    requires Inv(s, g, was) && Legal(s, run)
    ensures Inv(Exec(s, run), LogAfter(s, g, run), was)
    decreases |run|
  {
    if run != [] {
      InvKept(s, g, run[0], was);
      InvHolds(Apply(s, run[0]), Logged(s, g, run[0]), run[1..], was);
    }
  }

  lemma FinalStep(s: State, t: Step, a: Addr, was: Option)
    requires Shape(s) && s.phase != Live && Enabled(s, t) && a in s.disk
    ensures var r := Apply(s, t);
            && r.phase != Live && r.disk == s.disk && r.total == s.total && r.dropped == s.dropped && r.dirty <= s.dirty
            && Latest(r.stream, a, was) ==
                 if ChunkOf(a) in s.dirty && ChunkOf(a) !in r.dirty && !s.error then Some(s.disk[a])
                 else Latest(s.stream, a, was)
  {
    if t.DirtySync? && !s.error {
      var b := Block(t.c, false, 0, Snapshot(s, t.c));
      LatestConcat(s.stream, [b], a, was);
      if ChunkOf(a) == t.c { SnapshotHolds(s, a); } else { LatestUncovered([b], a, Latest(s.stream, a, was)); }
    }
  }

  /** The chunks that are still dirty when the file gets an error; after that nothing is sent. */
  ghost function Unsent(s: State, run: seq<Step>): set<Chunk>
    requires Legal(s, run)
    decreases |run|
  {
    if s.error then s.dirty else if run == [] then {} else Unsent(Apply(s, run[0]), run[1..])
  }

  lemma {:induction false} NothingUnsent(s: State, run: seq<Step>)
    requires Legal(s, run) && !Exec(s, run).error
    ensures Unsent(s, run) == {}
    decreases |run|
  {
    if s.error {
      ErrorStays(s, run);
    } else if run != [] {
      NothingUnsent(Apply(s, run[0]), run[1..]);
    }
  }

  lemma {:induction false} ErrorStays(s: State, run: seq<Step>)
    requires Legal(s, run) && s.error
    ensures Exec(s, run).error
    decreases |run|
  {
    if run != [] { ErrorStays(Apply(s, run[0]), run[1..]); }
  }

  /** After stage 3 has begun only the chunks that are still dirty are sent, each as it is on the disk, and only as long
      as the file has no error. */
  lemma {:induction false} FinalRun(s: State, run: seq<Step>, a: Addr, was: Option)
    requires Shape(s) && s.phase != Live && Legal(s, run) && a in s.disk
    ensures var r := Exec(s, run);
            && r.disk == s.disk && r.total == s.total && r.dropped == s.dropped && r.dirty <= s.dirty
            && Unsent(s, run) <= s.dirty
            && Latest(r.stream, a, was) ==
                 if ChunkOf(a) in s.dirty && ChunkOf(a) !in r.dirty && ChunkOf(a) !in Unsent(s, run)
                 then Some(s.disk[a]) else Latest(s.stream, a, was)
    decreases |run|
  {
    if run != [] {
      FinalStep(s, run[0], a, was);
      ShapeKept(s, run[0]);
      FinalRun(Apply(s, run[0]), run[1..], a, was);
    }
  }

  lemma {:induction false} ShapeHolds(s: State, run: seq<Step>)
    requires Shape(s) && Legal(s, run)
    ensures Shape(Exec(s, run))
    decreases |run|
  {
    if run != [] {
      ShapeKept(s, run[0]);
      ShapeHolds(Apply(s, run[0]), run[1..]);
    }
  }

  /** What the copy of a sector that was submitted last holds, or should have held if its read failed. */
  function Wanted(s: State, g: Log, a: Addr, was: Content): Option
    requires a in s.disk
  {
    var v := Latest(g.copies, a, Some(was));
    if v == None then Some(s.disk[a]) else v
  }

  /** Outside the chunks that stage 3 will send again, the copy that was sent last holds what is wanted of the one that
      was submitted last: neither was it overtaken by an older copy, nor is it left in the queue. */
  ghost predicate NewestSent(s: State, g: Log, was: map<Addr, Content>) {
    forall a :: a in s.disk && a in was && ChunkOf(a) !in s.dirty ==>
      Latest(s.stream, a, Some(was[a])) == Wanted(s, g, a, was[a])
  }

  /** Before stage 3, with the guest stopped and all reads done, that is the sector itself, if it is clean. */
  lemma CleanIsWanted(m: State, g: Log, a: Addr, was: map<Addr, Content>)
    requires Inv(m, g, was) && Enabled(m, Stage3) && a in m.disk && ChunkOf(a) !in m.dirty
    ensures Wanted(m, g, a, was[a]) == Some(m.disk[a])
  {
    assert Safe(m, g, a, was);
  }

  /** If no queued read has failed, the newest copy of each clean sector is there and equals it. */
  lemma CleanSector(m: State, g: Log, a: Addr, was: map<Addr, Content>)
    requires Inv(m, g, was) && Enabled(m, Stage3) && (forall b :: b in m.queue ==> b.ret >= 0)
    requires a in m.disk && ChunkOf(a) !in m.dirty
    ensures Latest(g.copies, a, Some(was[a])) == Some(m.disk[a])
  {
    assert g.out == [];
    forall b | b in g.copies ensures Complete(m.total, b) {
      var j :| 0 <= j < |g.copies| && g.copies[j] == b;
      assert j !in g.out;
    }
    ReplayIsLatest(m.total, g.copies, was, a);
    assert Safe(m, g, a, was);
  }

  /** Each sector of these chunks has already been sent as it is, or has always been the same. */
  ghost predicate Arrived(m: State, chunks: set<Chunk>, was: map<Addr, Content>) {
    forall a :: a in m.disk && a in was && ChunkOf(a) in chunks ==>
      Latest(m.stream, a, Some(was[a])) == Some(m.disk[a])
  }

  /** One sector, from the state `m` in which stage 3 begins to the end. */
  lemma SectorAtEnd(m: State, last: seq<Step>, a: Addr, was: map<Addr, Content>)
    requires Shape(m) && Filled(m) && was.Keys == m.disk.Keys && Enabled(m, Stage3)
    requires Legal(Apply(m, Stage3), last) && Exec(Apply(m, Stage3), last).phase == Done
    requires a in m.disk
    ensures var r := Exec(Apply(m, Stage3), last);
            && Replay(r.stream, was).Keys == was.Keys
            && Unsent(Apply(m, Stage3), last) <= m.dirty
            && Some(Replay(r.stream, was)[a]) ==
                 if ChunkOf(a) in m.dirty && ChunkOf(a) !in Unsent(Apply(m, Stage3), last) then Some(m.disk[a])
                 else Latest(m.stream, a, Some(was[a]))
  {
    var f := Apply(m, Stage3);
    ShapeKept(m, Stage3);
    ShapeHolds(f, last);
    FilledKept(m, Stage3);
    FilledHolds(f, last);
    FinalRun(f, last, a, Some(was[a]));
    var r := Exec(f, last);
    ReplayIsLatest(r.total, r.stream, was, a);
  }

  lemma ConvergesFrom(m: State, g: Log, last: seq<Step>, was: map<Addr, Content>)
    requires Inv(m, g, was) && Enabled(m, Stage3)
    requires Legal(Apply(m, Stage3), last) && Exec(Apply(m, Stage3), last).phase == Done
    ensures var r := Exec(Apply(m, Stage3), last);
            Replay(r.stream, was) == r.disk <==>
            NewestSent(m, g, was) && Arrived(m, Unsent(Apply(m, Stage3), last), was)
  {
    var r, u := Exec(Apply(m, Stage3), last), Unsent(Apply(m, Stage3), last);
    FinalDisk(Apply(m, Stage3), last);
    ReplayKeys(r.stream, was);
    forall a | a in m.disk
      ensures Replay(r.stream, was)[a] == r.disk[a] <==>
              if ChunkOf(a) !in m.dirty then Latest(m.stream, a, Some(was[a])) == Wanted(m, g, a, was[a])
              else ChunkOf(a) in u ==> Latest(m.stream, a, Some(was[a])) == Some(m.disk[a])
      ensures u <= m.dirty
    {
      SectorAtEnd(m, last, a, was);
      if ChunkOf(a) !in m.dirty { CleanIsWanted(m, g, a, was); }
    }
  }

  lemma {:induction false} ReplayKeys(stream: seq<Block>, dst: map<Addr, Content>)
    ensures Replay(stream, dst).Keys == dst.Keys
    decreases |stream|
  {
    if stream != [] {
      assert Load(dst, stream[0]).Keys == dst.Keys;
      ReplayKeys(stream[1..], Load(dst, stream[0]));
    }
  }

  lemma {:induction false} FinalDisk(s: State, run: seq<Step>)
    requires Counted(s) && s.phase != Live && Legal(s, run)
    ensures Exec(s, run).disk == s.disk
    decreases |run|
  {
    if run != [] {
      FinalDisk(Apply(s, run[0]), run[1..]);
    }
  }

  lemma InitIsInv(s: State, was: map<Addr, Content>)
    requires Init(s, was)
    ensures Inv(s, NO_COPIES, was)
  {
  }

  /** From the state after stage 1, through any run `live` up to stage 3 and any run `last` of stage 3: the destination
      equals the source exactly when on every clean sector the copy sent last agrees with the copy submitted last and,
      if the file got an error in stage 3, the chunks still dirty then had arrived before. */
  lemma MigrationConverges(s: State, live: seq<Step>, last: seq<Step>, was: map<Addr, Content>)
    requires Init(s, was) && Legal(s, live)
    requires Enabled(Exec(s, live), Stage3)
    requires Legal(Apply(Exec(s, live), Stage3), last)
    requires Exec(Apply(Exec(s, live), Stage3), last).phase == Done
    ensures var m, g := Exec(s, live), LogAfter(s, NO_COPIES, live);
            var r := Exec(Apply(m, Stage3), last);
            && (Replay(r.stream, was) == r.disk <==>
                NewestSent(m, g, was) && Arrived(m, Unsent(Apply(m, Stage3), last), was))
            && (!r.error ==> (Replay(r.stream, was) == r.disk <==> NewestSent(m, g, was)))
  {
    InitIsInv(s, was);
    InvHolds(s, NO_COPIES, live, was);
    ConvergesFrom(Exec(s, live), LogAfter(s, NO_COPIES, live), last, was);
    if !Exec(Apply(Exec(s, live), Stage3), last).error { NothingUnsent(Apply(Exec(s, live), Stage3), last); }
  }

  // ---------------------------------------------------------------- when no read overtakes another of its chunk

  /** Reads of one chunk complete in the order in which they were submitted. */
  predicate InOrder(s: State, t: Step) {
    t.ReadCb? && t.i < |s.pending| ==> forall j :: 0 <= j < t.i ==> s.pending[j].chunk != s.pending[t.i].chunk
  }

  ghost predicate Ordered(s: State, run: seq<Step>)
    requires Legal(s, run)
    decreases |run|
  {
    run == [] || (InOrder(s, run[0]) && Ordered(Apply(s, run[0]), run[1..]))
  }

  /** The places xs name every copy, those of one chunk in the order of submission. */
  ghost predicate Fifo(cs: seq<Block>, xs: seq<nat>) {
    && (forall p :: 0 <= p < |xs| ==> xs[p] < |cs|)
    && (forall j: nat :: j < |cs| ==> j in xs)
    && (forall p, q :: 0 <= p < q < |xs| && cs[xs[p]].chunk == cs[xs[q]].chunk ==> xs[p] < xs[q])
  }

  /** Queued and sent copies before outstanding ones. */
  ghost predicate Sorted(g: Log) { Fifo(g.copies, g.done + g.out) }

  /** What has been queued or sent are the copies that are done. */
  ghost predicate SentAsDone(s: State, g: Log) {
    && |g.done| == |s.stream + s.queue|
    && forall p :: 0 <= p < |g.done| ==>
         g.done[p] < |g.copies| && (s.stream + s.queue)[p].(ret := 0) == g.copies[g.done[p]].(ret := 0)
  }

  lemma SortedKept(s: State, g: Log, t: Step)
    requires Matches(s, g) && Sorted(g) && Enabled(s, t) && InOrder(s, t) && Apply(s, t).phase == Live
    ensures Sorted(Logged(s, g, t))
  {
    var h, xs := Logged(s, g, t), g.done + g.out;
    match t
    case Bulk(_) =>
      if |Apply(s, t).pending| > |s.pending| {
        FifoAppend(g.copies, xs, Apply(s, t).pending[|s.pending|]);
        assert h.done + h.out == xs + [|g.copies|];
      }
    case DirtyAsync(c) =>
      FifoAppend(g.copies, xs, Block(c, false, 0, map[]));
      assert h.done + h.out == xs + [|g.copies|];
    case Sample(i, _) => FifoFill(g.copies, h.copies, xs);
    case ReadCb(i, ret) => SortedMove(s, g, i, ret);
    case _ =>
  }

  lemma SortedMove(s: State, g: Log, i: nat, ret: int)
    requires Matches(s, g) && Sorted(g) && Enabled(s, ReadCb(i, ret)) && InOrder(s, ReadCb(i, ret))
    ensures Sorted(Logged(s, g, ReadCb(i, ret)))
  {
    var h, xs := Logged(s, g, ReadCb(i, ret)), g.done + g.out;
    assert forall j :: |g.done| <= j < |g.done| + i ==> xs[j] == g.out[j - |g.done|];
    FifoMove(g.copies, xs, h.done + h.out, |g.done|, i);
  }

  lemma FifoAppend(cs: seq<Block>, xs: seq<nat>, b: Block)
    requires Fifo(cs, xs)
    ensures Fifo(cs + [b], xs + [|cs|])
  {
    var ds, ys := cs + [b], xs + [|cs|];
    assert ys[|xs|] == |cs|;
    forall j: nat | j < |ds| ensures j in ys { assert j < |cs| ==> j in xs; }
  }

  lemma FifoFill(cs: seq<Block>, ds: seq<Block>, xs: seq<nat>)
    requires Fifo(cs, xs) && |ds| == |cs| && forall j :: 0 <= j < |cs| ==> ds[j].chunk == cs[j].chunk
    ensures Fifo(ds, xs)
  {
  }

  lemma FifoMove(cs: seq<Block>, xs: seq<nat>, ys: seq<nat>, n: nat, i: nat)
    requires Fifo(cs, xs) && n + i < |xs| == |ys| && forall p :: 0 <= p < |ys| ==> ys[p] == xs[Was(n, i, p)]
    requires forall j :: n <= j < n + i ==> cs[xs[j]].chunk != cs[xs[n + i]].chunk
    ensures Fifo(cs, ys)
  {
    forall j: nat | j < |cs| ensures j in ys {
      assert j in xs;
      var p :| 0 <= p < |xs| && xs[p] == j;
      assert ys[if p == n + i then n else if n <= p < n + i then p + 1 else p] == j;
    }
    forall p, q | 0 <= p < q < |ys| && cs[ys[p]].chunk == cs[ys[q]].chunk ensures ys[p] < ys[q] {
      var u, w := Was(n, i, p), Was(n, i, q);
      assert ys[p] == xs[u] && ys[q] == xs[w];
      assert u < w || (u == n + i && n <= w < n + i);
    }
  }

  /** Where the entry at p was before entry n + i moved to n. */
  function Was(n: nat, i: nat, p: nat): nat { if p == n then n + i else if n < p <= n + i then p - 1 else p }

  lemma SentKept(s: State, g: Log, t: Step)
    requires Matches(s, g) && Sorted(g) && SentAsDone(s, g) && Enabled(s, t) && Apply(s, t).phase == Live
    ensures SentAsDone(Apply(s, t), Logged(s, g, t))
  {
    var r, h := Apply(s, t), Logged(s, g, t);
    if t.Flush? {
      assert r.stream + r.queue == s.stream + s.queue;
    } else if t.ReadCb? {
      assert r.stream + r.queue == s.stream + s.queue + [s.pending[t.i].(ret := t.ret)];
    } else if t.Sample? {
      var xs := g.done + g.out;
      forall p | 0 <= p < |g.done|
        ensures g.done[p] != g.out[t.i]
      {
        assert xs[p] == g.done[p] && xs[|g.done| + t.i] == g.out[t.i];
      }
    }
  }

  /** The last copy of a chunk decides. */
  lemma {:induction false} LatestAt(cs: seq<Block>, j: nat, a: Addr, was: Option)
    requires j < |cs| && cs[j].chunk == ChunkOf(a) && forall i :: j < i < |cs| ==> cs[i].chunk != ChunkOf(a)
    ensures Latest(cs, a, was) == Held(cs[j], a)
  {
    if j < |cs| - 1 { LatestAt(cs[..|cs| - 1], j, a, was); }
  }

  lemma {:induction false} LastOf(cs: seq<Block>, c: Chunk) returns (j: int)
    ensures -1 <= j < |cs| && (j >= 0 ==> cs[j].chunk == c) && forall i :: j < i < |cs| ==> cs[i].chunk != c
  {
    j := |cs| - 1;
    while j >= 0 && cs[j].chunk != c
      invariant -1 <= j < |cs| && forall i :: j < i < |cs| ==> cs[i].chunk != c
    {
      j := j - 1;
    }
  }

  /** With all reads done, the newest copy in the stream and the queue is then the newest submitted. */
  lemma OrderedNewest(s: State, g: Log, a: Addr, was: Option)
    requires Sorted(g) && SentAsDone(s, g) && g.out == []
    ensures Latest(s.stream + s.queue, a, was) == Latest(g.copies, a, was)
  {
    var cs := s.stream + s.queue;
    assert g.done + g.out == g.done;
    assert forall p :: 0 <= p < |cs| ==> cs[p].chunk == g.copies[g.done[p]].chunk;
    var j := LastOf(g.copies, ChunkOf(a));
    if j < 0 {
      LatestUncovered(g.copies, a, was);
      LatestUncovered(cs, a, was);
    } else {
      assert j in g.done;
      var p :| 0 <= p < |g.done| && g.done[p] == j;
      LatestAt(g.copies, j, a, was);
      LatestAt(cs, p, a, was);
    }
  }

  lemma {:induction false} OrderedHolds(s: State, g: Log, run: seq<Step>)
    requires Shape(s) && Matches(s, g) && Sorted(g) && SentAsDone(s, g)
    requires Legal(s, run) && Ordered(s, run) && Exec(s, run).phase == Live
    ensures Sorted(LogAfter(s, g, run)) && SentAsDone(Exec(s, run), LogAfter(s, g, run))
    decreases |run|
  {
    if run != [] {
      LiveBefore(Apply(s, run[0]), run[1..]);
      ShapeKept(s, run[0]);
      MatchesKept(s, g, run[0]);
      SortedKept(s, g, run[0]);
      SentKept(s, g, run[0]);
      OrderedHolds(Apply(s, run[0]), Logged(s, g, run[0]), run[1..]);
    }
  }

  lemma {:induction false} LiveBefore(s: State, run: seq<Step>)
    requires Legal(s, run) && Exec(s, run).phase == Live
    ensures s.phase == Live
    decreases |run|
  {
    if run != [] { LiveBefore(Apply(s, run[0]), run[1..]); }
  }

  /** Nothing that stage 3 frees unsent was needed: outside the chunks it will send again, the blocks
      still queued hold what the receiver already has. */
  ghost predicate NothingLost(s: State, was: map<Addr, Content>) {
    forall a :: a in s.disk && a in was && ChunkOf(a) !in s.dirty ==>
      Latest(s.stream + s.queue, a, Some(was[a])) == Latest(s.stream, a, Some(was[a]))
  }

  lemma LostIsUnsent(m: State, g: Log, was: map<Addr, Content>)
    requires Inv(m, g, was) && Enabled(m, Stage3) && (forall b :: b in m.queue ==> b.ret >= 0)
    requires Sorted(g) && SentAsDone(m, g) && g.out == []
    ensures NothingLost(m, was) <==> NewestSent(m, g, was)
    ensures m.queue == [] ==> NothingLost(m, was)
  {
    forall a | a in m.disk && ChunkOf(a) !in m.dirty
      ensures Latest(m.stream + m.queue, a, Some(was[a])) == Wanted(m, g, a, was[a])
    {
      OrderedNewest(m, g, a, Some(was[a]));
      CleanSector(m, g, a, was);
    }
    assert m.queue == [] ==> m.stream + m.queue == m.stream;
  }

  /** If reads of one chunk complete in order, the destination equals the source exactly when nothing was lost with the
      queue; with an empty queue it always does. */
  lemma OrderedConverges(s: State, live: seq<Step>, last: seq<Step>, was: map<Addr, Content>)
    requires Init(s, was) && Legal(s, live) && Ordered(s, live)
    requires Enabled(Exec(s, live), Stage3) && (forall b :: b in Exec(s, live).queue ==> b.ret >= 0)
    requires Legal(Apply(Exec(s, live), Stage3), last)
    requires Exec(Apply(Exec(s, live), Stage3), last).phase == Done
    ensures var r := Exec(Apply(Exec(s, live), Stage3), last);
            && (Replay(r.stream, was) == r.disk <==>
                && NothingLost(Exec(s, live), was)
                && Arrived(Exec(s, live), Unsent(Apply(Exec(s, live), Stage3), last), was))
            && (!r.error && Exec(s, live).queue == [] ==> Replay(r.stream, was) == r.disk)
  {
    var m, g := Exec(s, live), LogAfter(s, NO_COPIES, live);
    MigrationConverges(s, live, last, was);
    OrderedFromStart(s, live, was);
    LostIsUnsent(m, g, was);
  }

  lemma OrderedFromStart(s: State, live: seq<Step>, was: map<Addr, Content>)
    requires Init(s, was) && Legal(s, live) && Ordered(s, live) && Enabled(Exec(s, live), Stage3)
    ensures var m, g := Exec(s, live), LogAfter(s, NO_COPIES, live);
            Inv(m, g, was) && Sorted(g) && SentAsDone(m, g) && g.out == []
  {
    InitIsInv(s, was);
    InvHolds(s, NO_COPIES, live, was);
    StartSorted(s, was);
    OrderedHolds(s, NO_COPIES, live);
  }

  lemma StartSorted(s: State, was: map<Addr, Content>)
    requires Init(s, was)
    ensures Matches(s, NO_COPIES) && Sorted(NO_COPIES) && SentAsDone(s, NO_COPIES)
  {
  }

  // ---------------------------------------------------------------- when reads complete in any order

  /** No bulk read of a chunk is outstanding when a dirty read of it is submitted. */
  predicate BulkDrained(s: State, t: Step) {
    t.DirtyAsync? ==> forall b :: b in s.pending && b.chunk == t.c ==> !b.bulk
  }

  ghost predicate Drained(s: State, run: seq<Step>)
    requires Legal(s, run)
    decreases |run|
  {
    run == [] || (BulkDrained(s, run[0]) && Drained(Apply(s, run[0]), run[1..]))
  }

  /** The in-flight bitmap then admits at most one read per chunk. */
  ghost predicate OneReadPerChunk(s: State) {
    && (forall i, j :: 0 <= i < j < |s.pending| ==> s.pending[i].chunk != s.pending[j].chunk)
    && (forall i :: 0 <= i < |s.pending| ==> s.pending[i].bulk || s.pending[i].chunk in s.inflight)
    && (forall i :: 0 <= i < |s.pending| ==> Behind(s, s.pending[i].chunk))
  }

  lemma OneReadKept(s: State, t: Step)
    requires Shape(s) && OneReadPerChunk(s) && Enabled(s, t) && BulkDrained(s, t)
    ensures OneReadPerChunk(Apply(s, t))
  {
    match t
    case Bulk(d) => OneReadBulk(s, d);
    case DirtyAsync(c) => OneReadDirty(s, c);
    case ReadCb(i, ret) => OneReadCb(s, i, ret);
    case _ =>
  }

  lemma OneReadBulk(s: State, d: nat)
    requires Shape(s) && OneReadPerChunk(s) && Enabled(s, Bulk(d))
    ensures OneReadPerChunk(Apply(s, Bulk(d)))
  {
    BulkIsNew(s, d);
    OneReadMore(s, Apply(s, Bulk(d)));
  }

  /** A read of a chunk that was not behind the cursor joins the others. */
  lemma OneReadMore(s: State, r: State)
    requires OneReadPerChunk(s) && s.pending <= r.pending && |r.pending| <= |s.pending| + 1 && r.inflight == s.inflight
    requires forall c :: Behind(s, c) ==> Behind(r, c)
    requires |r.pending| > |s.pending| ==>
               var b := r.pending[|s.pending|]; b.bulk && !Behind(s, b.chunk) && Behind(r, b.chunk)
    ensures OneReadPerChunk(r)
  {
    assert forall i :: 0 <= i < |s.pending| ==> r.pending[i] == s.pending[i] && Behind(s, s.pending[i].chunk);
  }

  /** The chunk that a bulk step reads was not behind the cursor, and is now. */
  lemma BulkIsNew(s: State, d: nat)
    requires Shape(s) && Enabled(s, Bulk(d))
    ensures var r := Apply(s, Bulk(d));
            && s.cursor[d] <= r.cursor[d]
            && (|r.pending| > |s.pending| ==>
                  !Behind(s, r.pending[|s.pending|].chunk) && Behind(r, r.pending[|s.pending|].chunk))
  {
  }

  lemma OneReadDirty(s: State, c: Chunk)
    requires Shape(s) && OneReadPerChunk(s) && Enabled(s, DirtyAsync(c)) && BulkDrained(s, DirtyAsync(c))
    ensures OneReadPerChunk(Apply(s, DirtyAsync(c)))
  {
    var r := Apply(s, DirtyAsync(c));
    assert forall i :: 0 <= i < |s.pending| ==> r.pending[i] == s.pending[i] && s.pending[i] in s.pending;
    assert Behind(s, c);
  }

  lemma OneReadCb(s: State, i: nat, ret: int)
    requires OneReadPerChunk(s) && Enabled(s, ReadCb(i, ret))
    ensures OneReadPerChunk(Apply(s, ReadCb(i, ret)))
  {
    var r := Apply(s, ReadCb(i, ret));
    assert forall j :: 0 <= j < |r.pending| ==> r.pending[j] == s.pending[if j < i then j else j + 1];
  }

  /** So if bulk reads drain before the same chunk is read as dirty, completions may come in any
      order. */
  lemma {:induction false} DrainedIsOrdered(s: State, run: seq<Step>)
    requires Shape(s) && OneReadPerChunk(s) && Legal(s, run) && Drained(s, run)
    ensures Ordered(s, run)
    decreases |run|
  {
    if run != [] {
      ShapeKept(s, run[0]);
      OneReadKept(s, run[0]);
      DrainedIsOrdered(Apply(s, run[0]), run[1..]);
    }
  }

  /** And then the destination equals the source exactly when nothing was lost with the queue. */
  lemma DrainedConverges(s: State, live: seq<Step>, last: seq<Step>, was: map<Addr, Content>)
    requires Init(s, was) && Legal(s, live) && Drained(s, live)
    requires Enabled(Exec(s, live), Stage3) && (forall b :: b in Exec(s, live).queue ==> b.ret >= 0)
    requires Legal(Apply(Exec(s, live), Stage3), last)
    requires Exec(Apply(Exec(s, live), Stage3), last).phase == Done
    ensures var r := Exec(Apply(Exec(s, live), Stage3), last);
            Replay(r.stream, was) == r.disk <==>
            NothingLost(Exec(s, live), was) && Arrived(Exec(s, live), Unsent(Apply(Exec(s, live), Stage3), last), was)
  {
    DrainedIsOrdered(s, live);
    OrderedConverges(s, live, last, was);
  }

  // ---------------------------------------------------------------- counters

  /** The step hands a read to bdrv_aio_readv. */
  ghost predicate Issues(s: State, t: Step)
    requires Enabled(s, t)
  {
    t.DirtyAsync? || (t.Bulk? && |Apply(s, t).pending| > |s.pending|)
  }

  ghost function Issued(s: State, run: seq<Step>): nat
    requires Legal(s, run)
    decreases |run|
  {
    if run == [] then 0
    else (if Issues(s, run[0]) then 1 else 0) + Issued(Apply(s, run[0]), run[1..])
  }

  lemma StepAccounted(s: State, t: Step)
    requires Counted(s) && Enabled(s, t)
    ensures var r := Apply(s, t);
            r.submitted + r.readDone + r.transferred ==
              s.submitted + s.readDone + s.transferred + if Issues(s, t) then 1 else 0
  {
  }

  /** In every reachable state the three counters account for every read that was issued, each
      counting exactly the blocks in its place. */
  lemma {:induction false} ReadsAccounted(s: State, run: seq<Step>)
    requires Shape(s) && Legal(s, run)
    ensures var r := Exec(s, run);
            && r.submitted + r.readDone + r.transferred == s.submitted + s.readDone + s.transferred + Issued(s, run)
            && r.submitted == |r.pending| && r.readDone == |r.queue| + |r.dropped|
    decreases |run|
  {
    if run != [] {
      ShapeKept(s, run[0]);
      StepAccounted(s, run[0]);
      ReadsAccounted(Apply(s, run[0]), run[1..]);
    }
  }

  // ---------------------------------------------------------------- the side conditions are needed

  ghost predicate Leads(s: State, run: seq<Step>, r: State) { Legal(s, run) && Exec(s, run) == r }

  lemma One(s: State, t: Step, r: State)
    requires Enabled(s, t) && Apply(s, t) == r
    ensures Leads(s, [t], r)
  {
    assert Legal(r, [t][1..]);
  }

  lemma {:induction false} Then(s: State, x: seq<Step>, m: State, y: seq<Step>, r: State)
    requires Leads(s, x, m) && Leads(m, y, r)
    ensures Leads(s, x + y, r)
    decreases |x|
  {
    if x == [] {
      assert x + y == y;
    } else {
      Then(Apply(s, x[0]), x[1..], m, y, r);
      assert (x + y)[1..] == x[1..] + y;
    }
  }

  const ORIGIN := Addr(0, 0)

  const C0 := Chunk(0, 0)

  /** One device of one sector that holds 0, with a guest write to it under way. */
  const START := State([1], false, map[ORIGIN := 0], {}, {}, {}, [0], [Write(0, 0, 1)], [], [], [], 0, 0, 0, Live, [],
                       false)

  const SAMPLED := START.(cursor := [1], pending := [Block(C0, true, 0, map[0 := 0])], submitted := 1)

  const REWRITTEN := SAMPLED.(disk := map[ORIGIN := 1], alloc := {ORIGIN}, writes := [], dirty := {C0})

  const REREAD := REWRITTEN.(dirty := {}, inflight := {C0}, submitted := 2,
                             pending := [Block(C0, true, 0, map[0 := 0]), Block(C0, false, 0, map[0 := 1])])

  const SWAPPED := REREAD.(inflight := {}, submitted := 0, readDone := 0, transferred := 2, pending := [],
                           stream := [Block(C0, false, 0, map[0 := 1]), Block(C0, true, 0, map[0 := 0])])

  lemma StartIsInit()
    ensures Init(START, map[ORIGIN := 9])
  {
  }

  lemma BulkSamples()
    ensures Leads(START, [Bulk(0)] + [Sample(0, 0)], SAMPLED)
  {
    var m := START.(cursor := [1], pending := [Block(C0, true, 0, map[])], submitted := 1);
    assert Apply(START, Bulk(0)) == m;
    One(START, Bulk(0), m);
    assert Apply(m, Sample(0, 0)) == SAMPLED;
    One(m, Sample(0, 0), SAMPLED);
    Then(START, [Bulk(0)], m, [Sample(0, 0)], SAMPLED);
  }

  lemma GuestRewrites()
    ensures Leads(SAMPLED, [GuestLand(0, ORIGIN, 1)] + [GuestMark(0)], REWRITTEN)
  {
    var m := SAMPLED.(disk := map[ORIGIN := 1], alloc := {ORIGIN});
    One(SAMPLED, GuestLand(0, ORIGIN, 1), m);
    assert MarkedChunks(Write(0, 0, 1)) == {C0};
    One(m, GuestMark(0), REWRITTEN);
    Then(SAMPLED, [GuestLand(0, ORIGIN, 1)], m, [GuestMark(0)], REWRITTEN);
  }

  lemma DirtyRereads()
    ensures Leads(REWRITTEN, [DirtyAsync(C0)] + [Sample(1, 0)], REREAD)
  {
    var m := REREAD.(pending := [Block(C0, true, 0, map[0 := 0]), Block(C0, false, 0, map[])]);
    assert Apply(REWRITTEN, DirtyAsync(C0)) == m;
    One(REWRITTEN, DirtyAsync(C0), m);
    assert Apply(m, Sample(1, 0)) == REREAD;
    One(m, Sample(1, 0), REREAD);
    Then(REWRITTEN, [DirtyAsync(C0)], m, [Sample(1, 0)], REREAD);
  }

  lemma OvertakingSends()
    ensures Leads(REREAD, [ReadCb(1, 0)] + [ReadCb(0, 0)] + ([Flush] + [Flush]), SWAPPED)
  {
    var x, y := Block(C0, true, 0, map[0 := 0]), Block(C0, false, 0, map[0 := 1]);
    assert Complete([1], x) && Complete([1], y);
    var a := REREAD.(inflight := {}, pending := [x], queue := [y], submitted := 1, readDone := 1);
    assert Apply(REREAD, ReadCb(1, 0)) == a;
    One(REREAD, ReadCb(1, 0), a);
    var b := a.(pending := [], queue := [y, x], submitted := 0, readDone := 2);
    assert Apply(a, ReadCb(0, 0)) == b;
    One(a, ReadCb(0, 0), b);
    Then(REREAD, [ReadCb(1, 0)], a, [ReadCb(0, 0)], b);
    FlushTwo(b, y, x);
    Then(REREAD, [ReadCb(1, 0)] + [ReadCb(0, 0)], b, [Flush] + [Flush], SWAPPED);
  }

  lemma FlushTwo(s: State, y: Block, x: Block)
    requires s.phase == Live && s.queue == [y, x] && y.ret == x.ret == 0 && s.stream == [] && !s.error
    ensures Leads(s, [Flush] + [Flush],
                  s.(queue := [], stream := [y, x], readDone := s.readDone - 2, transferred := s.transferred + 2))
  {
    var m := s.(queue := [x], stream := [y], readDone := s.readDone - 1, transferred := s.transferred + 1);
    var r := s.(queue := [], stream := [y, x], readDone := s.readDone - 2, transferred := s.transferred + 2);
    assert Apply(s, Flush) == m;
    One(s, Flush, m);
    assert Apply(m, Flush) == r;
    One(m, Flush, r);
    Then(s, [Flush], m, [Flush], r);
  }

  lemma OvertakingRun() returns (live: seq<Step>)
    ensures Leads(START, live, SWAPPED)
  {
    BulkSamples();
    GuestRewrites();
    DirtyRereads();
    OvertakingSends();
    live := [Bulk(0)] + [Sample(0, 0)];
    Then(START, live, SAMPLED, [GuestLand(0, ORIGIN, 1)] + [GuestMark(0)], REWRITTEN);
    live := live + ([GuestLand(0, ORIGIN, 1)] + [GuestMark(0)]);
    Then(START, live, REWRITTEN, [DirtyAsync(C0)] + [Sample(1, 0)], REREAD);
    live := live + ([DirtyAsync(C0)] + [Sample(1, 0)]);
    var tail := [ReadCb(1, 0)] + [ReadCb(0, 0)] + ([Flush] + [Flush]);
    Then(START, live, REREAD, tail, SWAPPED);
    live := live + tail;
  }

  /** Without the order of completions the last write can be lost: the dirty read of the only sector
      overtakes the bulk read, and the older content is sent last. */
  lemma OvertakingLosesAWrite() returns (live: seq<Step>, r: State)
    ensures Init(START, map[ORIGIN := 9]) && Legal(START, live) && Enabled(Exec(START, live), Stage3)
    ensures Exec(START, live).queue == []
    ensures Leads(Apply(Exec(START, live), Stage3), [Finish], r) && r.phase == Done
    ensures Replay(r.stream, map[ORIGIN := 9]) == map[ORIGIN := 0] && r.disk == map[ORIGIN := 1]
  {
    StartIsInit();
    live := OvertakingRun();
    r := OvertakingEnds();
  }

  lemma OvertakingEnds() returns (r: State)
    ensures Enabled(SWAPPED, Stage3) && SWAPPED.queue == [] && Leads(Apply(SWAPPED, Stage3), [Finish], r) &&
            r.phase == Done
    ensures Replay(r.stream, map[ORIGIN := 9]) == map[ORIGIN := 0] && r.disk == map[ORIGIN := 1]
  {
    var f := Apply(SWAPPED, Stage3);
    r := f.(phase := Done);
    One(f, Finish, r);
    ReplayTwo(map[ORIGIN := 9], SWAPPED.stream[0], SWAPPED.stream[1]);
  }

  lemma ReplayTwo(dst: map<Addr, Content>, y: Block, x: Block)
    ensures Replay([y, x], dst) == Load(Load(dst, y), x)
  {
    var m := Load(dst, y);
    assert [y, x][1..] == [x];
    assert [x][1..] == [];
    assert Replay([x], m) == Replay([], Load(m, x));
  }

  lemma {:induction false} NoDirtyReadIsDrained(s: State, run: seq<Step>)
    requires Legal(s, run) && forall t :: t in run ==> !t.DirtyAsync?
    ensures Drained(s, run)
    decreases |run|
  {
    if run != [] {
      assert run[0] in run;
      NoDirtyReadIsDrained(Apply(s, run[0]), run[1..]);
    }
  }

  const QUIET := START.(writes := [])

  const QUEUED := QUIET.(cursor := [1], queue := [Block(C0, true, 0, map[0 := 0])], readDone := 1)

  lemma DroppingRun()
    ensures Leads(QUIET, [Bulk(0)] + [Sample(0, 0)] + [ReadCb(0, 0)], QUEUED)
  {
    var x := Block(C0, true, 0, map[0 := 0]);
    var a := QUIET.(cursor := [1], pending := [x.(buf := map[])], submitted := 1);
    assert Apply(QUIET, Bulk(0)) == a;
    One(QUIET, Bulk(0), a);
    var b := a.(pending := [x]);
    assert Apply(a, Sample(0, 0)) == b;
    One(a, Sample(0, 0), b);
    Then(QUIET, [Bulk(0)], a, [Sample(0, 0)], b);
    assert Complete([1], x);
    assert Apply(b, ReadCb(0, 0)) == QUEUED;
    One(b, ReadCb(0, 0), QUEUED);
    Then(QUIET, [Bulk(0)] + [Sample(0, 0)], b, [ReadCb(0, 0)], QUEUED);
  }

  lemma DroppingRunIsOrdered()
    ensures var live := [Bulk(0)] + [Sample(0, 0)] + [ReadCb(0, 0)];
            Init(QUIET, map[ORIGIN := 9]) && Legal(QUIET, live) && Ordered(QUIET, live)
  {
    var live := [Bulk(0)] + [Sample(0, 0)] + [ReadCb(0, 0)];
    QuietIsInit();
    DroppingRun();
    assert forall t :: t in live ==> !t.DirtyAsync?;
    OrderedWithoutDirtyReads(QUIET, live);
  }

  lemma QuietIsInit()
    ensures Init(QUIET, map[ORIGIN := 9])
  {
    StartIsInit();
  }

  lemma OrderedWithoutDirtyReads(s: State, run: seq<Step>)
    requires Legal(s, run) && Init(s, map[ORIGIN := 9]) && forall t :: t in run ==> !t.DirtyAsync?
    ensures Ordered(s, run)
  {
    NoDirtyReadIsDrained(s, run);
    DrainedIsOrdered(s, run);
  }

  /** And without draining the queue before stage 3 a whole chunk can be lost. */
  lemma DroppingLosesAChunk() returns (live: seq<Step>, r: State)
    ensures Init(QUIET, map[ORIGIN := 9]) && Legal(QUIET, live) && Ordered(QUIET, live)
    ensures Enabled(Exec(QUIET, live), Stage3)
    ensures Leads(Apply(Exec(QUIET, live), Stage3), [Finish], r) && r.phase == Done
    ensures Replay(r.stream, map[ORIGIN := 9]) == map[ORIGIN := 9] && r.disk == map[ORIGIN := 0]
  {
    DroppingRun();
    DroppingRunIsOrdered();
    live := [Bulk(0)] + [Sample(0, 0)] + [ReadCb(0, 0)];
    var f := Apply(QUEUED, Stage3);
    r := f.(phase := Done);
    One(f, Finish, r);
  }

  const RESENT := REWRITTEN.(pending := [], submitted := 0, transferred := 1,
                             stream := [Block(C0, true, 0, map[0 := 0])])

  /** The bulk read is done and sent; the write that came after it is still to be sent. */
  lemma BulkArrives()
    ensures Leads(REWRITTEN, [ReadCb(0, 0)] + [Flush], RESENT)
  {
    var x := Block(C0, true, 0, map[0 := 0]);
    assert Complete([1], x);
    var m := REWRITTEN.(pending := [], queue := [x], submitted := 0, readDone := 1);
    assert Apply(REWRITTEN, ReadCb(0, 0)) == m;
    One(REWRITTEN, ReadCb(0, 0), m);
    assert Apply(m, Flush) == RESENT;
    One(m, Flush, RESENT);
    Then(REWRITTEN, [ReadCb(0, 0)], m, [Flush], RESENT);
  }

  lemma FailingEnds() returns (r: State)
    ensures Enabled(RESENT, Stage3)
    ensures Leads(Apply(RESENT, Stage3), [Fail] + [DirtySync(C0)] + [Finish], r) && r.phase == Done && r.error
    ensures Replay(r.stream, map[ORIGIN := 9]) == map[ORIGIN := 0] && r.disk == map[ORIGIN := 1]
  {
    var f := Apply(RESENT, Stage3);
    var a, b := f.(error := true), f.(error := true, dirty := {});
    r := b.(phase := Done);
    One(f, Fail, a);
    assert Apply(a, DirtySync(C0)) == b;
    One(a, DirtySync(C0), b);
    Then(f, [Fail], a, [DirtySync(C0)], b);
    One(b, Finish, r);
    Then(f, [Fail] + [DirtySync(C0)], b, [Finish], r);
    assert r.stream[1..] == [];
  }

  /** A read that fails in stage 3 and then succeeds cleans its chunk without sending it. */
  lemma FailingLosesAWrite() returns (live: seq<Step>, r: State)
    ensures Init(START, map[ORIGIN := 9]) && Legal(START, live) && Enabled(Exec(START, live), Stage3)
    ensures Leads(Apply(Exec(START, live), Stage3), [Fail] + [DirtySync(C0)] + [Finish], r) && r.phase == Done
    ensures Replay(r.stream, map[ORIGIN := 9]) == map[ORIGIN := 0] && r.disk == map[ORIGIN := 1]
  {
    StartIsInit();
    BulkSamples();
    GuestRewrites();
    BulkArrives();
    live := [Bulk(0)] + [Sample(0, 0)];
    Then(START, live, SAMPLED, [GuestLand(0, ORIGIN, 1)] + [GuestMark(0)], REWRITTEN);
    live := live + ([GuestLand(0, ORIGIN, 1)] + [GuestMark(0)]);
    Then(START, live, REWRITTEN, [ReadCb(0, 0)] + [Flush], RESENT);
    live := live + ([ReadCb(0, 0)] + [Flush]);
    r := FailingEnds();
  }
}
