/** The functions of block-migration.c, each proved to be a run of the protocol in BlockMigration. */
module BlockMigrationCode {
  import opened BlockMigration

  const MAX_IS_ALLOCATED_SEARCH: nat := 65536

  /** Each in-flight bit belongs to an outstanding read. */
  ghost predicate BitsBacked(s: State) {
    forall c :: c in s.inflight ==> exists i :: 0 <= i < |s.pending| && s.pending[i].chunk == c
  }

  lemma LeadsNothing(s: State)
    ensures Leads(s, [], s)
  {
  }

  /** block_mig_state together with what it shares with the block layer. */
  class Migration {
    var st: State
    var curDirty: seq<nat>   // bmds->cur_dirty
    var faults: nat          // failures of synchronous reads still to come

    ghost predicate Valid()
      reads this
    {
      && Shape(st) && BitsBacked(st)
      && |curDirty| == |st.total|
      && forall d :: 0 <= d < |curDirty| ==> curDirty[d] % CHUNK == 0
    }

    constructor (s: State, failures: nat)
      requires Shape(s) && BitsBacked(s)
      ensures Valid() && st == s && faults == failures
    {
      st := s;
      faults := failures;
      curDirty := seq(|s.total|, _ => 0);
    }

    /** bdrv_is_allocated: some non-empty run of sectors that agree with the first one. */
    method IsAllocated(d: nat, k: nat) returns (used: bool, n: nat)
      requires d < |st.total| && k < st.total[d]
      ensures 1 <= n <= MAX_IS_ALLOCATED_SEARCH && k + n <= st.total[d]
      ensures forall j: nat :: k <= j < k + n ==> (Addr(d, j) in st.alloc <==> used)
    {
      used := Addr(d, k) in st.alloc;
      n := 1;
      var more: nat := *;
      while n < more && n < MAX_IS_ALLOCATED_SEARCH && k + n < st.total[d] && (Addr(d, k + n) in st.alloc <==> used)
        invariant 1 <= n <= MAX_IS_ALLOCATED_SEARCH && k + n <= st.total[d]
        invariant forall j: nat :: k <= j < k + n ==> (Addr(d, j) in st.alloc <==> used)
      {
        n := n + 1;
      }
    }

    /** The scan of mig_save_device_bulk for the next allocated sector. */
    method SkipUnallocated(d: nat) returns (cur: nat)
      requires Valid() && d < |st.total|
      ensures cur == FirstAllocated(st.alloc, d, st.cursor[d], st.total[d])
    {
      cur := st.cursor[d];
      var stop := false;
      while cur < st.total[d] && !stop
        invariant st.cursor[d] <= cur <= st.total[d]
        invariant forall j: nat :: st.cursor[d] <= j < cur ==> Addr(d, j) !in st.alloc
        invariant stop ==> cur < st.total[d] && Addr(d, cur) in st.alloc
        decreases st.total[d] - cur, !stop
      {
        var used, n := IsAllocated(d, cur);
        if used { stop := true; } else { cur := cur + n; }
      }
    }

    /** The assignments of one protocol step. */
    method Take(next: State, ghost t: Step)
      requires Valid() && Enabled(st, t) && next == Apply(st, t)
      modifies this`st
      ensures Valid() && st == next && Leads(old(st), [t], st)
    {
      ShapeKept(st, t);
      BackedKept(st, t);
      One(st, t, next);
      st := next;
    }

    /** mig_save_device_bulk: whether the device is finished. If the driver refuses the read, nothing changes but the
        error of the file. */
    method SaveDeviceBulk(d: nat) returns (done: bool, refused: bool)
      requires Valid() && Enabled(st, Bulk(d))
      modifies this`st
      ensures Valid() && Leads(old(st), [if refused then Fail else Bulk(d)], st)
      ensures refused ==> !done
      ensures forall k: nat :: BeginsAt(old(st), d, k) ==>
                && (k == st.total[d] ==> !refused && st.pending == old(st).pending && st.cursor[d] == k)
                && (k < st.total[d] && !refused ==>
                      && st.pending == old(st).pending + [Block(Chunk(d, k / CHUNK), true, 0, map[])]
                      && st.dirty == old(st).dirty - {Chunk(d, k / CHUNK)})
      ensures done <==> st.cursor[d] == st.total[d]
    {
      refused := false;
      ghost var k := BulkBegins(st, d);
      BulkReads(st, d, k);
      var total := st.total[d];
      var cur := st.cursor[d];
      if st.shared {
        cur := SkipUnallocated(d);
      }
      if cur >= total {
        Take(st.(cursor := st.cursor[d := total]), Bulk(d));
        return true, false;
      }
      refused := *;
      if refused {
        Take(st.(error := true), Fail);
        return false, true;
      }
      ReadBulk(d, cur);
      done := st.cursor[d] >= total;
    }

    /** Submission of the bulk read that begins at sector `cur`. */
    method ReadBulk(d: nat, cur: nat)
      requires Valid() && Enabled(st, Bulk(d)) && cur == BulkStart(st, d) < st.total[d]
      modifies this`st
      ensures Valid() && Leads(old(st), [Bulk(d)], st) && st == Apply(old(st), Bulk(d))
    {
      var c := Chunk(d, cur / CHUNK);
      Take(st.(pending := st.pending + [Block(c, true, 0, map[])],
               submitted := st.submitted + 1,
               dirty := st.dirty - {c},
               cursor := st.cursor[d := Min((c.index + 1) * CHUNK, st.total[d])]), Bulk(d));
    }

    /** blk_mig_read_cb for the read at position `i`. */
    method ReadDone(i: nat, ret: int)
      requires Valid() && Enabled(st, ReadCb(i, ret))
      modifies this`st
      ensures Valid() && Leads(old(st), [ReadCb(i, ret)], st) && st == Apply(old(st), ReadCb(i, ret))
    {
      Take(st.(queue := st.queue + [st.pending[i].(ret := ret)],
               pending := Remove(st.pending, i),
               inflight := st.inflight - {st.pending[i].chunk},
               submitted := st.submitted - 1,
               readDone := st.readDone + 1), ReadCb(i, ret));
    }

    /** One turn of the loop in flush_blks. */
    method SendHead(ghost start: State, ghost run: seq<Step>)
      requires Valid() && Enabled(st, Flush) && Leads(start, run, st)
      modifies this`st
      ensures Valid() && Leads(start, run + [Flush], st) && st.phase == Live && st.error == old(st).error
      ensures st.queue == old(st).queue[1..] && st.stream == old(st).stream + [old(st).queue[0]]
    {
      Take(st.(queue := st.queue[1..],
               stream := st.stream + [st.queue[0]],
               readDone := st.readDone - 1,
               transferred := st.transferred + 1), Flush);
      Then(start, run, old(st), [Flush], st);
    }

    /** qemu_file_rate_limit: not 0 when it is time to stop, and always after an error. */
    method RateLimited() returns (limited: bool)
      ensures st.error ==> limited
    {
      limited := *;
      limited := limited || st.error;
    }

    /** flush_blks. The rate limit may stop it before any block; a failed read stops it for good, with an error. */
    method FlushBlks() returns (failed: bool, ghost n: nat, ghost run: seq<Step>)
      requires Valid() && st.phase == Live
      modifies this`st
      ensures Valid() && Leads(old(st), run, st) && Moved(old(st), st, n)
      ensures st.error == (old(st).error || failed) && (old(st).error ==> st == old(st))
      ensures failed ==> st.queue != [] && st.queue[0].ret < 0
    {
      run, n, failed := [], 0, false;
      LeadsNothing(st);
      while st.queue != []
        invariant Valid() && st.phase == Live && Leads(old(st), run, st) && Moved(old(st), st, n)
        invariant st.error == old(st).error && (st.error ==> st == old(st))
        decreases |st.queue|
      {
        var limited := RateLimited();
        if limited { break; }
        ghost var mid := st;
        if st.queue[0].ret < 0 {
          failed := true;
          Take(st.(error := true), Fail);
          Then(old(st), run, mid, [Fail], st);
          run := run + [Fail];
          break;
        }
        SendHead(old(st), run);
        MovedNext(old(st), mid, st, n);
        run, n := run + [Flush], n + 1;
      }
    }

    /** The device fills one more sector of the read at position `i`, if it has not yet. */
    method SampleSector(i: nat, k: nat, ghost start: State, ghost run: seq<Step>) returns (ghost more: seq<Step>)
      requires Valid() && i < |st.pending| && InChunk(st.total, st.pending[i].chunk, k) && Leads(start, run, st)
      modifies this`st
      ensures Valid() && Leads(start, more, st) && Longer(run, more)
      ensures st == old(st).(pending := st.pending) && |st.pending| == |old(st).pending|
      ensures st.pending[i].chunk == old(st).pending[i].chunk
      ensures st.pending[i].buf.Keys == old(st).pending[i].buf.Keys + {k}
    {
      var b := st.pending[i];
      more := run;
      if k !in b.buf {
        Take(st.(pending := st.pending[i := b.(buf := b.buf[k := st.disk[Addr(b.chunk.dev, k)]])]), Sample(i, k));
        Then(start, run, old(st), [Sample(i, k)], st);
        more := run + [Sample(i, k)];
      }
    }

    /** The read at position `i` gets all its sectors. */
    method SampleAll(i: nat, ghost start: State, ghost run0: seq<Step>) returns (ghost run: seq<Step>)
      requires Valid() && i < |st.pending| && Leads(start, run0, st)
      modifies this`st
      ensures Valid() && Leads(start, run, st) && Longer(run0, run)
      ensures st == old(st).(pending := st.pending) && |st.pending| == |old(st).pending|
      ensures Complete(st.total, st.pending[i])
    {
      run := run0;
      var c := st.pending[i].chunk;
      if c.dev >= |st.total| { return; }
      var k := c.index * CHUNK;
      while k < c.index * CHUNK + CHUNK && k < st.total[c.dev]
        invariant Valid() && Leads(start, run, st) && Longer(run0, run)
        invariant st == old(st).(pending := st.pending) && |st.pending| == |old(st).pending|
        invariant st.pending[i].chunk == c && c.index * CHUNK <= k <= c.index * CHUNK + CHUNK
        invariant forall j: nat :: c.index * CHUNK <= j < k ==> j in st.pending[i].buf
      {
        run := SampleSector(i, k, start, run);
        k := k + 1;
      }
    }

    /** One completion inside qemu_aio_flush: any outstanding read, whatever its place and result. */
    method FinishSomeRead(ghost start: State, ghost run0: seq<Step>) returns (ghost run: seq<Step>)
      requires Valid() && st.pending != [] && Leads(start, run0, st)
      modifies this`st
      ensures Valid() && Leads(start, run, st) && Longer(run0, run)
      ensures |st.pending| == |old(st).pending| - 1 && Waited(old(st), st)
    {
      var i :| 0 <= i < |st.pending|;
      var ret: int := *;
      var sampled: bool := *;
      run := run0;
      if ret >= 0 || sampled { run := SampleAll(i, start, run0); }
      ghost var mid := st;
      ReadDone(i, ret);
      Then(start, run, mid, [ReadCb(i, ret)], st);
      run := run + [ReadCb(i, ret)];
    }

    /** Whatever the guest's requests do meanwhile: one begins, reaches the disk in part, or completes. */
    method GuestActs(ghost start: State, ghost run0: seq<Step>) returns (ghost run: seq<Step>)
      requires Valid() && st.phase == Live && Leads(start, run0, st)
      modifies this`st
      ensures Valid() && Leads(start, run, st) && Longer(run0, run)
      ensures |st.pending| == |old(st).pending| && Waited(old(st), st)
    {
      run := run0;
      var w: Write, i: nat, a: Addr, v: Content := *, *, *, *;
      if i < |st.writes| && Touches(st.writes[i], a) {
        Take(st.(disk := st.disk[a := v], alloc := st.alloc + {a}), GuestLand(i, a, v));
        Then(start, run, old(st), [GuestLand(i, a, v)], st);
        run := run + [GuestLand(i, a, v)];
      } else if i < |st.writes| {
        Take(st.(writes := Remove(st.writes, i), dirty := st.dirty + MarkedChunks(st.writes[i])), GuestMark(i));
        Then(start, run, old(st), [GuestMark(i)], st);
        run := run + [GuestMark(i)];
      } else if w.dev < |st.total| && w.first + w.count <= st.total[w.dev] {
        Take(st.(writes := st.writes + [w]), GuestBegin(w));
        Then(start, run, old(st), [GuestBegin(w)], st);
        run := run + [GuestBegin(w)];
      }
    }

    /** qemu_aio_flush: all reads of the migration complete, and requests of the guest go on. */
    method AioFlush(ghost start: State, ghost run0: seq<Step>) returns (ghost run: seq<Step>)
      requires Valid() && st.phase == Live && Leads(start, run0, st)
      modifies this`st
      ensures Valid() && Leads(start, run, st) && Longer(run0, run)
      ensures Waited(old(st), st) && st.pending == [] && st.inflight == {}
    {
      run := run0;
      var guest: nat := *;
      while st.pending != [] || guest > 0
        invariant Valid() && Leads(start, run, st) && Longer(run0, run) && Waited(old(st), st)
        decreases guest + |st.pending|
      {
        var first: bool := *;
        if guest > 0 && (first || st.pending == []) {
          run := GuestActs(start, run);
          guest := guest - 1;
        } else {
          run := FinishSomeRead(start, run);
        }
      }
    }

    /** The wait before a chunk is looked at: an in-flight bit means an outstanding read of it. */
    method WaitFor(c: Chunk, ghost start: State, ghost run0: seq<Step>) returns (ghost run: seq<Step>)
      requires Valid() && Leads(start, run0, st)
      modifies this`st
      ensures Valid() && Leads(start, run, st) && Longer(run0, run)
      ensures Waited(old(st), st) && c !in st.inflight && (st.phase != Live ==> run == run0)
    {
      run := run0;
      if c in st.inflight {
        run := AioFlush(start, run);
      }
    }

    /** Submission of an asynchronous read of a dirty chunk. */
    method ReadDirty(c: Chunk, ghost start: State, ghost run: seq<Step>)
      requires Valid() && Enabled(st, DirtyAsync(c)) && Leads(start, run, st)
      modifies this`st
      ensures Valid() && Leads(start, run + [DirtyAsync(c)], st) && st == Apply(old(st), DirtyAsync(c))
    {
      Take(st.(pending := st.pending + [Block(c, false, 0, map[])],
               submitted := st.submitted + 1,
               inflight := st.inflight + {c},
               dirty := st.dirty - {c}), DirtyAsync(c));
      Then(start, run, old(st), [DirtyAsync(c)], st);
    }

    /** One turn of the loop in mig_save_device_dirty. */
    method LookAt(d: nat, ghost start: State, ghost run0: seq<Step>) returns (found: bool, ghost run: seq<Step>)
      requires Valid() && d < |st.total| && curDirty[d] < st.total[d] && Leads(start, run0, st)
      modifies this`st, this`curDirty
      ensures Valid() && Leads(start, run, st) && Longer(run0, run) && Waited(old(st), st)
      ensures st.phase != Live ==> run == run0
      ensures var c := Chunk(d, old(curDirty)[d] / CHUNK);
              && c !in st.inflight && (found <==> c in st.dirty)
              && curDirty == if found then old(curDirty) else old(curDirty)[d := old(curDirty)[d] + CHUNK]
      ensures WasClean(start, run, d, old(curDirty)[d], curDirty[d])
    {
      var c := Chunk(d, curDirty[d] / CHUNK);
      run := WaitFor(c, start, run0);
      found := c in st.dirty;
      if !found {
        CleanNow(start, run, st, c);
        curDirty := curDirty[d := curDirty[d] + CHUNK];
      }
    }

    /** The scan of mig_save_device_dirty: it moves the dirty cursor to a dirty chunk, waiting for outstanding reads
        when it meets the in-flight bit of one. Each chunk it passes was clean when it was looked at. */
    method FindDirty(d: nat) returns (found: bool, ghost run: seq<Step>)
      requires Valid() && d < |st.total|
      modifies this`st, this`curDirty
      ensures Valid() && Leads(old(st), run, st) && Longer([], run) && Waited(old(st), st)
      ensures st.phase != Live ==> run == []
      ensures old(curDirty)[d] <= curDirty[d] && curDirty == old(curDirty)[d := curDirty[d]]
      ensures WasClean(old(st), run, d, old(curDirty)[d], curDirty[d])
      ensures found <==> curDirty[d] < st.total[d]
      ensures found ==> Chunk(d, curDirty[d] / CHUNK) in st.dirty && Chunk(d, curDirty[d] / CHUNK) !in st.inflight
    {
      run, found := [], false;
      LeadsNothing(st);
      while curDirty[d] < st.total[d] && !found
        invariant Valid() && Leads(old(st), run, st) && Longer([], run) && Waited(old(st), st)
        invariant st.phase != Live ==> run == []
        invariant old(curDirty)[d] <= curDirty[d] && curDirty == old(curDirty)[d := curDirty[d]]
        invariant WasClean(old(st), run, d, old(curDirty)[d], curDirty[d])
        invariant found ==> curDirty[d] < st.total[d]
        invariant found ==> Chunk(d, curDirty[d] / CHUNK) in st.dirty && Chunk(d, curDirty[d] / CHUNK) !in st.inflight
        decreases if curDirty[d] < st.total[d] then st.total[d] - curDirty[d] else 0, !found
      {
        ghost var before, was := run, curDirty[d];
        found, run := LookAt(d, old(st), run);
        CleanJoins(old(st), before, run, d, old(curDirty)[d], was, curDirty[d]);
      }
    }

    /** The file gets an error. */
    method SetError(ghost start: State, ghost run: seq<Step>)
      requires Valid() && st.phase != Done && Leads(start, run, st)
      modifies this`st
      ensures Valid() && Leads(start, run + [Fail], st) && st == old(st).(error := true)
    {
      Take(st.(error := true), Fail);
      Then(start, run, old(st), [Fail], st);
    }

    /** mig_save_device_dirty with is_async: it submits the first dirty chunk at or after the dirty cursor and stays
        there, or reports that the device has none left. A chunk whose read the driver refuses stays dirty, and the file
        has an error. */
    method SaveDeviceDirtyAsync(d: nat)
      returns (done: bool, refused: bool, ghost waits: seq<Step>, ghost run: seq<Step>)
      requires Valid() && st.phase == Live && BulkCompleted(st) && d < |st.total|
      modifies this`st, this`curDirty
      ensures Valid() && Leads(old(st), run, st) && Longer([], waits) && |curDirty| == |old(curDirty)|
      ensures var c := Chunk(d, curDirty[d] / CHUNK);
              run == waits + if done then [] else [if refused then Fail else DirtyAsync(c)]
      ensures old(curDirty)[d] <= curDirty[d] && curDirty == old(curDirty)[d := curDirty[d]]
      ensures WasClean(old(st), waits, d, old(curDirty)[d], curDirty[d])
      ensures done <==> curDirty[d] >= st.total[d]
      ensures st.error == (old(st).error || refused) && (refused ==> !done)
      ensures !done ==> Chunk(d, curDirty[d] / CHUNK) in (if refused then st.dirty else st.inflight - st.dirty)
      ensures st.submitted + st.readDone == old(st).submitted + old(st).readDone + if done || refused then 0 else 1
    {
      var found;
      found, waits := FindDirty(d);
      run := waits;
      refused := *;
      refused := refused && found;
      if refused {
        SetError(old(st), run);
        run := run + [Fail];
      } else if found {
        var c := Chunk(d, curDirty[d] / CHUNK);
        ReadDirty(c, old(st), run);
        run := run + [DirtyAsync(c)];
      }
      done := !found;
    }

    /** blk_send of a chunk as it is, which a file with an error ignores, and the reset of its bit. */
    method SendDirty(c: Chunk)
      requires Valid() && Enabled(st, DirtySync(c))
      modifies this`st
      ensures Valid() && Leads(old(st), [DirtySync(c)], st) && st == Apply(old(st), DirtySync(c))
    {
      var stream := st.stream;
      if !st.error { stream := stream + [Block(c, false, 0, Snapshot(st, c))]; }
      Take(st.(stream := stream, dirty := st.dirty - {c}), DirtySync(c));
    }

    /** mig_save_device_dirty in stage 3: the chunk is read and sent at once. If the read fails, the chunk stays dirty
        and the file has an error. */
    method SaveDeviceDirtySync(d: nat) returns (done: bool, failed: bool, ghost run: seq<Step>)
      requires Valid() && st.phase == Final && d < |st.total|
      modifies this
      ensures Valid() && Leads(old(st), run, st) && |curDirty| == |old(curDirty)|
      ensures var c := Chunk(d, curDirty[d] / CHUNK);
              run == if done then [] else if failed then [Fail] else [DirtySync(c)]
      ensures old(curDirty)[d] <= curDirty[d] && curDirty == old(curDirty)[d := curDirty[d]]
      ensures CleanBetween(old(st), d, old(curDirty)[d], curDirty[d])
      ensures (done <==> curDirty[d] >= st.total[d]) && (failed ==> !done)
      ensures faults == old(faults) - if failed then 1 else 0
      ensures st == if done then old(st) else if failed then old(st).(error := true)
                    else Apply(old(st), DirtySync(Chunk(d, curDirty[d] / CHUNK)))
    {
      var found;
      found, run := FindDirty(d);
      StillClean(st, d, old(curDirty)[d], curDirty[d]);
      failed := *;
      failed := failed && found && faults > 0;
      if failed {
        faults := faults - 1;
        SetError(old(st), run);
        run := [Fail];
      } else if found {
        var c := Chunk(d, curDirty[d] / CHUNK);
        SendDirty(c);
        run := [DirtySync(c)];
      }
      done := !found;
    }

    /** No dirty chunk lies before the dirty cursor of its device. */
    ghost predicate Ahead()
      requires Valid()
      reads this
    {
      forall c :: c in st.dirty ==> curDirty[c.dev] <= c.index * CHUNK
    }

    /** blk_mig_save_dirty_block in stage 3: it stops at the first device that has a dirty chunk, sent or not. */
    method SaveDirtyBlockSync(ghost start: State, ghost run0: seq<Step>) returns (more: bool, ghost run: seq<Step>)
      requires Valid() && st.phase == Final && Ahead() && Leads(start, run0, st)
      modifies this
      ensures Valid() && st.phase == Final && Ahead() && Leads(start, run, st)
      ensures more ==> || (st.dirty < old(st).dirty && faults == old(faults))
                       || (st == old(st).(error := true) && faults < old(faults))
      ensures !more ==> st == old(st) && st.dirty == {} && faults == old(faults)
    {
      run := run0;
      var d := 0;
      while d < |st.total|
        invariant 0 <= d <= |st.total| && faults == old(faults)
        invariant Valid() && st == old(st) && Ahead() && Leads(start, run, st)
        invariant forall e :: 0 <= e < d ==> curDirty[e] >= st.total[e]
      {
        ghost var mid := st;
        var done, failed;
        ghost var step;
        done, failed, step := SaveDeviceDirtySync(d);
        Then(start, run, mid, step, st);
        run := run + step;
        if !done {
          return true, run;
        }
        d := d + 1;
      }
      more := false;
    }

    /** The loop of stage 3 that sends every chunk still dirty. A read that fails is tried again, but what is read after
        it is not sent. */
    method SendRemaining() returns (ghost run: seq<Step>)
      requires Valid() && st.phase == Final && Ahead()
      modifies this
      ensures Valid() && Leads(old(st), run, st) && st.phase == Final && st.dirty == {}
    {
      run := [];
      LeadsNothing(st);
      var more := true;
      while more
        invariant Valid() && st.phase == Final && Ahead() && Leads(old(st), run, st)
        invariant !more ==> st.dirty == {}
        decreases st.dirty, faults, more
      {
        more, run := SaveDirtyBlockSync(old(st), run);
      }
    }

    /** block_save_live in stage 3 after its flush: the remaining chunks, then the clean-up that frees
        whatever is still queued. It reports the error of the file. Without one, the destination equals the source
        exactly when the newest copies were sent; with one, the chunks that were dirty then must have arrived before as
        well. */
    method Complete3(ghost g: Log, ghost was: map<Addr, Content>) returns (failed: bool, ghost last: seq<Step>)
      requires Valid() && Inv(st, g, was) && Enabled(st, Stage3)
      modifies this
      ensures Valid() && st.phase == Done && st.disk == old(st).disk && failed == st.error
      ensures Leads(Apply(old(st), Stage3), last, st)
      ensures Replay(st.stream, was) == st.disk <==>
              NewestSent(old(st), g, was) && Arrived(old(st), Unsent(Apply(old(st), Stage3), last), was)
      ensures !failed ==> (Replay(st.stream, was) == st.disk <==> NewestSent(old(st), g, was))
    {
      curDirty := seq(|st.total|, _ => 0);
      Take(st.(phase := Final, dropped := st.queue, queue := []), Stage3);
      ghost var f := st;
      ghost var run := SendRemaining();
      ghost var mid := st;
      Take(st.(phase := Done), Finish);
      Then(f, run, mid, [Finish], st);
      last, failed := run + [Finish], st.error;
      FinalDisk(f, last);
      ConvergesFrom(old(st), g, last, was);
      if !failed { NothingUnsent(f, last); }
    }
  }

  /** The first n queued blocks have gone to the stream. */
  ghost predicate Moved(s: State, r: State, n: nat) {
    n <= |s.queue| && r.queue == s.queue[n..] && r.stream == s.stream + s.queue[..n]
  }

  lemma MovedNext(s: State, m: State, r: State, n: nat)
    requires Moved(s, m, n) && m.queue != [] && r.queue == m.queue[1..] && r.stream == m.stream + [m.queue[0]]
    ensures Moved(s, r, n + 1)
  {
    assert s.queue[..n + 1] == s.queue[..n] + [s.queue[n]];
  }

  /** Reads may have completed and guest requests may have gone on; the migration has done nothing else. */
  ghost predicate Waited(s: State, r: State) {
    && s.dirty <= r.dirty && r.phase == s.phase && r.cursor == s.cursor && r.total == s.total && r.stream == s.stream
    && r.error == s.error && r.submitted + r.readDone == s.submitted + s.readDone
    && (s.phase != Live ==> r == s)
  }

  /** A step of the guest or of an outstanding read. */
  predicate Waits(t: Step) { t.GuestBegin? || t.GuestLand? || t.GuestMark? || t.Sample? || t.ReadCb? }

  /** More such steps have been taken. */
  ghost predicate Longer(run0: seq<Step>, run: seq<Step>) {
    run0 <= run && forall i :: |run0| <= i < |run| ==> Waits(run[i])
  }

  /** The chunk was clean at some moment of the run. */
  ghost predicate CleanOnce(s: State, run: seq<Step>, c: Chunk) {
    exists p :: 0 <= p <= |run| && Legal(s, run[..p]) && c !in Exec(s, run[..p]).dirty
  }

  /** Each chunk of the device that starts in [from, to) was clean at some moment of the run. */
  ghost predicate WasClean(s: State, run: seq<Step>, d: nat, from: nat, to: nat) {
    forall k: nat :: from <= k * CHUNK < to ==> CleanOnce(s, run, Chunk(d, k))
  }

  lemma CleanNow(s: State, run: seq<Step>, r: State, c: Chunk)
    requires Leads(s, run, r) && c !in r.dirty
    ensures CleanOnce(s, run, c)
  {
    assert run[..|run|] == run;
  }

  /** The device has no dirty chunk that starts in [from, to). */
  ghost predicate CleanBetween(s: State, d: nat, from: nat, to: nat) {
    forall c :: c in s.dirty && c.dev == d ==> c.index * CHUNK < from || to <= c.index * CHUNK
  }

  lemma CleanJoins(s: State, x: seq<Step>, y: seq<Step>, d: nat, from: nat, mid: nat, to: nat)
    requires WasClean(s, x, d, from, mid) && x <= y && WasClean(s, y, d, mid, to)
    ensures WasClean(s, y, d, from, to)
  {
    forall k: nat | from <= k * CHUNK < mid ensures CleanOnce(s, y, Chunk(d, k)) {
      var p :| 0 <= p <= |x| && Legal(s, x[..p]) && Chunk(d, k) !in Exec(s, x[..p]).dirty;
      assert y[..p] == x[..p];
    }
  }

  lemma StillClean(s: State, d: nat, from: nat, to: nat)
    requires WasClean(s, [], d, from, to)
    ensures CleanBetween(s, d, from, to)
  {
    forall k: nat | from <= k * CHUNK < to ensures Chunk(d, k) !in s.dirty {
      assert CleanOnce(s, [], Chunk(d, k));
    }
  }

  lemma BackedKept(s: State, t: Step)
    requires BitsBacked(s) && Enabled(s, t)
    ensures BitsBacked(Apply(s, t))
  {
    var r := Apply(s, t);
    forall c | c in r.inflight ensures exists i :: 0 <= i < |r.pending| && r.pending[i].chunk == c {
      if t.DirtyAsync? && c == t.c {
        assert r.pending[|s.pending|].chunk == c;
      } else {
        var i :| 0 <= i < |s.pending| && s.pending[i].chunk == c;
        if t.ReadCb? && t.i < i {
          assert r.pending[i - 1].chunk == c;
        } else if t.Stage3? {
        } else {
          assert r.pending[i].chunk == c;
        }
      }
    }
  }
}
