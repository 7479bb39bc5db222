/** The buffered, rate-limited stream of a migration (buffered_file.c) over a backend that may take part of what
    it is offered, be busy, fail, or take nothing. */
module BufferedFile {

  type byte = bv8

  const EAGAIN := 11
  const EINVAL := 22
  const EIO := 5

  /** answers: what put_buffer will return, cut to the size it is offered, and -EIO after that. waits: what
      wait_for_unfreeze will report, negative for an error. delivered: what the backend has taken. */
  datatype File = File(buffer: seq<byte>, frozen: bool, xfer: nat, limit: nat, error: int,
                       answers: seq<int>, waits: seq<int>, delivered: seq<byte>)

  function Answer(f: File, size: nat): (ret: int)
    ensures ret <= size
  {
    if f.answers == [] then -EIO else if f.answers[0] > size then size else f.answers[0]
  }

  /** The backend is offered `data`. */
  function Asked(f: File, data: seq<byte>): File {
    var ret := Answer(f, |data|);
    f.(answers := if f.answers == [] then [] else f.answers[1..],
       delivered := if ret > 0 then f.delivered + data[..ret] else f.delivered)
  }

  /** The loop of buffered_flush, which has `data` left to send. */
  function FlushLoop(f: File, data: seq<byte>): (File, seq<byte>)
    decreases |data|
  {
    if data == [] then (f, [])
    else
      var ret := Answer(f, |data|);
      if ret == -EAGAIN then (Asked(f, data).(frozen := true), data)
      else if ret <= 0 then (Asked(f, data).(error := ret), data)
      else FlushLoop(Asked(f, data), data[ret..])
  }

  function Flushed(f: File): File {
    if f.error != 0 then f
    else var (g, rest) := FlushLoop(f, f.buffer); g.(buffer := rest)
  }

  datatype PutEnd = PutEnd(file: File, rest: seq<byte>, failed: bool)

  /** The loop of buffered_put_buffer, which has `data` left to send. */
  function PutLoop(f: File, data: seq<byte>): PutEnd
    decreases |data|
  {
    if f.frozen || data == [] || f.xfer > f.limit then PutEnd(f, data, false)
    else
      var ret := Answer(f, |data|);
      if ret == -EAGAIN then PutEnd(Asked(f, data).(frozen := true), data, false)
      else if ret <= 0 then PutEnd(Asked(f, data).(error := ret), data, true)
      else PutLoop(Asked(f, data).(xfer := f.xfer + ret), data[ret..])
  }

  function Put(f: File, data: seq<byte>): (File, int) {
    if f.error != 0 then (f, f.error)
    else
      var e := PutLoop(Flushed(f.(frozen := false)), data);
      if e.failed then (e.file, -EINVAL) else (e.file.(buffer := e.file.buffer + e.rest), |data|)
  }

  function Waited(f: File): File {
    if f.waits == [] then f
    else f.(waits := f.waits[1..], error := if f.waits[0] < 0 then f.waits[0] else f.error)
  }

  lemma {:induction false} FlushTakes(f: File, data: seq<byte>)
    ensures var (g, rest) := FlushLoop(f, data);
            && |g.answers| <= |f.answers| && (f.answers != [] && data != [] ==> |g.answers| < |f.answers|)
            && (f.answers == [] && data != [] ==> g.error == -EIO)
            && g.waits == f.waits && g.xfer == f.xfer && g.limit == f.limit
    decreases |data|
  {
    if data != [] && Answer(f, |data|) > 0 { FlushTakes(Asked(f, data), data[Answer(f, |data|)..]); }
  }

  /** The loop of buffered_close. */
  function Drained(f: File): File
    decreases |f.answers| + (if f.error == 0 then 1 else 0)
  {
    if f.error != 0 || f.buffer == [] then f
    else
      FlushTakes(f, f.buffer);
      var g := Flushed(f);
      Drained(if g.frozen then Waited(g) else g)
  }

  function Ticked(f: File): File {
    if f.error != 0 then Drained(f)
    else if f.frozen then f
    else Flushed(f.(xfer := 0))
  }

  // ---------------------------------------------------------------- one call

  /** A flush moves bytes from the buffer to the backend and neither loses nor reorders any, whatever happens. */
  lemma {:induction false} FlushKeeps(f: File, data: seq<byte>)
    ensures var (g, rest) := FlushLoop(f, data); g.delivered + rest == f.delivered + data
    decreases |data|
  {
    var ret := Answer(f, |data|);
    if data != [] && ret > 0 {
      FlushKeeps(Asked(f, data), data[ret..]);
      Rejoin(f.delivered, data, ret);
    }
  }

  lemma Rejoin(d: seq<byte>, data: seq<byte>, n: nat)
    requires n <= |data|
    ensures (d + data[..n]) + data[n..] == d + data
  {
  }

  /** A put loop leaves the buffer alone. */
  lemma {:induction false} PutBuffer(f: File, data: seq<byte>)
    ensures PutLoop(f, data).file.buffer == f.buffer
    decreases |data|
  {
    var ret := Answer(f, |data|);
    if !(f.frozen || data == [] || f.xfer > f.limit) && ret > 0 {
      PutBuffer(Asked(f, data).(xfer := f.xfer + ret), data[ret..]);
    }
  }

  /** The backend never answers 0. */
  predicate NoZero(f: File) { 0 !in f.answers }

  /** A flush that did not stop for an error or for a busy backend has emptied the buffer. */
  lemma {:induction false} FlushEmpties(f: File, data: seq<byte>)
    requires NoZero(f) && f.error == 0
    ensures var (g, rest) := FlushLoop(f, data); NoZero(g) && g.error <= 0 && (g.error == 0 && !g.frozen ==> rest == [])
    decreases |data|
  {
    var ret := Answer(f, |data|);
    if data != [] && ret > 0 { FlushEmpties(Asked(f, data), data[ret..]); }
  }

  /** A put loop that has not failed has no new error. */
  lemma {:induction false} PutErrors(f: File, data: seq<byte>)
    requires NoZero(f)
    ensures var e := PutLoop(f, data);
            NoZero(e.file) && if e.failed then e.file.error < 0 else e.file.error == f.error
    decreases |data|
  {
    var ret := Answer(f, |data|);
    if !(f.frozen || data == [] || f.xfer > f.limit) && ret > 0 {
      PutErrors(Asked(f, data).(xfer := f.xfer + ret), data[ret..]);
    }
  }

  /** The loop stops as soon as the limit is passed, so that it is passed by one transfer at most. */
  lemma {:induction false} PutRate(f: File, data: seq<byte>)
    ensures var e := PutLoop(f, data); e.file.limit == f.limit && |e.rest| <= |data|
    ensures var e := PutLoop(f, data); e.file.xfer == f.xfer + |data| - |e.rest|
    ensures var e := PutLoop(f, data); e.file.xfer == f.xfer || e.file.xfer <= f.limit + |data|
    decreases |data|
  {
    var ret := Answer(f, |data|);
    if !(f.frozen || data == [] || f.xfer > f.limit) && ret > 0 {
      PutRate(Asked(f, data).(xfer := f.xfer + ret), data[ret..]);
    }
  }

  // ---------------------------------------------------------------- whole sessions

  datatype Op = PutData(data: seq<byte>) | Tick | SetLimit(rate: nat)

  function Do(f: File, op: Op): File {
    match op
    case PutData(data) => Put(f, data).0
    case Tick => Ticked(f)
    case SetLimit(rate) => if f.error != 0 then f else f.(limit := rate / 10)
  }

  /** A tick after an error closes the stream and frees it. */
  predicate Frees(f: File, op: Op) { op.Tick? && f.error != 0 }

  /** No call comes after that. */
  predicate InUse(f: File, ops: seq<Op>)
    decreases |ops|
  {
    ops == [] || if Frees(f, ops[0]) then |ops| == 1 else InUse(Do(f, ops[0]), ops[1..])
  }

  function DoAll(f: File, ops: seq<Op>): File
    decreases |ops|
  {
    if ops == [] then f else DoAll(Do(f, ops[0]), ops[1..])
  }

  /** All bytes put, in order. */
  function AllPut(ops: seq<Op>): seq<byte> {
    if ops == [] then [] else (if ops[0].PutData? then ops[0].data else []) + AllPut(ops[1..])
  }

  lemma FlushedKeeps(f: File)
    ensures Flushed(f).delivered + Flushed(f).buffer == f.delivered + f.buffer
  {
    FlushKeeps(f, f.buffer);
  }

  lemma FlushedEmpties(f: File)
    requires NoZero(f) && f.error == 0
    ensures var g := Flushed(f); NoZero(g) && g.error <= 0 && (g.error == 0 && !g.frozen ==> g.buffer == [])
  {
    FlushEmpties(f, f.buffer);
  }

  /** A put loop does nothing while the output is frozen. */
  lemma PutFrozen(f: File, data: seq<byte>)
    ensures f.frozen ==> PutLoop(f, data) == PutEnd(f, data, false)
  {
  }

  lemma Regroup(a: seq<byte>, b: seq<byte>, c: seq<byte>)
    ensures (a + b) + c == a + (b + c)
  {
  }

  /** What the loop of a put has sent, and what the flush before it has left in the buffer. */
  function Sent(f: File, data: seq<byte>): (r: seq<byte>)
    ensures |r| <= |data|
  {
    var e := PutLoop(Flushed(f.(frozen := false)), data);
    if |e.rest| <= |data| then data[..|data| - |e.rest|] else []
  }

  function LeftBehind(f: File): seq<byte> { Flushed(f.(frozen := false)).buffer }

  /** The call neither refuses data, nor fails in its own loop, nor lets its data overtake older bytes that differ. */
  predicate Orderly(f: File, op: Op) {
    op.PutData? ==>
      if f.error != 0 then op.data == []
      else
        && !PutLoop(Flushed(f.(frozen := false)), op.data).failed
        && Sent(f, op.data) + LeftBehind(f) == LeftBehind(f) + Sent(f, op.data)
  }

  /** A put loop fails only with data left. */
  lemma {:induction false} PutFailed(f: File, data: seq<byte>)
    ensures PutLoop(f, data).failed ==> PutLoop(f, data).rest != []
    decreases |data|
  {
    var ret := Answer(f, |data|);
    if !(f.frozen || data == [] || f.xfer > f.limit) && ret > 0 {
      PutFailed(Asked(f, data).(xfer := f.xfer + ret), data[ret..]);
    }
  }

  /** rest is the end of data, and r is d with the front of data behind it. */
  ghost predicate Fronts(d: seq<byte>, data: seq<byte>, rest: seq<byte>, r: seq<byte>) {
    && |rest| <= |data| && rest == data[|data| - |rest|..] && r == d + data[..|data| - |rest|]
  }

  /** It sends the front of its data. */
  lemma {:induction false} PutFront(f: File, data: seq<byte>, e: PutEnd)
    requires e == PutLoop(f, data)
    ensures Fronts(f.delivered, data, e.rest, e.file.delivered)
    decreases |data|
  {
    var ret := Answer(f, |data|);
    if !(f.frozen || data == [] || f.xfer > f.limit) && ret > 0 {
      PutFront(Asked(f, data).(xfer := f.xfer + ret), data[ret..], e);
      FrontStep(f.delivered, data, ret, e.rest, e.file.delivered);
    } else {
      FrontNone(f.delivered, data);
    }
  }

  /** It keeps all of its own data, in order, and leaves the buffer alone. */
  lemma PutKeeps(f: File, data: seq<byte>)
    ensures var e := PutLoop(f, data); e.file.delivered + e.rest == f.delivered + data && e.file.buffer == f.buffer
  {
    var e := PutLoop(f, data);
    PutBuffer(f, data);
    PutFront(f, data, e);
    Rejoin(f.delivered, data, |data| - |e.rest|);
  }

  lemma FrontNone(d: seq<byte>, data: seq<byte>)
    ensures Fronts(d, data, data, d)
  {
    assert data[..0] == [];
  }

  lemma FrontStep(d: seq<byte>, data: seq<byte>, m: nat, rest: seq<byte>, r: seq<byte>)
    requires m <= |data| && Fronts(d + data[..m], data[m..], rest, r)
    ensures Fronts(d, data, rest, r)
  {
    var n := |data| - |rest|;
    Slices(data, m, n);
    Regroup(d, data[..m], data[m..][..n - m]);
  }

  lemma Slices(data: seq<byte>, m: nat, n: nat)
    requires m <= n <= |data|
    ensures data[..m] + data[m..][..n - m] == data[..n] && data[m..][n - m..] == data[n..]
  {
  }

  /** Two sequences with a common front and a common end differ in the middle. */
  lemma Between(a: seq<byte>, x: seq<byte>, y: seq<byte>, b: seq<byte>)
    requires |x| == |y|
    ensures a + x + b == a + y + b <==> x == y
  {
    if a + x + b == a + y + b {
      assert x == (a + x + b)[|a|..|a| + |x|] == (a + y + b)[|a|..|a| + |y|] == y;
    }
  }

  /** A put that has met no failure ends with the buffer between what it sent and what it did not. */
  lemma PutArranges(f: File, data: seq<byte>)
    requires f.error == 0 && !PutLoop(Flushed(f.(frozen := false)), data).failed
    ensures var r, n := Put(f, data).0, |Sent(f, data)|;
            var d := Flushed(f.(frozen := false)).delivered;
            && r.delivered + r.buffer == d + (Sent(f, data) + LeftBehind(f)) + data[n..]
            && f.delivered + f.buffer + data == d + (LeftBehind(f) + Sent(f, data)) + data[n..]
  {
    var g := Flushed(f.(frozen := false));
    var e, sent := PutLoop(g, data), Sent(f, data);
    FlushedKeeps(f.(frozen := false));
    PutBuffer(g, data);
    PutFront(g, data, e);
    assert data == sent + e.rest && data[|sent|..] == e.rest;
    Arranged(f.delivered + f.buffer, g.delivered, g.buffer, sent, e.rest, data);
  }

  lemma Arranged(all: seq<byte>, d: seq<byte>, b: seq<byte>, sent: seq<byte>, rest: seq<byte>, data: seq<byte>)
    requires d + b == all && data == sent + rest
    ensures (d + sent) + (b + rest) == d + (sent + b) + rest
    ensures all + data == d + (b + sent) + rest
  {
    Swap(d, sent, b, rest);
    Swap(d, b, sent, rest);
  }

  lemma Swap(d: seq<byte>, x: seq<byte>, y: seq<byte>, z: seq<byte>)
    ensures (d + x) + (y + z) == d + (x + y) + z
  {
  }

  /** One put, for every backend: delivered and buffered bytes grow by exactly its data, in order, if and only if its
      loop does not fail and what it sends does not overtake other bytes. */
  lemma PutExact(f: File, data: seq<byte>)
    ensures var r := Put(f, data).0;
            r.delivered + r.buffer == f.delivered + f.buffer + data <==> Orderly(f, PutData(data))
  {
    var r, g := Put(f, data).0, Flushed(f.(frozen := false));
    var e := PutLoop(g, data);
    if f.error != 0 {
      assert data == [] ==> f.delivered + f.buffer + data == f.delivered + f.buffer;
    } else if e.failed {
      FlushedKeeps(f.(frozen := false));
      PutBuffer(g, data);
      PutFront(g, data, e);
      PutFailed(g, data);
      assert |g.delivered + g.buffer| == |f.delivered + f.buffer|;
      assert |r.delivered + r.buffer| < |f.delivered + f.buffer + data|;
    } else {
      PutArranges(f, data);
      Between(g.delivered, Sent(f, data) + LeftBehind(f), LeftBehind(f) + Sent(f, data), data[|Sent(f, data)|..]);
    }
  }

  function Added(op: Op): seq<byte> { if op.PutData? then op.data else [] }

  /** One call: ticks and limit changes always conserve. */
  lemma DoExact(f: File, op: Op)
    ensures var r := Do(f, op); r.delivered + r.buffer == f.delivered + f.buffer + Added(op) <==> Orderly(f, op)
  {
    match op
    case PutData(data) => PutExact(f, data);
    case SetLimit(_) => assert f.delivered + f.buffer + [] == f.delivered + f.buffer;
    case Tick =>
      FlushedKeeps(f.(xfer := 0));
      assert f.delivered + f.buffer + [] == f.delivered + f.buffer;
  }

  predicate AllOrderly(f: File, ops: seq<Op>)
    decreases |ops|
  {
    ops == [] || (Orderly(f, ops[0]) && AllOrderly(Do(f, ops[0]), ops[1..]))
  }

  /** After each call of the session the bytes delivered followed by the buffer are all bytes put so far, in order. */
  predicate AlwaysWhole(f: File, ops: seq<Op>)
    decreases |ops|
  {
    ops == [] ||
    (var r := Do(f, ops[0]);
     r.delivered + r.buffer == f.delivered + f.buffer + Added(ops[0]) && AlwaysWhole(r, ops[1..]))
  }

  /** Over any session and any backend: nothing is lost or reordered at any time if and only if every put is orderly.
      Then, at the end, what is delivered and buffered is what was put. */
  lemma {:induction false} SessionExact(f: File, ops: seq<Op>)
    requires InUse(f, ops)
    ensures AlwaysWhole(f, ops) <==> AllOrderly(f, ops)
    ensures AllOrderly(f, ops) ==>
            DoAll(f, ops).delivered + DoAll(f, ops).buffer == f.delivered + f.buffer + AllPut(ops)
    decreases |ops|
  {
    if ops == [] {
      assert f.delivered + f.buffer + [] == f.delivered + f.buffer;
    } else {
      DoExact(f, ops[0]);
      SessionExact(Do(f, ops[0]), ops[1..]);
      Regroup(f.delivered + f.buffer, Added(ops[0]), AllPut(ops[1..]));
    }
  }

  /** With a backend that never answers 0, a put that leaves no error was orderly. */
  lemma PutWithoutZero(f: File, data: seq<byte>)
    requires NoZero(f) && f.error == 0
    ensures var (r, ret) := Put(f, data);
            NoZero(r) && r.error <= 0 && (r.error == 0 ==> Orderly(f, PutData(data)) && ret == |data|)
  {
    var g := Flushed(f.(frozen := false));
    FlushedEmpties(f.(frozen := false));
    PutErrors(g, data);
    PutFrozen(g, data);
    if g.frozen {
      assert Sent(f, data) == [];
      assert [] + g.buffer == g.buffer + [];
    } else if g.error == 0 {
      assert Sent(f, data) + [] == [] + Sent(f, data);
    }
  }

  lemma DoWithoutZero(f: File, op: Op)
    requires NoZero(f) && f.error <= 0
    ensures var r := Do(f, op);
            NoZero(r) && r.error <= 0 && (f.error != 0 ==> r.error != 0) && (r.error == 0 ==> Orderly(f, op))
  {
    match op
    case PutData(data) => if f.error == 0 { PutWithoutZero(f, data); }
    case SetLimit(_) =>
    case Tick => if f.error == 0 && !f.frozen { FlushedEmpties(f.(xfer := 0)); }
  }

  /** Over any session with a backend that never answers 0, as long as there is no error, every put was orderly and
      the bytes delivered followed by the buffer are all bytes put, in order. */
  lemma {:induction false} Conserved(f: File, ops: seq<Op>)
    requires NoZero(f) && f.error <= 0 && InUse(f, ops)
    ensures var r := DoAll(f, ops);
            && NoZero(r) && r.error <= 0 && (f.error != 0 ==> r.error != 0)
            && (r.error == 0 ==> AllOrderly(f, ops) && r.delivered + r.buffer == f.delivered + f.buffer + AllPut(ops))
    decreases |ops|
  {
    SessionExact(f, ops);
    if ops != [] {
      DoWithoutZero(f, ops[0]);
      Conserved(Do(f, ops[0]), ops[1..]);
    }
  }

  /** A close that ends without an error leaves nothing in the buffer; what it delivers is the buffer. */
  lemma {:induction false} DrainDelivers(f: File)
    ensures Drained(f).error == 0 ==> Drained(f).buffer == [] && Drained(f).delivered == f.delivered + f.buffer
    decreases |f.answers| + (if f.error == 0 then 1 else 0)
  {
    if f.error == 0 && f.buffer != [] {
      FlushTakes(f, f.buffer);
      FlushedKeeps(f);
      var g := Flushed(f);
      DrainDelivers(if g.frozen then Waited(g) else g);
    }
  }

  /** From opening to closing, for every backend: if the close ends without an error, the backend has got exactly the
      bytes that were put when every put was orderly; and they were if it never answered 0. */
  lemma StreamDelivers(rate: nat, answers: seq<int>, waits: seq<int>, ops: seq<Op>)
    requires InUse(Opened(rate, answers, waits), ops)
    ensures var f := Opened(rate, answers, waits);
            var r := Drained(DoAll(f, ops));
            && (r.error == 0 && AllOrderly(f, ops) ==> r.delivered == AllPut(ops))
            && (r.error == 0 && 0 !in answers ==> AllOrderly(f, ops))
  {
    var f := Opened(rate, answers, waits);
    var g := DoAll(f, ops);
    SessionExact(f, ops);
    DrainDelivers(g);
    assert f.delivered + f.buffer + AllPut(ops) == AllPut(ops);
    if 0 !in answers { Conserved(f, ops); }
  }

  function Opened(rate: nat, answers: seq<int>, waits: seq<int>): File {
    File([], false, 0, rate / 10, 0, answers, waits, [])
  }

  // ---------------------------------------------------------------- the rate

  /** The bytes that puts have sent themselves since the last tick that was not skipped; n when the session begins. */
  function SinceTick(f: File, ops: seq<Op>, n: nat): nat
    decreases |ops|
  {
    if ops == [] then n
    else
      var m := if f.error != 0 then n
               else if ops[0].PutData? then n + |Sent(f, ops[0].data)|
               else if ops[0].Tick? && !f.frozen then 0
               else n;
      SinceTick(Do(f, ops[0]), ops[1..], m)
  }

  /** They are what is compared with the limit. */
  lemma {:induction false} CountedSinceTick(f: File, ops: seq<Op>)
    ensures DoAll(f, ops).xfer == SinceTick(f, ops, f.xfer)
    decreases |ops|
  {
    if ops != [] {
      DoCounts(f, ops[0]);
      CountedSinceTick(Do(f, ops[0]), ops[1..]);
    }
  }

  lemma DoCounts(f: File, op: Op)
    ensures Do(f, op).xfer ==
            if f.error != 0 then f.xfer
            else if op.PutData? then f.xfer + |Sent(f, op.data)|
            else if op.Tick? && !f.frozen then 0
            else f.xfer
  {
    match op
    case PutData(data) =>
      FlushTakes(f.(frozen := false), f.buffer);
      PutRate(Flushed(f.(frozen := false)), data);
    case SetLimit(_) =>
    case Tick => FlushTakes(f.(xfer := 0), f.buffer);
  }

  /** There are ten ticks a second: the limit is a tenth of the rate, rounded down. */
  lemma LimitIsTenth(f: File, rate: nat, answers: seq<int>, waits: seq<int>)
    ensures 10 * Opened(rate, answers, waits).limit <= rate < 10 * Opened(rate, answers, waits).limit + 10
    ensures f.error == 0 ==> 10 * Do(f, SetLimit(rate)).limit <= rate < 10 * Do(f, SetLimit(rate)).limit + 10
    ensures f.error != 0 ==> Do(f, SetLimit(rate)) == f
  {
  }

  /** A put tries again although the backend was busy before: if it now takes all, nothing is left. */
  lemma PutThaws(f: File, data: seq<byte>)
    requires f.error == 0 && f.xfer <= f.limit && f.buffer != [] && data != []
    requires |f.answers| >= 2 && f.answers[0] >= |f.buffer| && f.answers[1] >= |data|
    ensures var (r, ret) := Put(f, data);
            r.delivered == f.delivered + f.buffer + data && r.buffer == [] && r.error == 0 && !r.frozen && ret == |data|
  {
    var h := f.(frozen := false);
    FlushAtOnce(h, f.buffer);
    PutAtOnce(Flushed(h), data);
  }

  /** A backend that is busy freezes the stream, and the data waits in the buffer. */
  lemma BusyFreezes(f: File, data: seq<byte>)
    requires f.error == 0 && f.xfer <= f.limit && f.buffer == [] && data != []
    requires f.answers != [] && f.answers[0] == -EAGAIN
    ensures var (r, ret) := Put(f, data);
            r.frozen && r.buffer == data && r.delivered == f.delivered && r.error == 0 && ret == |data|
  {
  }

  /** A tick tries again as well. */
  lemma TickFlushes(f: File)
    requires f.error == 0 && !f.frozen && f.buffer != [] && f.answers != [] && f.answers[0] >= |f.buffer|
    ensures Ticked(f).delivered == f.delivered + f.buffer && Ticked(f).buffer == []
  {
    FlushAtOnce(f.(xfer := 0), f.buffer);
  }

  /** A close waits while the backend is busy, and an error of the wait ends it. */
  lemma CloseWaits(f: File)
    requires f.error == 0 && f.buffer != [] && f.answers != [] && f.answers[0] == -EAGAIN
    requires f.waits != [] && f.waits[0] < 0
    ensures Drained(f).error == f.waits[0] && Drained(f).buffer == f.buffer
  {
  }

  lemma FlushAtOnce(f: File, data: seq<byte>)
    requires data != [] && f.answers != [] && f.answers[0] >= |data|
    ensures FlushLoop(f, data) == (f.(answers := f.answers[1..], delivered := f.delivered + data), [])
  {
    assert data[..|data|] == data && data[|data|..] == [];
    assert FlushLoop(Asked(f, data), []) == (Asked(f, data), []);
  }

  // ---------------------------------------------------------------- why the answer 0 is excluded

  /** When the backend takes nothing in a put loop, the data is gone and the file has no error. */
  lemma ZeroInPutDrops(f: File, data: seq<byte>)
    requires f.error == 0 && f.buffer == [] && f.xfer <= f.limit && data != [] && f.answers != [] && f.answers[0] == 0
    ensures var (r, ret) := Put(f, data);
            r.error == 0 && ret == -EINVAL && r.delivered == f.delivered && r.buffer == f.buffer
  {
  }

  /** When it takes nothing in a flush, what is put overtakes what is buffered, and the file has no error. */
  lemma ZeroInFlushReorders(f: File, data: seq<byte>)
    requires f.error == 0 && f.buffer != [] && f.xfer <= f.limit && data != []
    requires |f.answers| >= 2 && f.answers[0] == 0 && f.answers[1] >= |data|
    ensures var (r, ret) := Put(f, data);
            r.error == 0 && ret == |data| && r.delivered == f.delivered + data && r.buffer == f.buffer
  {
    var g := Flushed(f.(frozen := false));
    assert g.answers[0] == f.answers[1] && g.buffer == f.buffer;
    PutAtOnce(g, data);
  }

  /** An error in the flush does not keep a put from offering its data: the backend may take them although older
      bytes are still in the buffer, and the put reports success. */
  lemma ErrorInFlushIsPassedOver(f: File, data: seq<byte>)
    requires f.error == 0 && f.buffer != [] && f.xfer <= f.limit && data != []
    requires |f.answers| >= 2 && f.answers[0] < 0 && f.answers[0] != -EAGAIN && f.answers[1] >= |data|
    ensures var (r, ret) := Put(f, data);
            r.error == f.answers[0] && ret == |data| && r.delivered == f.delivered + data && r.buffer == f.buffer
  {
    var g := Flushed(f.(frozen := false));
    assert g.answers[0] == f.answers[1] && g.buffer == f.buffer;
    PutAtOnce(g, data);
  }

  lemma PutAtOnce(f: File, data: seq<byte>)
    requires !f.frozen && data != [] && f.xfer <= f.limit && f.answers != [] && f.answers[0] >= |data|
    ensures PutLoop(f, data) ==
            PutEnd(f.(answers := f.answers[1..], delivered := f.delivered + data, xfer := f.xfer + |data|), [], false)
  {
    assert data[..|data|] == data && data[|data|..] == [];
    assert PutLoop(Asked(f, data).(xfer := f.xfer + |data|), []) ==
           PutEnd(Asked(f, data).(xfer := f.xfer + |data|), [], false);
  }
}
