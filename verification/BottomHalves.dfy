/** Bottom halves (async.c): a list of callbacks that qemu_bh_poll walks. A callback may create, schedule,
    cancel and delete bottom halves and may poll again, to any depth; entries are freed only when no walk
    is active. */
module BottomHalves {

  type Id = nat

  datatype Option = None | Some(id: Id)

  /** One active qemu_bh_poll. `due` are the entries that were due when it began and have since been
      neither called, cancelled nor deleted. */
  datatype Walk = Walk(cur: Option, inCall: bool, ret: bool, due: set<Id>)

  datatype State = State(
    nextId: Id,              // ids from here on are unused
    list: seq<Id>,          // from first_bh
    scheduled: set<Id>,
    idle: set<Id>,
    deleted: set<Id>,
    walks: seq<Walk>,       // the innermost walk last; nesting is its length
    calls: seq<Id>)         // callbacks run so far

  datatype Step =
    | New
    | Schedule(b: Id)
    | ScheduleIdle(b: Id)
    | Cancel(b: Id)
    | Delete(b: Id)
    | Poll
    | Visit
    | Return
    | End

  /** Code other than qemu_bh_poll runs: outside all walks or inside a callback. */
  predicate UserRuns(s: State) { s.walks == [] || s.walks[|s.walks| - 1].inCall }

  predicate Enabled(s: State, t: Step) {
    match t
    case New => UserRuns(s)
    case Schedule(b) => UserRuns(s) && b in s.list
    case ScheduleIdle(b) => UserRuns(s) && b in s.list
    case Cancel(b) => UserRuns(s) && b in s.list
    case Delete(b) => UserRuns(s) && b in s.list
    case Poll => UserRuns(s)
    case Visit => !UserRuns(s) && s.walks[|s.walks| - 1].cur != None
    case Return => s.walks != [] && s.walks[|s.walks| - 1].inCall
    case End => !UserRuns(s) && s.walks[|s.walks| - 1].cur == None
  }

  /** The entry after b in the list. */
  function After(list: seq<Id>, b: Id): Option {
    if list == [] then None
    else if list[0] == b then (if |list| > 1 then Some(list[1]) else None)
    else After(list[1..], b)
  }

  function First(list: seq<Id>): Option { if list == [] then None else Some(list[0]) }

  predicate Due(s: State, b: Id) { b in s.scheduled && b !in s.deleted }

  function DueSet(s: State): (d: set<Id>)
    ensures forall b :: b in d <==> b in s.list && Due(s, b)
  {
    set b | b in s.list && Due(s, b)
  }

  /** No walk waits for b any more. */
  function Served(walks: seq<Walk>, b: Id): (r: seq<Walk>)
    ensures |r| == |walks|
    ensures forall i :: 0 <= i < |r| ==> r[i] == walks[i].(due := walks[i].due - {b})
  {
    seq(|walks|, i requires 0 <= i < |walks| => walks[i].(due := walks[i].due - {b}))
  }

  /** The loop that frees deleted entries. */
  function Swept(list: seq<Id>, deleted: set<Id>): (r: seq<Id>)
    ensures forall b :: b in r <==> b in list && b !in deleted
  {
    if list == [] then [] else (if list[0] in deleted then [] else [list[0]]) + Swept(list[1..], deleted)
  }

  function Apply(s: State, t: Step): State
    requires Enabled(s, t)
  {
    var n := |s.walks| - 1;
    match t
    case New => s.(nextId := s.nextId + 1, list := [s.nextId] + s.list)
    case Schedule(b) => if b in s.scheduled then s else s.(scheduled := s.scheduled + {b}, idle := s.idle - {b})
    case ScheduleIdle(b) => if b in s.scheduled then s else s.(scheduled := s.scheduled + {b}, idle := s.idle + {b})
    case Cancel(b) => s.(scheduled := s.scheduled - {b}, walks := Served(s.walks, b))
    case Delete(b) => s.(scheduled := s.scheduled - {b}, deleted := s.deleted + {b}, walks := Served(s.walks, b))
    case Poll => s.(walks := s.walks + [Walk(First(s.list), false, false, DueSet(s))])
    case Visit =>
      var b := s.walks[n].cur.id;
      var w := s.walks[n].(cur := After(s.list, b));
      if Due(s, b) then
        s.(scheduled := s.scheduled - {b}, idle := s.idle - {b}, calls := s.calls + [b],
           walks := Served(s.walks[n := w.(inCall := true, ret := w.ret || b !in s.idle)], b))
      else s.(walks := s.walks[n := w])
    case Return => s.(walks := s.walks[n := s.walks[n].(inCall := false)])
    case End => if n == 0 then s.(walks := [], list := Swept(s.list, s.deleted)) else s.(walks := s.walks[..n])
  }

  predicate Legal(s: State, run: seq<Step>)
    decreases |run|
  {
    run == [] || (Enabled(s, run[0]) && Legal(Apply(s, run[0]), run[1..]))
  }

  function Exec(s: State, run: seq<Step>): State
    requires Legal(s, run)
    decreases |run|
  {
    if run == [] then s else Exec(Apply(s, run[0]), run[1..])
  }

  // ---------------------------------------------------------------- positions in the list

  predicate Distinct(list: seq<Id>) { forall i, j :: 0 <= i < j < |list| ==> list[i] != list[j] }

  /** b is at or behind the position of a. */
  predicate From(list: seq<Id>, a: Option, b: Id) {
    a.Some? && exists i, j :: 0 <= i <= j < |list| && list[i] == a.id && list[j] == b
  }

  lemma {:induction false} AfterIs(list: seq<Id>, i: nat)
    requires Distinct(list) && i < |list|
    ensures After(list, list[i]) == if i + 1 < |list| then Some(list[i + 1]) else None
  {
    if i > 0 { AfterIs(list[1..], i - 1); }
  }

  /** Behind a there is a itself and what follows the entry after it. */
  lemma FromAfter(list: seq<Id>, a: Id, b: Id)
    requires Distinct(list) && From(list, Some(a), b) && b != a
    ensures From(list, After(list, a), b)
  {
    var i, j :| 0 <= i <= j < |list| && list[i] == a && list[j] == b;
    AfterIs(list, i);
    assert list[i + 1] == After(list, a).id && list[j] == b;
  }

  lemma AfterInList(list: seq<Id>, a: Id)
    requires Distinct(list) && a in list && After(list, a).Some?
    ensures After(list, a).id in list
  {
    var i :| 0 <= i < |list| && list[i] == a;
    AfterIs(list, i);
  }

  lemma FromNew(list: seq<Id>, x: Id, a: Option, b: Id)
    requires From(list, a, b)
    ensures From([x] + list, a, b)
  {
    var i, j :| 0 <= i <= j < |list| && list[i] == a.id && list[j] == b;
    assert ([x] + list)[i + 1] == a.id && ([x] + list)[j + 1] == b;
  }

  lemma FromFirst(list: seq<Id>, b: Id)
    requires b in list
    ensures From(list, First(list), b)
  {
    var j :| 0 <= j < |list| && list[j] == b;
    assert list[0] == First(list).id;
  }

  // ---------------------------------------------------------------- the invariant

  /** The saved pointer of a walk is in the list, and everything the walk still owes lies at or behind it. */
  ghost predicate WalkOk(s: State, w: Walk) {
    && (w.cur.Some? ==> w.cur.id in s.list)
    && (forall b :: b in w.due ==> b in s.list && Due(s, b) && From(s.list, w.cur, b))
  }

  ghost predicate Inv(s: State) {
    && Distinct(s.list) && (forall b :: b in s.list || b in s.scheduled || b in s.deleted ==> b < s.nextId)
    && (forall i :: 0 <= i < |s.walks| ==> WalkOk(s, s.walks[i]))
    && (forall i :: 0 <= i < |s.walks| - 1 ==> s.walks[i].inCall)
  }

  lemma InvUser(s: State, t: Step)
    requires Inv(s) && Enabled(s, t) && (t.Schedule? || t.ScheduleIdle? || t.Cancel? || t.Delete?)
    ensures Inv(Apply(s, t))
  {
    var r := Apply(s, t);
    forall i | 0 <= i < |r.walks| ensures WalkOk(r, r.walks[i]) { assert WalkOk(s, s.walks[i]); }
  }

  lemma InvNew(s: State)
    requires Inv(s) && Enabled(s, New)
    ensures Inv(Apply(s, New))
  {
    var r := Apply(s, New);
    forall i, j | 0 <= i < j < |r.list| ensures r.list[i] != r.list[j] {
      if i == 0 { assert s.list[j - 1] in s.list; } else { assert s.list[i - 1] != s.list[j - 1]; }
    }
    forall i | 0 <= i < |r.walks| ensures WalkOk(r, r.walks[i]) {
      assert WalkOk(s, s.walks[i]);
      forall b | b in s.walks[i].due
        ensures From(r.list, s.walks[i].cur, b)
      {
        FromNew(s.list, s.nextId, s.walks[i].cur, b);
      }
    }
  }

  lemma InvPoll(s: State)
    requires Inv(s) && Enabled(s, Poll)
    ensures Inv(Apply(s, Poll))
  {
    var r := Apply(s, Poll);
    forall i | 0 <= i < |r.walks| ensures WalkOk(r, r.walks[i]) {
      if i < |s.walks| {
        assert WalkOk(s, s.walks[i]);
      } else {
        forall b | b in DueSet(s) ensures From(s.list, First(s.list), b) { FromFirst(s.list, b); }
      }
    }
  }

  lemma InvVisit(s: State)
    requires Inv(s) && Enabled(s, Visit)
    ensures Inv(Apply(s, Visit))
  {
    var r, n := Apply(s, Visit), |s.walks| - 1;
    var a := s.walks[n].cur.id;
    assert WalkOk(s, s.walks[n]);
    if After(s.list, a).Some? { AfterInList(s.list, a); }
    forall i | 0 <= i < |r.walks| ensures WalkOk(r, r.walks[i]) {
      assert WalkOk(s, s.walks[i]);
      if i == n {
        forall b | b in r.walks[n].due ensures From(s.list, After(s.list, a), b) { FromAfter(s.list, a, b); }
      }
    }
  }

  lemma InvEnd(s: State)
    requires Inv(s) && Enabled(s, End)
    ensures Inv(Apply(s, End))
  {
    var r, n := Apply(s, End), |s.walks| - 1;
    if n == 0 {
      SweptDistinct(s.list, s.deleted);
    } else {
      forall i | 0 <= i < n ensures WalkOk(r, r.walks[i]) { assert WalkOk(s, s.walks[i]); }
    }
  }

  lemma {:induction false} SweptDistinct(list: seq<Id>, deleted: set<Id>)
    requires Distinct(list)
    ensures Distinct(Swept(list, deleted))
  {
    if list != [] { SweptDistinct(list[1..], deleted); }
  }

  lemma InvKept(s: State, t: Step)
    requires Inv(s) && Enabled(s, t)
    ensures Inv(Apply(s, t))
  {
    match t
    case New => InvNew(s);
    case Poll => InvPoll(s);
    case Visit => InvVisit(s);
    case End => InvEnd(s);
    case Return =>
      var r := Apply(s, t);
      forall i | 0 <= i < |r.walks| ensures WalkOk(r, r.walks[i]) { assert WalkOk(s, s.walks[i]); }
    case Schedule(_) => InvUser(s, t);
    case ScheduleIdle(_) => InvUser(s, t);
    case Cancel(_) => InvUser(s, t);
    case Delete(_) => InvUser(s, t);
  }

  const START := State(0, [], {}, {}, {}, [], [])

  lemma {:induction false} InvHolds(s: State, run: seq<Step>)
    requires Inv(s) && Legal(s, run)
    ensures Inv(Exec(s, run))
    decreases |run|
  {
    if run != [] {
      InvKept(s, run[0]);
      InvHolds(Apply(s, run[0]), run[1..]);
    }
  }

  // ---------------------------------------------------------------- what every run guarantees

  /** The pointer that a walk saved before a callback is still in the list whenever the walk goes on, however
      deep callbacks nest; and when a poll ends, nothing that was due at its start is left. */
  lemma WalksAreSafe(run: seq<Step>, i: nat)
    requires Legal(START, run) && i < |Exec(START, run).walks|
    ensures var s := Exec(START, run);
            && (s.walks[i].cur.Some? ==> s.walks[i].cur.id in s.list)
            && (Enabled(s, End) && i == |s.walks| - 1 ==> s.walks[i].due == {})
  {
    InvHolds(START, run);
    assert WalkOk(Exec(START, run), Exec(START, run).walks[i]);
  }

  /** The entries that a step calls, cancels or deletes. */
  function Serves(s: State, t: Step): set<Id>
    requires Enabled(s, t)
  {
    if t.Cancel? || t.Delete? then {t.b}
    else if t.Visit? && Due(s, s.walks[|s.walks| - 1].cur.id) then {s.walks[|s.walks| - 1].cur.id}
    else {}
  }

  function ServedIn(s: State, run: seq<Step>): set<Id>
    requires Legal(s, run)
    decreases |run|
  {
    if run == [] then {} else Serves(s, run[0]) + ServedIn(Apply(s, run[0]), run[1..])
  }

  /** Walk k is active throughout. */
  predicate Stays(s: State, run: seq<Step>, k: nat)
    requires Legal(s, run)
    decreases |run|
  {
    k < |s.walks| && (run == [] || Stays(Apply(s, run[0]), run[1..], k))
  }

  /** What a walk still owes shrinks only by entries that were called, cancelled or deleted. */
  lemma {:induction false} OwedUntilServed(s: State, run: seq<Step>, k: nat)
    requires Legal(s, run) && Stays(s, run, k)
    ensures k < |Exec(s, run).walks| && s.walks[k].due <= Exec(s, run).walks[k].due + ServedIn(s, run)
    decreases |run|
  {
    if run != [] {
      var r := Apply(s, run[0]);
      OwedUntilServed(r, run[1..], k);
      assert s.walks[k].due <= r.walks[k].due + Serves(s, run[0]);
    }
  }

  /** Each entry that is due when a poll begins has been called, by this walk or a nested one, or was
      cancelled or deleted, before the poll ends. */
  lemma PollServesAllDue(s: State, run: seq<Step>, b: Id)
    requires Inv(s) && Enabled(s, Poll) && b in s.list && Due(s, b)
    requires Legal(Apply(s, Poll), run) && Stays(Apply(s, Poll), run, |s.walks|)
    requires |Exec(Apply(s, Poll), run).walks| == |s.walks| + 1 && Enabled(Exec(Apply(s, Poll), run), End)
    ensures b in ServedIn(Apply(s, Poll), run)
  {
    var p := Apply(s, Poll);
    InvKept(s, Poll);
    InvHolds(p, run);
    OwedUntilServed(p, run, |s.walks|);
    assert WalkOk(Exec(p, run), Exec(p, run).walks[|s.walks|]);
  }

  /** A deleted entry is never called again. */
  lemma {:induction false} DeletedNeverCalled(s: State, run: seq<Step>, b: Id)
    requires Legal(s, run) && b in s.deleted && b < s.nextId
    ensures s.calls <= Exec(s, run).calls && b !in Exec(s, run).calls[|s.calls|..]
    decreases |run|
  {
    if run != [] {
      var r := Apply(s, run[0]);
      DeletedNeverCalled(r, run[1..], b);
      assert r.calls == s.calls ||
             (|r.calls| == |s.calls| + 1 && r.calls[..|s.calls|] == s.calls && r.calls[|s.calls|] != b);
    }
  }

  /** No request is lost: a due entry stays due, and in the list, until it is called, cancelled or deleted. */
  lemma {:induction false} DueUntilServed(s: State, run: seq<Step>, b: Id)
    requires Inv(s) && Legal(s, run) && b in s.list && Due(s, b) && b !in ServedIn(s, run)
    ensures b in Exec(s, run).list && Due(Exec(s, run), b)
    decreases |run|
  {
    if run != [] {
      InvKept(s, run[0]);
      DueUntilServed(Apply(s, run[0]), run[1..], b);
    }
  }

  /** b is due from here to the end. */
  predicate DueThroughout(s: State, run: seq<Step>, b: Id)
    requires Legal(s, run)
    decreases |run|
  {
    Due(s, b) && (run == [] || DueThroughout(Apply(s, run[0]), run[1..], b))
  }

  /** Step p of the run has made b due, and it has been due ever since. */
  predicate MadeDue(s: State, run: seq<Step>, b: Id, p: nat)
    requires Legal(s, run)
    decreases |run|
  {
    p < |run| && if p == 0 then !Due(s, b) && DueThroughout(Apply(s, run[0]), run[1..], b)
                 else MadeDue(Apply(s, run[0]), run[1..], b, p - 1)
  }

  lemma {:induction false} IdleStays(s: State, run: seq<Step>, b: Id)
    requires Legal(s, run) && DueThroughout(s, run, b)
    ensures b in Exec(s, run).idle <==> b in s.idle
    decreases |run|
  {
    if run != [] { IdleStays(Apply(s, run[0]), run[1..], b); }
  }

  /** A request is idle exactly if qemu_bh_schedule_idle made it, whatever came after; and only the two functions that
      schedule make an entry due. */
  lemma {:induction false} IdleAsMade(s: State, run: seq<Step>, b: Id, p: nat)
    requires Legal(s, run) && MadeDue(s, run, b, p)
    ensures run[p] == Schedule(b) || run[p] == ScheduleIdle(b)
    ensures b in Exec(s, run).idle <==> run[p] == ScheduleIdle(b)
    decreases |run|
  {
    if p == 0 {
      IdleStays(Apply(s, run[0]), run[1..], b);
    } else {
      IdleAsMade(Apply(s, run[0]), run[1..], b, p - 1);
    }
  }

  /** Every entry that has become due was made so by some step. */
  lemma SomeStepMadeDue(s: State, run: seq<Step>, b: Id) returns (p: nat)
    requires Legal(s, run) && !Due(s, b) && Due(Exec(s, run), b)
    ensures MadeDue(s, run, b, p)
  {
    var q := LastMadeDue(s, run, b);
    p := q;
  }

  lemma {:induction false} LastMadeDue(s: State, run: seq<Step>, b: Id) returns (p: int)
    requires Legal(s, run) && Due(Exec(s, run), b)
    ensures if p >= 0 then MadeDue(s, run, b, p) else DueThroughout(s, run, b)
    decreases |run|
  {
    p := -1;
    if run != [] {
      var q := LastMadeDue(Apply(s, run[0]), run[1..], b);
      if q >= 0 { p := q + 1; } else if !Due(s, b) { p := 0; }
    }
  }

  /** Walk k itself runs a callback that was not idle. */
  predicate RunsBusy(s: State, t: Step, k: nat)
    requires Enabled(s, t)
  {
    t.Visit? && |s.walks| == k + 1 && Due(s, s.walks[k].cur.id) && s.walks[k].cur.id !in s.idle
  }

  predicate BusyIn(s: State, run: seq<Step>, k: nat)
    requires Legal(s, run)
    decreases |run|
  {
    run != [] && (RunsBusy(s, run[0], k) || BusyIn(Apply(s, run[0]), run[1..], k))
  }

  /** The value that a poll returns: whether it has itself run a callback that was not idle. What nested polls
      ran does not count. */
  lemma {:induction false} ReturnIsBusy(s: State, run: seq<Step>, k: nat)
    requires Legal(s, run) && Stays(s, run, k)
    ensures k < |Exec(s, run).walks| && Exec(s, run).walks[k].ret == (s.walks[k].ret || BusyIn(s, run, k))
    decreases |run|
  {
    if run != [] {
      var r := Apply(s, run[0]);
      ReturnIsBusy(r, run[1..], k);
      assert r.walks[k].ret == (s.walks[k].ret || RunsBusy(s, run[0], k));
    }
  }
}
