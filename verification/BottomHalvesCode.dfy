/** The functions of async.c on the list of bottom halves. qemu_bh_poll runs callbacks that may do anything
    the interface allows, including polling again; each call is proved to be a run of the machine in
    BottomHalves. */
module BottomHalvesCode {
  import opened BottomHalves

  ghost predicate Leads(s: State, run: seq<Step>, r: State) { Legal(s, run) && Exec(s, run) == r }

  lemma {:induction false} Extend(s: State, run: seq<Step>, m: State, t: Step, k: nat)
    requires Leads(s, run, m) && Enabled(m, t)
    ensures Leads(s, run + [t], Apply(m, t)) && ServedIn(s, run + [t]) == ServedIn(s, run) + Serves(m, t)
    ensures BusyIn(s, run + [t], k) == (BusyIn(s, run, k) || RunsBusy(m, t, k))
    decreases |run|
  {
    if run == [] {
      assert run + [t] == [t] && [t][1..] == [];
    } else {
      Extend(Apply(s, run[0]), run[1..], m, t, k);
      assert (run + [t])[1..] == run[1..] + [t];
    }
  }

  /** A run from p, in which a poll has just begun, that is still inside that poll. */
  ghost predicate Tracks(p: State, run: seq<Step>, r: State) {
    Leads(p, run, r) && 0 < |p.walks| <= |r.walks| && Stays(p, run, |p.walks| - 1)
  }

  lemma {:induction false} StaysJoin(s: State, x: seq<Step>, m: State, y: seq<Step>, k: nat)
    requires Leads(s, x, m) && Stays(s, x, k) && Legal(m, y) && Stays(m, y, k)
    ensures Leads(s, x + y, Exec(m, y)) && Stays(s, x + y, k)
    decreases |x|
  {
    if x == [] {
      assert x + y == y;
    } else {
      StaysJoin(Apply(s, x[0]), x[1..], m, y, k);
      assert (x + y)[1..] == x[1..] + y;
    }
  }

  lemma {:induction false} OuterStays(s: State, run: seq<Step>, j: nat, k: nat)
    requires Legal(s, run) && Stays(s, run, k) && j <= k
    ensures Stays(s, run, j)
    decreases |run|
  {
    if run != [] { OuterStays(Apply(s, run[0]), run[1..], j, k); }
  }

  lemma TracksOn(p: State, run: seq<Step>, m: State, t: Step)
    requires Tracks(p, run, m) && Enabled(m, t) && !t.End?
    ensures Tracks(p, run + [t], Apply(m, t))
  {
    OneStays(m, t, |p.walks| - 1);
    StaysJoin(p, run, m, [t], |p.walks| - 1);
  }

  lemma OneStays(s: State, t: Step, k: nat)
    requires Enabled(s, t) && k < |s.walks| && k < |Apply(s, t).walks|
    ensures Leads(s, [t], Apply(s, t)) && Stays(s, [t], k)
  {
    assert [t][1..] == [];
  }

  /** The run of a whole poll. */
  function Whole(run: seq<Step>): seq<Step> { [Step.Poll] + (run + [End]) }

  /** A poll that ends has served what was due when it began, and its return value says whether it has itself run a
      callback that was not idle. */
  lemma PollEnds(s: State, run: seq<Step>, q: State)
    requires Inv(s) && Enabled(s, Step.Poll) && Tracks(Apply(s, Step.Poll), run, q)
    requires |q.walks| == |s.walks| + 1 && Enabled(q, End)
    ensures Leads(s, Whole(run), Apply(q, End)) && DueSet(s) <= ServedIn(s, Whole(run))
    ensures q.walks[|s.walks|].ret == BusyIn(s, Whole(run), |s.walks|)
  {
    PollReturns(s, run, q);
    PollServes(s, run, q);
  }

  lemma PollReturns(s: State, run: seq<Step>, q: State)
    requires Enabled(s, Step.Poll) && Tracks(Apply(s, Step.Poll), run, q)
    requires |q.walks| == |s.walks| + 1 && Enabled(q, End)
    ensures Leads(s, Whole(run), Apply(q, End)) && q.walks[|s.walks|].ret == BusyIn(s, Whole(run), |s.walks|)
    ensures ServedIn(Apply(s, Step.Poll), run) <= ServedIn(s, Whole(run))
  {
    var p, k := Apply(s, Step.Poll), |s.walks|;
    Extend(p, run, q, End, k);
    WholeRun(s, run + [End], k);
    ReturnIsBusy(p, run, k);
  }

  lemma PollServes(s: State, run: seq<Step>, q: State)
    requires Inv(s) && Enabled(s, Step.Poll) && Tracks(Apply(s, Step.Poll), run, q)
    requires |q.walks| == |s.walks| + 1 && Enabled(q, End)
    ensures DueSet(s) <= ServedIn(Apply(s, Step.Poll), run)
  {
    forall b | b in DueSet(s) ensures b in ServedIn(Apply(s, Step.Poll), run) { PollServesAllDue(s, run, b); }
  }

  lemma WholeRun(s: State, run: seq<Step>, k: nat)
    requires Enabled(s, Step.Poll) && Legal(Apply(s, Step.Poll), run)
    ensures Leads(s, [Step.Poll] + run, Exec(Apply(s, Step.Poll), run))
    ensures ServedIn(s, [Step.Poll] + run) == ServedIn(Apply(s, Step.Poll), run)
    ensures BusyIn(s, [Step.Poll] + run, k) == BusyIn(Apply(s, Step.Poll), run, k)
  {
    assert ([Step.Poll] + run)[1..] == run;
  }

  /** A poll inside a callback is part of the run of the poll around it. */
  lemma NestedTracks(p: State, run0: seq<Step>, s: State, run: seq<Step>, q: State)
    requires Tracks(p, run0, s) && Enabled(s, Step.Poll) && Tracks(Apply(s, Step.Poll), run, q)
    requires |q.walks| == |s.walks| + 1 && Enabled(q, End)
    ensures Tracks(p, run0 + Whole(run), Apply(q, End))
  {
    var m, k := Apply(s, Step.Poll), |p.walks| - 1;
    OneStays(s, Step.Poll, k);
    OuterStays(m, run, k, |s.walks|);
    OneStays(q, End, k);
    StaysJoin(m, run, q, [End], k);
    StaysJoin(s, [Step.Poll], m, run + [End], k);
    StaysJoin(p, run0, s, Whole(run), k);
  }

  /** The entries from b to the end of the list. */
  function Left(list: seq<Id>, b: Option): nat {
    if b == None || list == [] then 0 else if list[0] == b.id then |list| else Left(list[1..], b)
  }

  /** What the innermost walk has still to visit. */
  function LeftIn(s: State): nat
    requires s.walks != []
  {
    Left(s.list, s.walks[|s.walks| - 1].cur)
  }

  lemma {:induction false} LeftIs(list: seq<Id>, i: nat)
    requires Distinct(list) && i < |list|
    ensures Left(list, Some(list[i])) == |list| - i
  {
    if i > 0 { LeftIs(list[1..], i - 1); }
  }

  lemma LeftShrinks(list: seq<Id>, b: Id)
    requires Distinct(list) && b in list
    ensures Left(list, After(list, b)) < Left(list, Some(b))
  {
    var i :| 0 <= i < |list| && list[i] == b;
    AfterIs(list, i);
    LeftIs(list, i);
    if i + 1 < |list| { LeftIs(list, i + 1); }
  }

  lemma {:induction false} LeftGrowth(front: seq<Id>, list: seq<Id>, b: Option)
    requires Distinct(front + list) && (b.Some? ==> b.id in list)
    ensures Left(front + list, b) == Left(list, b)
  {
    if front == [] {
      assert front + list == list;
    } else if b.Some? {
      assert (front + list)[1..] == front[1..] + list;
      assert (front + list)[0] == front[0];
      var j :| 0 <= j < |list| && list[j] == b.id;
      assert (front + list)[|front| + j] == b.id;
      LeftGrowth(front[1..], list, b);
    }
  }

  /** The list has only grown, at its head. */
  ghost predicate Grown(a: seq<Id>, b: seq<Id>) { |a| <= |b| && b == b[..|b| - |a|] + a }

  lemma GrownTwice(a: seq<Id>, b: seq<Id>, c: seq<Id>)
    requires Grown(a, b) && Grown(b, c)
    ensures Grown(a, c)
  {
    var x, y := b[..|b| - |a|], c[..|c| - |b|];
    assert c == y + (x + a) == (y + x) + a;
    assert c[..|c| - |a|] == y + x;
  }

  lemma LeftKept(a: seq<Id>, b: seq<Id>, cur: Option)
    requires Grown(a, b) && Distinct(b) && (cur.Some? ==> cur.id in a)
    ensures Left(b, cur) == Left(a, cur)
  {
    LeftGrowth(b[..|b| - |a|], a, cur);
  }

  /** The same walks are active, each where it was. */
  ghost predicate SameWalks(s: State, r: State) {
    && |r.walks| == |s.walks|
    && forall i :: 0 <= i < |s.walks| ==> r.walks[i].cur == s.walks[i].cur && r.walks[i].inCall == s.walks[i].inCall
  }

  /** The same, except for the innermost. */
  ghost predicate SameOuter(s: State, r: State) {
    && |r.walks| == |s.walks|
    && forall i :: 0 <= i < |s.walks| - 1 ==> r.walks[i].cur == s.walks[i].cur && r.walks[i].inCall == s.walks[i].inCall
  }

  lemma StepGrows(a: seq<Id>, b: seq<Id>)
    requires b == a || (|b| == |a| + 1 && b[1..] == a)
    ensures Grown(a, b)
  {
    if b == a { assert b[..0] == []; } else { assert b[..1] + b[1..] == b; }
  }

  lemma Regroup(k: seq<Id>, a: seq<Id>, b: seq<Id>)
    ensures k + (a + b) == (k + a) + b
  {
  }

  lemma {:induction false} SweptAppend(a: seq<Id>, x: Id, deleted: set<Id>)
    ensures Swept(a + [x], deleted) == Swept(a, deleted) + if x in deleted then [] else [x]
  {
    var last := if x in deleted then [] else [x];
    if a == [] {
      assert a + [x] == [x] && [x][1..] == [];
      assert Swept([x], deleted) == last + Swept([], deleted);
    } else {
      var k := if a[0] in deleted then [] else [a[0]];
      SweptAppend(a[1..], x, deleted);
      assert (a + [x])[1..] == a[1..] + [x];
      Regroup(k, Swept(a[1..], deleted), last);
    }
  }

  /** The list while it is swept: `done` entries of `list` have been looked at, i of them kept. */
  ghost predicate Sweeping(list: seq<Id>, deleted: set<Id>, now: seq<Id>, i: nat, done: nat) {
    i <= |now| && done <= |list| && now == Swept(list[..done], deleted) + list[done..] &&
    i == |Swept(list[..done], deleted)|
  }

  lemma SweepNext(list: seq<Id>, deleted: set<Id>, now: seq<Id>, i: nat, done: nat)
    requires Sweeping(list, deleted, now, i, done) && i < |now|
    ensures now[i] in deleted ==> Sweeping(list, deleted, now[..i] + now[i + 1..], i, done + 1)
    ensures now[i] !in deleted ==> Sweeping(list, deleted, now, i + 1, done + 1)
  {
    var kept := Swept(list[..done], deleted);
    assert now[i] == list[done] && now[..i] == kept && now[i + 1..] == list[done + 1..];
    assert list[..done + 1] == list[..done] + [list[done]];
    SweptAppend(list[..done], list[done], deleted);
    if now[i] in deleted {
      assert kept + [] == kept;
    } else {
      assert now == kept + [now[i]] + list[done + 1..];
    }
  }

  class Context {
    var st: State

    /** Between calls of the interface. */
    ghost predicate Valid()
      reads this
    {
      Inv(st) && UserRuns(st)
    }

    constructor ()
      ensures Valid() && st == START
    {
      st := START;
    }

    /** qemu_bh_new */
    method BhNew() returns (b: Id)
      requires Valid()
      modifies this
      ensures Valid() && st == Apply(old(st), New) && b == old(st).nextId && b in st.list && !Due(st, b)
    {
      InvKept(st, New);
      b := st.nextId;
      st := st.(nextId := b + 1, list := [b] + st.list);
    }

    /** qemu_bh_schedule */
    method BhSchedule(b: Id)
      requires Valid() && b in st.list
      modifies this
      ensures Valid() && st == Apply(old(st), Schedule(b)) && b in st.scheduled
      ensures if b in old(st).scheduled then st == old(st) else b !in st.idle
    {
      InvKept(st, Schedule(b));
      if b !in st.scheduled { st := st.(scheduled := st.scheduled + {b}, idle := st.idle - {b}); }
    }

    /** qemu_bh_schedule_idle */
    method BhScheduleIdle(b: Id)
      requires Valid() && b in st.list
      modifies this
      ensures Valid() && st == Apply(old(st), ScheduleIdle(b)) && b in st.scheduled
      ensures if b in old(st).scheduled then st == old(st) else b in st.idle
    {
      InvKept(st, ScheduleIdle(b));
      if b !in st.scheduled { st := st.(scheduled := st.scheduled + {b}, idle := st.idle + {b}); }
    }

    /** qemu_bh_cancel */
    method BhCancel(b: Id)
      requires Valid() && b in st.list
      modifies this
      ensures Valid() && st == Apply(old(st), Cancel(b)) && !Due(st, b)
    {
      InvKept(st, Cancel(b));
      st := st.(scheduled := st.scheduled - {b}, walks := Served(st.walks, b));
    }

    /** qemu_bh_delete: the entry stays in the list until no poll is active. */
    method BhDelete(b: Id)
      requires Valid() && b in st.list
      modifies this
      ensures Valid() && st == Apply(old(st), Delete(b)) && !Due(st, b) && b in st.list && b !in st.scheduled
    {
      InvKept(st, Delete(b));
      st := st.(scheduled := st.scheduled - {b}, deleted := st.deleted + {b}, walks := Served(st.walks, b));
    }

    /** A callback makes one call of the interface other than qemu_bh_poll. */
    method CallOnce(t: Step, ghost start: State, ghost run: seq<Step>)
      requires Valid() && Enabled(st, t) && Tracks(start, run, st)
      requires t.New? || t.Schedule? || t.ScheduleIdle? || t.Cancel? || t.Delete?
      modifies this
      ensures Valid() && Tracks(start, run + [t], st) && SameWalks(old(st), st) && Grown(old(st).list, st.list)
    {
      TracksOn(start, run, st, t);
      match t
      case New => var b := BhNew();
      case Schedule(b) => BhSchedule(b);
      case ScheduleIdle(b) => BhScheduleIdle(b);
      case Cancel(b) => BhCancel(b);
      case Delete(b) => BhDelete(b);
      StepGrows(old(st).list, st.list);
    }

    /** A callback: any number of calls of the interface, and polls nested at most `depth` deep. */
    method Callback(depth: nat, ghost start: State, ghost run0: seq<Step>) returns (ghost run: seq<Step>)
      requires Valid() && Tracks(start, run0, st)
      modifies this
      ensures Valid() && Tracks(start, run, st) && SameWalks(old(st), st) && Grown(old(st).list, st.list)
      decreases depth, 0
    {
      run := run0;
      StepGrows(st.list, st.list);
      var n: nat := *;
      while n > 0
        invariant Valid() && Tracks(start, run, st) && SameWalks(old(st), st) && Grown(old(st).list, st.list)
      {
        var t: Step := *;
        ghost var before := st.list;
        if t.Poll? && depth > 0 {
          var ret;
          ghost var own;
          ret, own, run := PollNested(depth - 1, start, run);
          GrownTwice(old(st).list, before, st.list);
        } else if (t.New? || t.Schedule? || t.ScheduleIdle? || t.Cancel? || t.Delete?) && Enabled(st, t) {
          CallOnce(t, start, run);
          run := run + [t];
          GrownTwice(old(st).list, before, st.list);
        }
        n := n - 1;
      }
    }

    /** The body of the loop of qemu_bh_poll up to the call: next is saved first, and a due entry is no longer
        scheduled when its callback begins. */
    method Advance()
      requires Inv(st) && Enabled(st, Visit)
      modifies this
      ensures Inv(st) && st == Apply(old(st), Visit)
    {
      InvKept(st, Visit);
      var n := |st.walks| - 1;
      var bh := st.walks[n].cur.id;
      var walk := st.walks[n].(cur := After(st.list, bh));
      if bh !in st.deleted && bh in st.scheduled {
        if bh !in st.idle { walk := walk.(ret := true); }
        walk := walk.(inCall := true);
        st := st.(scheduled := st.scheduled - {bh}, idle := st.idle - {bh}, calls := st.calls + [bh],
                  walks := Served(st.walks[n := walk], bh));
      } else {
        st := st.(walks := st.walks[n := walk]);
      }
    }

    /** The walk moves on; if the entry is due its callback begins. */
    method Look(ghost start: State, ghost run0: seq<Step>)
      requires Inv(st) && Enabled(st, Visit) && Tracks(start, run0, st)
      modifies this
      ensures Inv(st) && st.walks != [] && Tracks(start, run0 + [Visit], st) && SameOuter(old(st), st)
      ensures st.list == old(st).list &&
              (st.walks[|st.walks| - 1].cur.Some? ==> st.walks[|st.walks| - 1].cur.id in st.list)
      ensures LeftIn(st) < LeftIn(old(st))
    {
      ghost var n := |st.walks| - 1;
      assert WalkOk(st, st.walks[n]);
      LeftShrinks(st.list, st.walks[n].cur.id);
      TracksOn(start, run0, st, Visit);
      Advance();
      assert WalkOk(st, st.walks[n]);
    }

    /** The callback returns to the walk. */
    method Back(ghost start: State, ghost run: seq<Step>)
      requires Inv(st) && Enabled(st, Return) && Tracks(start, run, st)
      modifies this
      ensures Inv(st) && Tracks(start, run + [Return], st) && st.list == old(st).list
      ensures |st.walks| == |old(st).walks| && forall i :: 0 <= i < |st.walks| ==>
              st.walks[i].cur == old(st).walks[i].cur
      ensures forall i :: 0 <= i < |st.walks| ==> st.walks[i].inCall == (old(st).walks[i].inCall && i < |st.walks| - 1)
    {
      InvKept(st, Return);
      TracksOn(start, run, st, Return);
      var n := |st.walks| - 1;
      st := st.(walks := st.walks[n := st.walks[n].(inCall := false)]);
    }

    /** The callback of the current entry, until it returns to the walk. */
    method Run(depth: nat, ghost start: State, ghost run0: seq<Step>) returns (ghost run: seq<Step>)
      requires Valid() && Tracks(start, run0, st)
      requires st.walks[|st.walks| - 1].cur.Some? ==> st.walks[|st.walks| - 1].cur.id in st.list
      modifies this
      ensures Inv(st) && st.walks != [] && !UserRuns(st) && Tracks(start, run, st) && SameOuter(old(st), st)
      ensures Grown(old(st).list, st.list)
      ensures LeftIn(st) == LeftIn(old(st))
      decreases depth, 1
    {
      ghost var list, cur := st.list, st.walks[|st.walks| - 1].cur;
      run := Callback(depth, start, run0);
      Back(start, run);
      run := run + [Return];
      LeftKept(list, st.list, cur);
    }

    /** The callback of the current entry, if it was due. */
    method RunIfDue(depth: nat, ghost start: State, ghost run0: seq<Step>) returns (ghost run: seq<Step>)
      requires Inv(st) && st.walks != [] && Tracks(start, run0, st)
      requires st.walks[|st.walks| - 1].cur.Some? ==> st.walks[|st.walks| - 1].cur.id in st.list
      modifies this
      ensures Inv(st) && st.walks != [] && !UserRuns(st) && Tracks(start, run, st) && SameOuter(old(st), st)
      ensures Grown(old(st).list, st.list)
      ensures LeftIn(st) == LeftIn(old(st))
      decreases depth, 2
    {
      run := run0;
      StepGrows(st.list, st.list);
      if st.walks[|st.walks| - 1].inCall {
        run := Run(depth, start, run);
      }
    }

    /** One turn of the loop of qemu_bh_poll. */
    method VisitOne(depth: nat, ghost start: State, ghost run0: seq<Step>) returns (ghost run: seq<Step>)
      requires Inv(st) && Enabled(st, Visit) && Tracks(start, run0, st)
      modifies this
      ensures Inv(st) && st.walks != [] && !UserRuns(st) && Tracks(start, run, st) && SameOuter(old(st), st)
      ensures Grown(old(st).list, st.list)
      ensures LeftIn(st) < LeftIn(old(st))
      decreases depth, 3
    {
      Look(start, run0);
      run := RunIfDue(depth, start, run0 + [Visit]);
    }

    /** The loop of qemu_bh_poll. It ends, although callbacks may add entries: those go before the walk. */
    method WalkList(depth: nat, ghost start: State, ghost run0: seq<Step>) returns (ghost run: seq<Step>)
      requires Inv(st) && st.walks != [] && !UserRuns(st) && Tracks(start, run0, st)
      modifies this
      ensures Inv(st) && Tracks(start, run, st) && !UserRuns(st) && SameOuter(old(st), st) &&
              Grown(old(st).list, st.list)
      ensures st.walks[|st.walks| - 1].cur == None
      decreases depth, 4
    {
      run := run0;
      StepGrows(st.list, st.list);
      while st.walks[|st.walks| - 1].cur != None
        invariant Inv(st) && st.walks != [] && !UserRuns(st) && Tracks(start, run, st)
        invariant SameOuter(old(st), st) && Grown(old(st).list, st.list)
        decreases LeftIn(st)
      {
        ghost var before := st.list;
        run := VisitOne(depth, start, run);
        GrownTwice(old(st).list, before, st.list);
      }
    }

    /** Another walk begins at the head of the list. */
    method Begin()
      requires Valid()
      modifies this
      ensures Inv(st) && !UserRuns(st) && st == Apply(old(st), Step.Poll) && Tracks(st, [], st)
    {
      InvKept(st, Step.Poll);
      st := st.(walks := st.walks + [Walk(First(st.list), false, false, DueSet(st))]);
    }

    /** The innermost of several walks ends: nesting stays positive, so nothing is freed. */
    method Leave() returns (ret: bool)
      requires Inv(st) && Enabled(st, End) && |st.walks| > 1
      modifies this
      ensures Inv(st) && st == Apply(old(st), End) && st.list == old(st).list
      ensures st.walks == old(st).walks[..|old(st).walks| - 1] && ret == old(st).walks[|old(st).walks| - 1].ret
    {
      InvKept(st, End);
      ret := st.walks[|st.walks| - 1].ret;
      st := st.(walks := st.walks[..|st.walks| - 1]);
    }

    /** qemu_bh_poll from inside a callback. */
    method PollNested(depth: nat, ghost start: State, ghost run0: seq<Step>)
      returns (ret: bool, ghost own: seq<Step>, ghost run: seq<Step>)
      requires Valid() && Tracks(start, run0, st)
      modifies this
      ensures Valid() && run == run0 + own && Tracks(start, run, st) && Leads(old(st), own, st)
      ensures SameWalks(old(st), st) && Grown(old(st).list, st.list)
      ensures DueSet(old(st)) <= ServedIn(old(st), own) && ret == BusyIn(old(st), own, |old(st).walks|)
      decreases depth, 5
    {
      Begin();
      ghost var inner := WalkList(depth, st, []);
      PollEnds(old(st), inner, st);
      NestedTracks(start, run0, old(st), inner, st);
      own, run := Whole(inner), run0 + Whole(inner);
      ret := Leave();
    }

    /** The loop that frees deleted entries. */
    method Sweep()
      modifies this
      ensures st == old(st).(list := Swept(old(st).list, st.deleted))
    {
      var i := 0;
      ghost var done: nat := 0;
      assert st.list[..0] == [] && [] + st.list == st.list;
      while i < |st.list|
        invariant st == old(st).(list := st.list) && Sweeping(old(st).list, st.deleted, st.list, i, done)
        decreases |st.list| - i
      {
        SweepNext(old(st).list, st.deleted, st.list, i, done);
        if st.list[i] in st.deleted {
          st := st.(list := st.list[..i] + st.list[i + 1..]);
        } else {
          i := i + 1;
        }
        done := done + 1;
      }
      assert old(st).list[..done] == old(st).list;
    }

    /** qemu_bh_poll from the main loop: whatever was due has been called, cancelled or deleted, no deleted entry is
        left, and the result says whether a callback has run that was not idle. */
    method Poll(depth: nat) returns (ret: bool, ghost run: seq<Step>)
      requires Valid() && st.walks == []
      modifies this
      ensures Valid() && st.walks == [] && Leads(old(st), run, st)
      ensures DueSet(old(st)) <= ServedIn(old(st), run) && ret == BusyIn(old(st), run, 0)
      ensures forall b :: b in st.list ==> b !in st.deleted
    {
      Begin();
      ghost var inner := WalkList(depth, st, []);
      PollEnds(old(st), inner, st);
      run := Whole(inner);
      ret := st.walks[|st.walks| - 1].ret;
      InvKept(st, End);
      ghost var swept := Apply(st, End);
      st := st.(walks := []);
      Sweep();
      assert st == swept;
    }

    /** qemu_bh_update_timeout: no waiting when a callback is due, and at most 10 ms when an idle one is. */
    method UpdateTimeout(timeout: int) returns (r: int)
      ensures (exists b :: b in st.list && Due(st, b) && b !in st.idle) ==> r == 0
      ensures (forall b :: b in st.list && Due(st, b) ==> b in st.idle) && DueSet(st) != {}
              ==> r == if timeout < 10 then timeout else 10
      ensures DueSet(st) == {} ==> r == timeout
    {
      r := timeout;
      var i := 0;
      ghost var seen := false;
      while i < |st.list|
        invariant 0 <= i <= |st.list|
        invariant forall k :: 0 <= k < i && Due(st, st.list[k]) ==> st.list[k] in st.idle && seen
        invariant seen ==> exists k :: 0 <= k < i && Due(st, st.list[k])
        invariant r == if seen && timeout > 10 then 10 else timeout
      {
        if Due(st, st.list[i]) {
          assert st.list[i] in DueSet(st);
          if st.list[i] in st.idle {
            r := if 10 < r then 10 else r;
            seen := true;
          } else {
            return 0;
          }
        }
        i := i + 1;
      }
    }
  }
}
