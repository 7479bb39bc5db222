/** The completion of a multiwrite (block.c): bdrv_aio_multiwrite submits the merged requests one by one
    while earlier ones may already complete; a counter with a dummy request decides when the callbacks of
    the caller run. */
module MultiwriteCompletion {

  const EIO: int := 5

  datatype Phase = Submitting | Calling | Accepted | Looped | Failed

  datatype State = State(
    total: nat,               // requests that remain after merging
    numCallbacks: nat,
    next: nat,                // loop variable i
    phase: Phase,             // Calling, Accepted: inside bdrv_aio_writev, before and after the driver took it
    inFlight: set<nat>,
    numRequests: int,
    error: int,
    freed: bool,
    results: seq<int>,        // the ret of every multiwrite_cb so far
    calls: seq<(nat, int)>)   // user callbacks run so far, each with the error it got

  datatype Step = Call | Accept | Return | Reject | Complete(j: nat, ret: int) | EndLoop

  predicate Enabled(s: State, t: Step) {
    match t
    case Call => s.phase == Submitting && s.next < s.total
    case Accept => s.phase == Calling
    case Return => s.phase == Accepted
    case Reject => s.phase == Calling
    case Complete(j, _) => j in s.inFlight
    case EndLoop => s.phase == Submitting && s.next == s.total
  }

  /** multiwrite_user_cb. */
  function UserCalls(n: nat, error: int): seq<(nat, int)> { seq(n, i => (i, error)) }

  /** multiwrite_cb. */
  function Cb(s: State, ret: int): State {
    var error := if ret < 0 && s.error == 0 then ret else s.error;
    var r := s.(error := error, numRequests := s.numRequests - 1, results := s.results + [ret]);
    if r.numRequests == 0 then r.(calls := s.calls + UserCalls(s.numCallbacks, error), freed := true) else r
  }

  function Apply(s: State, t: Step): State
    requires Enabled(s, t)
  {
    match t
    case Call => s.(phase := Calling, numRequests := s.numRequests + 1)
    case Accept => s.(phase := Accepted, inFlight := s.inFlight + {s.next})
    case Return => s.(phase := Submitting, next := s.next + 1)
    case Reject =>
      if s.next == 0 then s.(phase := Failed, freed := true)
      else Cb(Cb(s, -EIO).(phase := Looped), 0)
    case Complete(j, ret) => Cb(s.(inFlight := s.inFlight - {j}), ret)
    case EndLoop => Cb(s.(phase := Looped), 0)
  }

  predicate Legal(s: State, run: seq<Step>)
    decreases |run|
  {
    run == [] || (Enabled(s, run[0]) && Legal(Apply(s, run[0]), run[1..]))
  }

  function Exec(s: State, run: seq<Step>): State
    requires Legal(s, run)
    decreases |run|
  {
    if run == [] then s else Exec(Apply(s, run[0]), run[1..])
  }

  /** bdrv_aio_multiwrite at the head of its loop: the counter holds the dummy request. */
  function Start(total: nat, numCallbacks: nat): State {
    State(total, numCallbacks, 0, Submitting, {}, 1, 0, false, [], [])
  }

  /** The first negative result, or 0. */
  function FirstError(results: seq<int>): int {
    if results == [] then 0
    else
      var e := FirstError(results[..|results| - 1]);
      if e == 0 && results[|results| - 1] < 0 then results[|results| - 1] else e
  }

  /** What the counter still has to wait for besides the requests in flight. */
  function Waiting(p: Phase): int { if p == Looped then 0 else if p == Calling then 2 else 1 }

  ghost predicate Inv(s: State) {
    && (s.phase != Failed ==> s.numRequests == |s.inFlight| + Waiting(s.phase) && s.error == FirstError(s.results))
    && (s.phase != Failed ==> (s.freed <==> s.numRequests == 0))
    && (s.phase == Failed ==> s.freed && s.inFlight == {} && s.calls == [])
    && s.calls == (if s.freed && s.phase != Failed then UserCalls(s.numCallbacks, s.error) else [])
    && (forall j :: j in s.inFlight ==> j <= s.next)
    && (s.phase == Submitting || s.phase == Calling ==> s.next !in s.inFlight)
    && (s.next == 0 && s.phase in {Submitting, Calling} ==> s.inFlight == {})
  }

  lemma FirstErrorSnoc(results: seq<int>, r: int)
    ensures FirstError(results + [r]) == if FirstError(results) == 0 && r < 0 then r else FirstError(results)
  {
    assert (results + [r])[..|results|] == results;
  }

  lemma InvComplete(s: State, j: nat, ret: int)
    requires Inv(s) && j in s.inFlight
    ensures Inv(Apply(s, Complete(j, ret)))
  {
    FirstErrorSnoc(s.results, ret);
    assert |s.inFlight| >= 1;
    assert |s.inFlight - {j}| == |s.inFlight| - 1;
  }

  lemma InvReject(s: State)
    requires Inv(s) && Enabled(s, Reject)
    ensures Inv(Apply(s, Reject))
  {
    FirstErrorSnoc(s.results, -EIO);
    FirstErrorSnoc(s.results + [-EIO], 0);
  }

  lemma InvEndLoop(s: State)
    requires Inv(s) && Enabled(s, EndLoop)
    ensures Inv(Apply(s, EndLoop))
  {
    FirstErrorSnoc(s.results, 0);
  }

  lemma InvKept(s: State, t: Step)
    requires Inv(s) && Enabled(s, t)
    ensures Inv(Apply(s, t))
  {
    match t
    case Complete(j, ret) => InvComplete(s, j, ret);
    case Reject => InvReject(s);
    case EndLoop => InvEndLoop(s);
    case Accept => assert |s.inFlight + {s.next}| == |s.inFlight| + 1;
    case _ =>
  }

  lemma {:induction false} InvHolds(s: State, run: seq<Step>)
    requires Inv(s) && Legal(s, run)
    ensures Inv(Exec(s, run))
    decreases |run|
  {
    if run != [] {
      InvKept(s, run[0]);
      InvHolds(Apply(s, run[0]), run[1..]);
    }
  }

  /** In every reachable state the callbacks of the caller have run, each once and in order, with the first
      negative result as their error, exactly when the loop has ended and nothing is in flight; and never
      after an early failure. */
  lemma CallbacksRunOnce(total: nat, numCallbacks: nat, run: seq<Step>)
    requires Legal(Start(total, numCallbacks), run)
    ensures var s := Exec(Start(total, numCallbacks), run);
            s.calls ==
              if s.phase == Looped && s.inFlight == {} then UserCalls(numCallbacks, FirstError(s.results))
              else []
    ensures var s := Exec(Start(total, numCallbacks), run);
            |s.calls| == if s.phase == Looped && s.inFlight == {} then numCallbacks else 0
  {
    var s0 := Start(total, numCallbacks);
    InvHolds(s0, run);
    CallbacksFixed(s0, run);
    var s := Exec(s0, run);
    if s.phase == Looped && s.inFlight != {} {
      assert |s.inFlight| > 0;
    }
  }

  /** What a step tells the caller, read off the step: the result of a request, or a refusal. */
  function Told(t: Step): int { if t.Complete? then t.ret else if t.Reject? then -EIO else 0 }

  /** The first negative one of these in a run, or 0. */
  function FirstTold(run: seq<Step>): int {
    if run == [] then 0 else if Told(run[0]) < 0 then Told(run[0]) else FirstTold(run[1..])
  }

  lemma {:induction false} ErrorIsTold(s: State, run: seq<Step>)
    requires Legal(s, run) && Exec(s, run).phase != Failed
    ensures Exec(s, run).error == if s.error != 0 then s.error else FirstTold(run)
    decreases |run|
  {
    if run != [] {
      if s.phase == Calling && s.next == 0 && run[0].Reject? { StaysFailed(Apply(s, run[0]), run[1..]); }
      ErrorIsTold(Apply(s, run[0]), run[1..]);
    }
  }

  lemma {:induction false} StaysFailed(s: State, run: seq<Step>)
    requires Legal(s, run) && s.phase == Failed
    ensures Exec(s, run).phase == Failed
    decreases |run|
  {
    if run != [] { StaysFailed(Apply(s, run[0]), run[1..]); }
  }

  /** The error that every callback gets is the first negative result of a request, a request that was refused late
      counting with -EIO when it is refused; 0 if there is none. */
  lemma CallbacksGetFirst(total: nat, numCallbacks: nat, run: seq<Step>, i: nat)
    requires Legal(Start(total, numCallbacks), run) && i < |Exec(Start(total, numCallbacks), run).calls|
    ensures Exec(Start(total, numCallbacks), run).calls[i] == (i, FirstTold(run))
  {
    CallbacksRunOnce(total, numCallbacks, run);
    InvHolds(Start(total, numCallbacks), run);
    ErrorIsTold(Start(total, numCallbacks), run);
  }

  /** It is 0 exactly when no request failed and none was refused. */
  lemma {:induction false} FirstToldIs(run: seq<Step>)
    ensures FirstTold(run) <= 0
    ensures FirstTold(run) == 0 <==> Reject !in run && forall j, ret :: Complete(j, ret) in run ==> ret >= 0
    ensures FirstTold(run) < 0 ==>
              exists k :: 0 <= k < |run| && FirstTold(run) == Told(run[k])
                          && forall m :: 0 <= m < k ==> Told(run[m]) >= 0
  {
    if run != [] {
      FirstToldIs(run[1..]);
      assert run == [run[0]] + run[1..];
      if Told(run[0]) < 0 {
        assert run[0].Complete? ==> Complete(run[0].j, run[0].ret) in run;
        assert FirstTold(run) == Told(run[0]);
      } else if FirstTold(run) < 0 {
        var k :| 0 <= k < |run[1..]| && FirstTold(run[1..]) == Told(run[1..][k]) &&
                 forall m :: 0 <= m < k ==> Told(run[1..][m]) >= 0;
        assert forall m :: 0 < m <= k ==> run[m] == run[1..][m - 1];
        assert FirstTold(run) == Told(run[k + 1]);
      }
    }
  }

  lemma Reported(total: nat, numCallbacks: nat, run: seq<Step>)
    requires Legal(Start(total, numCallbacks), run) && Exec(Start(total, numCallbacks), run).phase != Failed
    ensures Exec(Start(total, numCallbacks), run).error == FirstTold(run)
    ensures (Reject in run ==> FirstTold(run) < 0) && run != [Call, Reject]
  {
    ErrorIsTold(Start(total, numCallbacks), run);
    FirstToldIs(run);
    FailsAtOnce(total, numCallbacks, run);
  }

  lemma {:induction false} CallbacksFixed(s: State, run: seq<Step>)
    requires Legal(s, run)
    ensures Exec(s, run).numCallbacks == s.numCallbacks
    decreases |run|
  {
    if run != [] { CallbacksFixed(Apply(s, run[0]), run[1..]); }
  }

  /** The whole multiwrite fails exactly if its first request is refused. */
  lemma {:induction false} FailsAtOnce(total: nat, numCallbacks: nat, run: seq<Step>)
    requires Legal(Start(total, numCallbacks), run)
    ensures Exec(Start(total, numCallbacks), run).phase == Failed <==> run == [Call, Reject]
  {
    var s := Start(total, numCallbacks);
    if |run| >= 2 {
      var t, rest := Apply(Apply(s, run[0]), run[1]), run[1..][1..];
      assert run == [run[0], run[1]] + rest;
      assert Exec(s, run) == Exec(Apply(s, run[0]), run[1..]) == Exec(t, rest) && run[1] == run[1..][0];
      if run[1] == Reject { NothingLeft(t, rest); } else { NeverFails(t, rest); }
    }
  }

  lemma NothingLeft(s: State, run: seq<Step>)
    requires Legal(s, run) && s.phase == Failed && s.inFlight == {}
    ensures run == []
  {
  }

  lemma {:induction false} NeverFails(s: State, run: seq<Step>)
    requires Legal(s, run) && s.phase != Failed && (s.next > 0 || s.phase == Accepted || s.phase == Looped)
    ensures Exec(s, run).phase != Failed
    decreases |run|
  {
    if run != [] { NeverFails(Apply(s, run[0]), run[1..]); }
  }

  /** After a refusal no request is submitted any more. */
  lemma {:induction false} NothingAfterRefusal(s: State, run: seq<Step>, p: nat, q: nat)
    requires Legal(s, run) && p < q < |run| && run[p] == Reject
    ensures run[q].Complete?
    decreases |run|
  {
    if p > 0 {
      NothingAfterRefusal(Apply(s, run[0]), run[1..], p - 1, q - 1);
    } else {
      OnlyCompletions(Apply(s, run[0]), run[1..], q - 1);
    }
  }

  lemma {:induction false} OnlyCompletions(s: State, run: seq<Step>, q: nat)
    requires Legal(s, run) && q < |run| && s.phase in {Looped, Failed}
    ensures run[q].Complete?
    decreases |run|
  {
    if q > 0 { OnlyCompletions(Apply(s, run[0]), run[1..], q - 1); }
  }

  /** Nothing touches the MultiwriteCB after it was freed. */
  lemma NoUseAfterFree(total: nat, numCallbacks: nat, run: seq<Step>, t: Step)
    requires Legal(Start(total, numCallbacks), run) && Enabled(Exec(Start(total, numCallbacks), run), t)
    ensures !Exec(Start(total, numCallbacks), run).freed
  {
    InvHolds(Start(total, numCallbacks), run);
    var s := Exec(Start(total, numCallbacks), run);
    if t.Complete? { assert |s.inFlight| > 0; }
  }

  /** Every run can be completed: while the structure lives, some step is possible. */
  lemma NeverStuck(total: nat, numCallbacks: nat, run: seq<Step>)
    requires Legal(Start(total, numCallbacks), run) && !Exec(Start(total, numCallbacks), run).freed
    ensures exists t :: Enabled(Exec(Start(total, numCallbacks), run), t)
  {
    InvHolds(Start(total, numCallbacks), run);
    NextBounded(Start(total, numCallbacks), run);
    var s := Exec(Start(total, numCallbacks), run);
    match s.phase
    case Submitting => assert Enabled(s, if s.next < s.total then Call else EndLoop);
    case Calling => assert Enabled(s, Accept);
    case Accepted => assert Enabled(s, Return);
    case Looped =>
      assert s.inFlight != {};
      var j :| j in s.inFlight;
      assert Enabled(s, Complete(j, 0));
  }

  lemma {:induction false} NextBounded(s: State, run: seq<Step>)
    requires Legal(s, run) && s.next <= s.total && (s.phase in {Calling, Accepted} ==> s.next < s.total)
    ensures Exec(s, run).next <= Exec(s, run).total
    ensures Exec(s, run).phase in {Calling, Accepted} ==> Exec(s, run).next < Exec(s, run).total
    decreases |run|
  {
    if run != [] { NextBounded(Apply(s, run[0]), run[1..]); }
  }

  // ---------------------------------------------------------------- the code

  /** MultiwriteCB. */
  class Mcb {
    var error: int
    var numRequests: int
    const numCallbacks: nat
    var calls: seq<(nat, int)>
    var freed: bool
    var inFlight: set<nat>   // what the driver has taken and not completed

    constructor (numCallbacks: nat)
      ensures this.numCallbacks == numCallbacks && error == 0 && numRequests == 0 && calls == [] && !freed &&
              inFlight == {}
    {
      this.numCallbacks := numCallbacks;
      error, numRequests, calls, freed, inFlight := 0, 0, [], false, {};
    }

    /** The fields agree with a state of the protocol. */
    ghost predicate Holds(s: State)
      reads this
    {
      error == s.error && numRequests == s.numRequests && numCallbacks == s.numCallbacks && calls == s.calls &&
      freed == s.freed
      && inFlight == s.inFlight
    }

    /** multiwrite_user_cb. */
    method UserCb()
      modifies this`calls
      ensures calls == old(calls) + UserCalls(numCallbacks, error)
    {
      var i := 0;
      while i < numCallbacks
        invariant 0 <= i <= numCallbacks && calls == old(calls) + UserCalls(i, error)
      {
        calls := calls + [(i, error)];
        assert UserCalls(i + 1, error) == UserCalls(i, error) + [(i, error)];
        i := i + 1;
      }
    }

    /** multiwrite_cb. */
    method MultiwriteCb(ret: int, ghost s: State)
      requires Holds(s)
      modifies this
      ensures Holds(Cb(s, ret))
    {
      if ret < 0 && error == 0 {
        error := ret;
      }
      numRequests := numRequests - 1;
      if numRequests == 0 {
        UserCb();
        freed := true;
      }
    }

    /** A request is refused after others were taken: it counts as failed, and the dummy request is completed. */
    method RefuseLate(ghost before: State)
      requires Holds(before) && Enabled(before, Reject) && before.next > 0
      modifies this
      ensures Holds(Apply(before, Reject))
    {
      MultiwriteCb(-EIO, before);
      MultiwriteCb(0, Cb(before, -EIO).(phase := Looped));
    }

    /** bdrv_aio_multiwrite from the dummy request on. Between submissions any requests in flight may
        complete; the driver may refuse one. Returns 0 or -1. */
    method Submit(total: nat) returns (ret: int, ghost run: seq<Step>, ghost s: State)
      requires numRequests == 0 && error == 0 && calls == [] && !freed && inFlight == {}
      modifies this
      ensures Legal(Start(total, numCallbacks), run) && s == Exec(Start(total, numCallbacks), run) && Holds(s)
      ensures if ret == 0 then s.phase == Looped else ret == -1 && s.phase == Failed && calls == []
      ensures ret == 0 ==> error == FirstTold(run) && (Reject in run ==> error < 0)
      ensures ret == -1 <==> run == [Call, Reject]
    {
      ghost var s0 := Start(total, numCallbacks);
      s, run := s0, [];
      numRequests := 1;
      var i := 0;
      while i < total
        invariant 0 <= i <= total && Legal(s0, run) && s == Exec(s0, run) && Holds(s) && s.total == total
        invariant s.phase == Submitting && s.next == i && s.numCallbacks == numCallbacks
      {
        numRequests := numRequests + 1;
        run, s := Extend(s0, run, s, Call);
        var taken: bool := *;
        if !taken {
          ghost var before := s;
          run, s := Extend(s0, run, s, Reject);
          if i == 0 {
            freed := true;
            InvHolds(s0, run);
            FailsAtOnce(total, numCallbacks, run);
            return -1, run, s;
          }
          RefuseLate(before);
          Reported(total, numCallbacks, run);
          return 0, run, s;
        }
        run, s := Taken(i, s0, run, s);
        i := i + 1;
      }
      ghost var before := s;
      run, s := Extend(s0, run, s, EndLoop);
      MultiwriteCb(0, before.(phase := Looped));
      Reported(total, numCallbacks, run);
      ret := 0;
    }

    /** The driver takes request i; it may complete before bdrv_aio_writev returns. */
    method Taken(i: nat, ghost s0: State, ghost run0: seq<Step>, ghost s1: State)
      returns (ghost run: seq<Step>, ghost s: State)
      requires Legal(s0, run0) && s1 == Exec(s0, run0) && Holds(s1) && s1.phase == Calling && s1.next == i
      modifies this
      ensures Legal(s0, run) && s == Exec(s0, run) && Holds(s) && s.phase == Submitting && s.next == i + 1
      ensures s.total == s1.total && s.numCallbacks == s1.numCallbacks
    {
      inFlight := inFlight + {i};
      run, s := Extend(s0, run0, s1, Accept);
      run, s := SomeComplete(s0, run, s);
      run, s := Extend(s0, run, s, Return);
      run, s := SomeComplete(s0, run, s);
    }

    /** Any number of requests in flight complete, in any order, with any results. */
    method SomeComplete(ghost s0: State, ghost run0: seq<Step>, ghost s1: State)
      returns (ghost run: seq<Step>, ghost s: State)
      requires Legal(s0, run0) && s1 == Exec(s0, run0) && Holds(s1)
      modifies this
      ensures Legal(s0, run) && s == Exec(s0, run) && Holds(s)
      ensures s.phase == s1.phase && s.next == s1.next && s.total == s1.total && s.numCallbacks == s1.numCallbacks
    {
      run, s := run0, s1;
      var n: nat := *;
      while n > 0
        invariant Legal(s0, run) && s == Exec(s0, run) && Holds(s)
        invariant s.phase == s1.phase && s.next == s1.next && s.total == s1.total && s.numCallbacks == s1.numCallbacks
      {
        var j: nat := *;
        var r: int := *;
        ghost var before := s;
        if j in inFlight {
          inFlight := inFlight - {j};
          run, s := Extend(s0, run, s, Complete(j, r));
          MultiwriteCb(r, before.(inFlight := before.inFlight - {j}));
        }
        n := n - 1;
      }
    }
  }

  lemma {:induction false} Extend(s0: State, run0: seq<Step>, s1: State, t: Step) returns (run: seq<Step>, s: State)
    requires Legal(s0, run0) && s1 == Exec(s0, run0) && Enabled(s1, t)
    ensures run == run0 + [t] && Legal(s0, run) && s == Exec(s0, run) == Apply(s1, t)
    decreases |run0|
  {
    run, s := run0 + [t], Apply(s1, t);
    if run0 == [] {
      assert run == [t] && [t][1..] == [];
    } else {
      var r, x := Extend(Apply(s0, run0[0]), run0[1..], s1, t);
      assert run[1..] == run0[1..] + [t];
    }
  }
}
