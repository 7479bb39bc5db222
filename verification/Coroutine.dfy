/** Coroutines that run on one thread each and hand control over under a lock (coroutine-gthread.c,
    qemu-coroutine.c). Every critical section of coroutine_lock is one step; everything else a thread does is
    split where another thread could come in between. */
module Coroutine {

  type Id = nat

  datatype Option = None | Some(id: Id)

  datatype Action = Zero | Yielded | Terminated

  /** The call that a thread is in: which of enter, yield and the end of coroutine_thread switches, and to whom. */
  datatype Frame = Start | Entering(to: Id) | Yielding(to: Id) | Finishing(to: Id)

  datatype Pc =
    | Fresh                               // thread created, before its first look at runnable
    | Running                             // its own code
    | About(frame: Frame)                 // before the lock of qemu_coroutine_switch
    | Waiting(woken: bool, frame: Frame)  // in g_cond_wait; woken: a broadcast came since it began
    | Out(frame: Frame)                   // lock released, the action not read yet
    | Joining(dead: Id)                   // in qemu_coroutine_delete
    | Ending                              // switched with TERMINATE, thread still alive
    | Ended                               // thread ended

  /** The last three fields record history: the leader whose turn the coroutine takes part in, the coroutine
      that entered it, and the action of the switch that last resumed it. */
  datatype Co = Co(leader: bool, caller: Option, runnable: bool, action: Action, pc: Pc,
                   group: Option, below: Option, passed: Action)

  /** top: the coroutine whose turn it is, for each leader. */
  datatype State = State(nextId: Id, cos: map<Id, Co>, aborted: bool, top: map<Id, Id>)

  datatype Step =
    | NewLeader                // a thread calls qemu_coroutine_self for the first time
    | Create(c: Id)            // c creates a coroutine
    | FirstLook(c: Id)         // coroutine_wait_runnable finds the lock free
    | Enter(c: Id, co: Id)     // qemu_coroutine_enter up to the switch
    | Yield(c: Id)             // qemu_coroutine_yield up to the switch
    | Finish(c: Id)            // the entry function returns
    | Switch(c: Id)            // the critical section of qemu_coroutine_switch
    | Wake(c: Id)              // g_cond_wait returns, for a broadcast or for no reason
    | Return(c: Id)            // the action is read and acted upon
    | Exit(c: Id)              // the thread ends
    | Join(c: Id)              // g_thread_join returns, the coroutine is freed

  predicate Enabled(s: State, t: Step) {
    && !s.aborted
    && (!t.NewLeader? ==> t.c in s.cos)
    && match t
       case NewLeader => true
       case Create(c) => s.cos[c].pc.Running?
       case FirstLook(c) => s.cos[c].pc.Fresh?
       case Enter(c, co) => s.cos[c].pc.Running? && co in s.cos && !s.cos[co].leader
       case Yield(c) => s.cos[c].pc.Running?
       case Finish(c) => s.cos[c].pc.Running? && !s.cos[c].leader
       case Switch(c) => s.cos[c].pc.About? && !s.cos[c].pc.frame.Start? && s.cos[c].pc.frame.to in s.cos
       case Wake(c) => s.cos[c].pc.Waiting?
       case Return(c) => s.cos[c].pc.Out? && !s.cos[c].pc.frame.Start?
       case Exit(c) => s.cos[c].pc.Ending?
       case Join(c) => s.cos[c].pc.Joining? && s.cos[c].pc.dead in s.cos && s.cos[s.cos[c].pc.dead].pc.Ended?
  }

  function Signal(c: Co): Co { if c.pc.Waiting? then c.(pc := Waiting(true, c.pc.frame)) else c }

  function Broadcast(cos: map<Id, Co>): (r: map<Id, Co>)
    ensures r.Keys == cos.Keys && forall i :: i in cos ==> r[i] == Signal(cos[i])
  {
    map i | i in cos :: Signal(cos[i])
  }

  /** After a wait loop has looked at runnable. */
  function Looked(c: Co, frame: Frame): Pc {
    if !c.runnable then Waiting(false, frame) else if frame.Start? then Running else Out(frame)
  }

  /** qemu_coroutine_switch from taking the lock to releasing it, which g_cond_wait does too. */
  function Switched(s: State, a: Id): State
    requires Enabled(s, Switch(a))
  {
    var f := s.cos[a].pc.frame;
    var act := if f.Finishing? then Terminated else Yielded;
    var left := s.cos[a := s.cos[a].(runnable := false, action := act)];
    var given := left[f.to := left[f.to].(runnable := true, action := act, passed := act)];
    var called := Broadcast(given);
    var waits := called[a := called[a].(pc := if f.Finishing? then Ending else Looked(called[a], f))];
    var grouped := if f.Entering? then waits[f.to := waits[f.to].(group := s.cos[a].group, below := Some(a))]
                   else waits[a := waits[a].(group := None, below := None)];
    s.(cos := grouped, top := if s.cos[a].group.Some? then s.top[s.cos[a].group.id := f.to] else s.top)
  }

  function Apply(s: State, t: Step): State
    requires Enabled(s, t)
  {
    match t
    case NewLeader =>
      var n := s.nextId;
      s.(nextId := n + 1, top := s.top[n := n],
         cos := s.cos[n := Co(true, None, true, Zero, Running, Some(n), None, Zero)])
    case Create(_) =>
      s.(nextId := s.nextId + 1, cos := s.cos[s.nextId := Co(false, None, false, Zero, Fresh, None, None, Zero)])
    case FirstLook(c) => s.(cos := s.cos[c := s.cos[c].(pc := Looked(s.cos[c], Start))])
    case Enter(c, co) =>
      if s.cos[co].caller != None then s.(aborted := true)
      else s.(cos := s.cos[co := s.cos[co].(caller := Some(c))][c := s.cos[c].(pc := About(Entering(co)))])
    case Yield(c) =>
      if s.cos[c].caller == None then s.(aborted := true)
      else s.(cos := s.cos[c := s.cos[c].(caller := None, pc := About(Yielding(s.cos[c].caller.id)))])
    case Finish(c) =>
      if s.cos[c].caller == None then s.(aborted := true)
      else s.(cos := s.cos[c := s.cos[c].(pc := About(Finishing(s.cos[c].caller.id)))])
    case Switch(c) => Switched(s, c)
    case Wake(c) => s.(cos := s.cos[c := s.cos[c].(pc := Looked(s.cos[c], s.cos[c].pc.frame))])
    case Return(c) =>
      if s.cos[c].action == Zero then s.(aborted := true)
      else
        var pc := if s.cos[c].action == Yielded then Running else Joining(s.cos[c].pc.frame.to);
        s.(cos := s.cos[c := s.cos[c].(pc := pc)])
    case Exit(c) => s.(cos := s.cos[c := s.cos[c].(pc := Ended)])
    case Join(c) =>
      var d := s.cos[c].pc.dead;
      var kept := map i | i in s.cos && i != d :: s.cos[i];
      s.(cos := if c in kept then kept[c := kept[c].(pc := Running)] else kept)
  }

  const START := State(0, map[], false, map[])

  // ---------------------------------------------------------------- the invariant

  /** A coroutine that nobody has entered: never, or not since it yielded. */
  predicate Parked(k: Co) {
    && k.group == None && k.below == None && !k.runnable
    && (k.pc.Fresh? || (k.pc.Waiting? && (k.pc.frame.Start? || k.pc.frame.Yielding?)))
  }

  predicate Dead(k: Co) { k.group == None && k.below == None && !k.runnable && (k.pc.Ending? || k.pc.Ended?) }

  /** It has entered `to` and waits for it. */
  predicate Buried(k: Co, to: Id) { k.group.Some? && !k.runnable && k.pc.Waiting? && k.pc.frame == Entering(to) }

  /** A coroutine whose turn it is: it runs, or it is about to without anybody's help. */
  predicate Active(k: Co) {
    && k.group.Some? && k.runnable && !k.pc.Ending? && !k.pc.Ended?
    && (k.pc.Waiting? ==> k.pc.woken)
    && (k.pc.Out? ==> !k.pc.frame.Start?)
    && (k.pc.About? ==> !k.pc.frame.Start?)
    && (k.pc.Waiting? || k.pc.Out? ==> !k.pc.frame.Finishing?)
    && (k.leader ==> !k.pc.Fresh?)
  }

  /** The switch that resumed c and has not been acted upon: what it passed is still there to be read, and a
      termination is that of the coroutine that c entered. */
  predicate Resumed(s: State, c: Id)
    requires c in s.cos
  {
    var k := s.cos[c];
    && (k.runnable && (k.pc.Waiting? || k.pc.Out? || k.pc.Fresh?) ==>
          && k.action == k.passed && k.passed != Zero
          && (k.passed == Terminated ==>
                !k.pc.Fresh? && k.pc.frame.Entering? && k.pc.frame.to in s.cos
                && Dead(s.cos[k.pc.frame.to]) && s.cos[k.pc.frame.to].caller == Some(c)))
    && (k.pc.Joining? ==> k.pc.dead in s.cos && Dead(s.cos[k.pc.dead]) && s.cos[k.pc.dead].caller == Some(c))
  }

  /** c will free d. */
  predicate WillFree(k: Co, d: Id) {
    k.pc == Joining(d) ||
    (k.runnable && k.passed == Terminated && (k.pc.Waiting? || k.pc.Out?) && k.pc.frame == Entering(d))
  }

  /** The group of c: its turn, or under a coroutine it has entered. */
  predicate Grouped(s: State, c: Id)
    requires c in s.cos
  {
    var k := s.cos[c];
    && (k.leader ==> k.group == Some(c) && k.below == None)
    && (k.runnable <==> k.group.Some? && k.group.id in s.top && s.top[k.group.id] == c)
    && (k.group.Some? ==> k.group.id in s.top && (k.leader || k.below.Some?))
    && (k.group.Some? && !k.runnable ==>
          k.pc.Waiting? && k.pc.frame.Entering? && k.pc.frame.to in s.cos && s.cos[k.pc.frame.to].below == Some(c))
    && (k.group.Some? && k.runnable ==> Active(k))
    && (k.group == None ==> Parked(k) || Dead(k))
  }

  /** c stands on the coroutine that entered it. */
  predicate Stacked(s: State, c: Id)
    requires c in s.cos
  {
    var k := s.cos[c];
    k.below.Some? ==> k.below.id in s.cos && Buried(s.cos[k.below.id], c) && s.cos[k.below.id].group == k.group
  }

  predicate Called(s: State, c: Id)
    requires c in s.cos
  {
    var k := s.cos[c];
    && (k.leader ==> k.caller == None)
    && (k.below.Some? ==> if k.pc.About? && k.pc.frame.Yielding? then k.caller == None && k.below == Some(k.pc.frame.to)
                          else k.caller == k.below)
    && (k.pc.About? && !k.pc.frame.Entering? ==> k.below.Some? && !k.pc.frame.Start? && k.below == Some(k.pc.frame.to))
    && (Parked(k) && k.caller.Some? ==> k.caller.id in s.cos && s.cos[k.caller.id].pc == About(Entering(c)))
    && (Dead(k) ==> k.caller.Some? && k.caller.id in s.cos && WillFree(s.cos[k.caller.id], c))
    && (k.pc.About? && k.pc.frame.Entering? ==>
          k.pc.frame.to in s.cos && Parked(s.cos[k.pc.frame.to]) && s.cos[k.pc.frame.to].caller == Some(c))
  }

  ghost predicate CoOk(s: State, c: Id)
    requires c in s.cos
  {
    c < s.nextId && Grouped(s, c) && Stacked(s, c) && Called(s, c) && Resumed(s, c)
  }

  predicate TopOk(s: State, l: Id)
    requires l in s.top
  {
    l in s.cos && s.cos[l].leader && s.top[l] in s.cos && s.cos[s.top[l]].group == Some(l)
  }

  ghost predicate Inv(s: State) {
    && (forall c {:trigger CoOk(s, c)} :: c in s.cos ==> CoOk(s, c))
    && (forall l {:trigger TopOk(s, l)} :: l in s.top ==> TopOk(s, l))
  }

  // ---------------------------------------------------------------- every step keeps it

  /** Nobody enters a coroutine that is on its way to yield and has already cleared its caller. */
  predicate Settled(s: State, t: Step) {
    t.Enter? && t.co in s.cos ==> !(s.cos[t.co].pc.About? && s.cos[t.co].caller == None)
  }

  /** What coroutine x needs to know of another coroutine k holds of k1 as well. */
  predicate Alike(k: Co, k1: Co, x: Id) {
    && (Buried(k, x) ==> Buried(k1, x) && k1.group == k.group)
    && (k.below == Some(x) ==> k1.below == Some(x))
    && (Dead(k) && k.caller == Some(x) ==> Dead(k1) && k1.caller == Some(x))
    && (Parked(k) && k.caller == Some(x) ==> Parked(k1) && k1.caller == Some(x))
    && (k.pc == About(Entering(x)) ==> k1.pc == About(Entering(x)))
    && (WillFree(k, x) ==> WillFree(k1, x))
  }

  /** x needs to know something of k. */
  predicate Matters(k: Co, x: Id) {
    || Buried(k, x) || k.below == Some(x) || ((Dead(k) || Parked(k)) && k.caller == Some(x))
    || k.pc == About(Entering(x)) || WillFree(k, x)
  }

  /** x sees no difference between the two states in the others. */
  ghost predicate Unseen(s: State, r: State, x: Id) {
    forall i {:trigger s.cos[i]} {:trigger r.cos[i]} ::
      i in s.cos && Matters(s.cos[i], x) ==> i in r.cos && Alike(s.cos[i], r.cos[i], x)
  }

  ghost predicate SameTurn(s: State, r: State, x: Id)
    requires x in s.cos
  {
    var g := s.cos[x].group;
    g.Some? && g.id in s.top ==> g.id in r.top && (s.top[g.id] == x <==> r.top[g.id] == x)
  }

  /** A coroutine that a step leaves alone, and whose needs it leaves alone, stays right. */
  lemma Others(s: State, r: State, x: Id)
    requires x in s.cos && CoOk(s, x) && x in r.cos && r.cos[x] == s.cos[x] && s.nextId <= r.nextId
    requires Unseen(s, r, x) && SameTurn(s, r, x)
    ensures CoOk(r, x)
  {
    assert Grouped(r, x);
    assert Stacked(r, x);
    assert Called(r, x);
    assert Resumed(r, x);
  }

  lemma KeptNew(s: State, t: Step)
    requires Inv(s) && Enabled(s, t) && (t.NewLeader? || t.Create?)
    ensures Inv(Apply(s, t))
  {
    var r := Apply(s, t);
    Unused(s);
    forall x | x in r.cos ensures CoOk(r, x) {
      if x != s.nextId {
        assert CoOk(s, x);
        Others(s, r, x);
      }
    }
    forall l | l in r.top ensures TopOk(r, l) { if l != s.nextId { assert TopOk(s, l); } }
  }

  lemma Unused(s: State)
    requires Inv(s)
    ensures s.nextId !in s.cos && s.nextId !in s.top
  {
    assert s.nextId in s.cos ==> CoOk(s, s.nextId);
    assert s.nextId in s.top ==> TopOk(s, s.nextId);
  }

  /** A step that gives c a record k and changes nothing else. */
  lemma KeptOne(s: State, c: Id, k: Co)
    requires Inv(s) && c in s.cos && k.group == s.cos[c].group && k.leader == s.cos[c].leader
    requires CoOk(s.(cos := s.cos[c := k]), c)
    requires forall x :: x in s.cos && x != c ==> Alike(s.cos[c], k, x)
    ensures Inv(s.(cos := s.cos[c := k]))
  {
    var r := s.(cos := s.cos[c := k]);
    forall x | x in r.cos && x != c ensures CoOk(r, x) {
      assert CoOk(s, x);
      Others(s, r, x);
    }
    forall l | l in r.top ensures TopOk(r, l) { assert TopOk(s, l); }
  }

  lemma KeptLook(s: State, t: Step)
    requires Inv(s) && Enabled(s, t) && (t.FirstLook? || t.Wake?)
    ensures Inv(Apply(s, t))
  {
    assert CoOk(s, t.c);
    var k := Apply(s, t).cos[t.c];
    assert CoOk(Apply(s, t), t.c);
    KeptOne(s, t.c, k);
  }

  lemma KeptLeave(s: State, t: Step)
    requires Inv(s) && Enabled(s, t) && (t.Yield? || t.Finish?)
    ensures Inv(Apply(s, t))
  {
    assert CoOk(s, t.c);
    if s.cos[t.c].caller == None {
      KeptAbort(s);
    } else {
      var k := Apply(s, t).cos[t.c];
      assert CoOk(Apply(s, t), t.c);
      KeptOne(s, t.c, k);
    }
  }

  lemma KeptReturn(s: State, c: Id)
    requires Inv(s) && Enabled(s, Return(c))
    ensures Inv(Apply(s, Return(c))) && !Apply(s, Return(c)).aborted
  {
    assert CoOk(s, c);
    var k := Apply(s, Return(c)).cos[c];
    assert CoOk(Apply(s, Return(c)), c);
    KeptOne(s, c, k);
  }

  lemma KeptExit(s: State, c: Id)
    requires Inv(s) && Enabled(s, Exit(c))
    ensures Inv(Apply(s, Exit(c)))
  {
    assert CoOk(s, c);
    var k := Apply(s, Exit(c)).cos[c];
    assert CoOk(Apply(s, Exit(c)), c);
    KeptOne(s, c, k);
  }

  /** A step that changes a and b and whose turn it is in at most one group. */
  lemma KeptTwo(s: State, r: State, a: Id, b: Id)
    requires Inv(s) && a in s.cos && b in s.cos && r.cos.Keys == s.cos.Keys && r.nextId == s.nextId
    requires forall x :: x in s.cos && x != a && x != b ==> r.cos[x] == s.cos[x]
    requires forall x :: x in s.cos && x != a && x != b ==>
               Alike(s.cos[a], r.cos[a], x) && Alike(s.cos[b], r.cos[b], x) && SameTurn(s, r, x)
    requires CoOk(r, a) && CoOk(r, b) && forall l :: l in r.top ==> TopOk(r, l)
    ensures Inv(r)
  {
    forall x | x in r.cos && x != a && x != b ensures CoOk(r, x) {
      assert CoOk(s, x);
      Others(s, r, x);
    }
  }

  lemma EnterParked(s: State, t: Step)
    requires Inv(s) && Enabled(s, t) && t.Enter? && Settled(s, t)
    ensures s.cos[t.co].caller == None ==> Parked(s.cos[t.co]) && t.c != t.co
  {
    assert CoOk(s, t.co) && CoOk(s, t.c);
  }

  lemma KeptAbort(s: State)
    requires Inv(s)
    ensures Inv(s.(aborted := true))
  {
    var r := s.(aborted := true);
    forall x | x in s.cos ensures CoOk(r, x) { assert CoOk(s, x); }
    forall l | l in s.top ensures TopOk(r, l) { assert TopOk(s, l); }
  }

  lemma KeptEnter(s: State, t: Step)
    requires Inv(s) && Enabled(s, t) && t.Enter? && Settled(s, t)
    ensures Inv(Apply(s, t))
  {
    EnterParked(s, t);
    assert CoOk(s, t.c) && CoOk(s, t.co);
    var r := Apply(s, t);
    if s.cos[t.co].caller != None {
      KeptAbort(s);
    } else {
      assert CoOk(r, t.c);
      assert CoOk(r, t.co);
      forall l | l in r.top ensures TopOk(r, l) { assert TopOk(s, l); }
      KeptTwo(s, r, t.c, t.co);
    }
  }

  /** The broadcast by itself: everybody who waits is woken. */
  function Called1(s: State): State { s.(cos := Broadcast(s.cos)) }

  lemma KeptBroadcastCo(s: State, x: Id)
    requires x in s.cos && CoOk(s, x)
    ensures CoOk(Called1(s), x)
  {
    assert Grouped(Called1(s), x);
    assert Stacked(Called1(s), x);
    assert Called(Called1(s), x);
    assert Resumed(Called1(s), x);
  }

  lemma KeptBroadcast(s: State)
    requires Inv(s)
    ensures Inv(Called1(s))
  {
    var r := Called1(s);
    forall x | x in r.cos ensures CoOk(r, x) { assert CoOk(s, x); KeptBroadcastCo(s, x); }
    forall l | l in r.top ensures TopOk(r, l) { assert TopOk(s, l); }
  }

  lemma SwitchIsTwoAt(s: State, a: Id, x: Id)
    requires Enabled(s, Switch(a)) && Enabled(Called1(s), Switch(a)) && s.cos[a].pc.frame.to != a && x in s.cos
    ensures x in Switched(s, a).cos && x in Switched(Called1(s), a).cos
    ensures Switched(s, a).cos[x] == Switched(Called1(s), a).cos[x]
  {
  }

  /** Taking the broadcast first, a switch changes the two coroutines only. */
  lemma SwitchIsTwo(s: State, a: Id)
    requires Enabled(s, Switch(a)) && s.cos[a].pc.frame.to != a
    ensures Enabled(Called1(s), Switch(a)) && Switched(s, a) == Switched(Called1(s), a)
  {
    var f, g := Switched(s, a).cos, Switched(Called1(s), a).cos;
    assert f.Keys == s.cos.Keys && g.Keys == s.cos.Keys;
    forall x | x in f ensures f[x] == g[x] { SwitchIsTwoAt(s, a, x); }
    assert f == g;
  }

  /** All waiters are woken. */
  ghost predicate AllWoken(s: State) { forall x :: x in s.cos && s.cos[x].pc.Waiting? ==> s.cos[x].pc.woken }

  lemma SwitchSides(s: State, a: Id)
    requires Inv(s) && Enabled(s, Switch(a))
    ensures var k := s.cos[a]; var to := k.pc.frame.to;
            && to != a && k.group.Some? && k.group.id in s.top && s.top[k.group.id] == a && TopOk(s, k.group.id)
            && CoOk(s, a) && CoOk(s, to)
            && if k.pc.frame.Entering? then Parked(s.cos[to]) && s.cos[to].caller == Some(a)
               else k.below == Some(to) && Buried(s.cos[to], a) && s.cos[to].group == k.group
  {
    assert CoOk(s, a) && CoOk(s, s.cos[a].pc.frame.to);
    assert TopOk(s, s.cos[a].group.id);
  }

  lemma KeptSwitchTops(s: State, a: Id)
    requires Inv(s) && Enabled(s, Switch(a))
    ensures forall l :: l in Switched(s, a).top ==> TopOk(Switched(s, a), l)
  {
    SwitchSides(s, a);
    forall l | l in s.top ensures TopOk(Switched(s, a), l) { assert TopOk(s, l); assert CoOk(s, s.top[l]); }
  }

  lemma SwitchTwoCos(s: State, a: Id)
    requires Inv(s) && AllWoken(s) && Enabled(s, Switch(a))
    ensures CoOk(Switched(s, a), a) && CoOk(Switched(s, a), s.cos[a].pc.frame.to)
  {
    SwitchSides(s, a);
    var r, to := Switched(s, a), s.cos[a].pc.frame.to;
    assert Grouped(r, a) && Stacked(r, a);
    assert Called(r, a) && Resumed(r, a);
    assert Grouped(r, to) && Stacked(r, to);
    assert Called(r, to) && Resumed(r, to);
  }

  lemma SwitchOthers(s: State, a: Id, x: Id)
    requires Inv(s) && AllWoken(s) && Enabled(s, Switch(a)) && x in s.cos && x != a && x != s.cos[a].pc.frame.to
    ensures var r, to := Switched(s, a), s.cos[a].pc.frame.to;
            && r.cos[x] == s.cos[x] && SameTurn(s, r, x)
            && Alike(s.cos[a], r.cos[a], x) && Alike(s.cos[to], r.cos[to], x)
  {
    SwitchSides(s, a);
    assert CoOk(s, x);
  }

  lemma KeptSwitchWoken(s: State, a: Id)
    requires Inv(s) && AllWoken(s) && Enabled(s, Switch(a))
    ensures Inv(Switched(s, a))
  {
    SwitchTwoCos(s, a);
    KeptSwitchTops(s, a);
    var r, to := Switched(s, a), s.cos[a].pc.frame.to;
    forall x | x in s.cos && x != a && x != to
      ensures r.cos[x] == s.cos[x] && Alike(s.cos[a], r.cos[a], x) && Alike(s.cos[to], r.cos[to], x) &&
              SameTurn(s, r, x)
    {
      SwitchOthers(s, a, x);
    }
    KeptTwo(s, r, a, to);
  }

  lemma KeptSwitch(s: State, a: Id)
    requires Inv(s) && Enabled(s, Switch(a))
    ensures Inv(Apply(s, Switch(a)))
  {
    SwitchSides(s, a);
    SwitchIsTwo(s, a);
    KeptBroadcast(s);
    KeptSwitchWoken(Called1(s), a);
  }

  lemma KeptJoin(s: State, c: Id)
    requires Inv(s) && Enabled(s, Join(c))
    ensures Inv(Apply(s, Join(c)))
  {
    var r, d := Apply(s, Join(c)), s.cos[c].pc.dead;
    assert CoOk(s, c) && CoOk(s, d);
    forall x | x in r.cos ensures CoOk(r, x) {
      assert CoOk(s, x);
      if x != c { Others(s, r, x); }
    }
    forall l | l in r.top ensures TopOk(r, l) { assert TopOk(s, l); }
  }

  /** Every step keeps the invariant, except exactly for an enter that meets a coroutine on its way to yield. */
  lemma InvKept(s: State, t: Step)
    requires Inv(s) && Enabled(s, t)
    ensures Inv(Apply(s, t)) <==> Settled(s, t)
  {
    if Settled(s, t) {
      SettledKept(s, t);
    } else {
      assert CoOk(s, t.co) && CoOk(s, t.c);
      assert !Called(Apply(s, t), t.co);
      assert !CoOk(Apply(s, t), t.co);
    }
  }

  lemma SettledKept(s: State, t: Step)
    requires Inv(s) && Enabled(s, t) && Settled(s, t)
    ensures Inv(Apply(s, t))
  {
    match t
    case NewLeader => KeptNew(s, t);
    case Create(_) => KeptNew(s, t);
    case FirstLook(_) => KeptLook(s, t);
    case Wake(_) => KeptLook(s, t);
    case Enter(_, _) => KeptEnter(s, t);
    case Yield(_) => KeptLeave(s, t);
    case Finish(_) => KeptLeave(s, t);
    case Switch(c) => KeptSwitch(s, c);
    case Return(c) => KeptReturn(s, c);
    case Exit(c) => KeptExit(s, c);
    case Join(c) => KeptJoin(s, c);
  }

  // ---------------------------------------------------------------- what every run guarantees

  predicate Legal(s: State, run: seq<Step>)
    decreases |run|
  {
    run == [] || (Enabled(s, run[0]) && Legal(Apply(s, run[0]), run[1..]))
  }

  function Exec(s: State, run: seq<Step>): State
    requires Legal(s, run)
    decreases |run|
  {
    if run == [] then s else Exec(Apply(s, run[0]), run[1..])
  }

  /** No enter in the run hits a coroutine that is on its way to yield. */
  predicate AllSettled(s: State, run: seq<Step>)
    requires Legal(s, run)
    decreases |run|
  {
    run == [] || (Settled(s, run[0]) && AllSettled(Apply(s, run[0]), run[1..]))
  }

  lemma {:induction false} InvHolds(s: State, run: seq<Step>)
    requires Inv(s) && Legal(s, run) && AllSettled(s, run)
    ensures Inv(Exec(s, run))
    decreases |run|
  {
    if run != [] {
      InvKept(s, run[0]);
      InvHolds(Apply(s, run[0]), run[1..]);
    }
  }

  /** There is one leader: one thread that is not a coroutine's. */
  predicate OneLeader(s: State) { |s.top| == 1 }

  lemma OneLeaderIs(s: State, l: Id, m: Id)
    requires OneLeader(s) && l in s.top && m in s.top
    ensures l == m
  {
    assert |s.top| == |s.top.Keys| && |s.top.Keys - {l}| == 0;
    assert m !in s.top.Keys - {l};
  }

  lemma OneLeaderSettles(s: State, t: Step)
    requires Inv(s) && Enabled(s, t) && OneLeader(s)
    ensures Settled(s, t)
  {
    if !Settled(s, t) {
      assert CoOk(s, t.co) && CoOk(s, t.c);
      OneLeaderIs(s, s.cos[t.co].group.id, s.cos[t.c].group.id);
    }
  }

  lemma TopKeysKept(s: State, t: Step)
    requires Inv(s) && Enabled(s, t) && !t.NewLeader?
    ensures Apply(s, t).top.Keys == s.top.Keys
  {
    if t.Switch? { SwitchSides(s, t.c); }
  }

  /** With one leader no run needs the caution: whatever the threads do, enter never comes at the wrong time. */
  lemma {:induction false} OneLeaderRun(s: State, run: seq<Step>)
    requires Inv(s) && OneLeader(s) && Legal(s, run) && NewLeader !in run
    ensures AllSettled(s, run) && Inv(Exec(s, run)) && OneLeader(Exec(s, run))
    decreases |run|
  {
    if run != [] {
      OneLeaderSettles(s, run[0]);
      InvKept(s, run[0]);
      TopKeysKept(s, run[0]);
      assert |s.top| == |s.top.Keys| && |Apply(s, run[0]).top| == |Apply(s, run[0]).top.Keys|;
      OneLeaderRun(Apply(s, run[0]), run[1..]);
    }
  }

  function Runnable(s: State): set<Id> { set c | c in s.cos && s.cos[c].runnable }

  function Leaders(s: State): set<Id> { set c | c in s.cos && s.cos[c].leader }

  function Tops(s: State, ls: set<Id>): set<Id>
    requires ls <= s.top.Keys
  {
    set l | l in ls :: s.top[l]
  }

  lemma {:induction false} TopsCount(s: State, ls: set<Id>)
    requires Inv(s) && ls <= s.top.Keys
    ensures |Tops(s, ls)| == |ls|
  {
    if ls != {} {
      var l :| l in ls;
      TopsCount(s, ls - {l});
      forall m | m in ls - {l} ensures s.top[m] != s.top[l] { assert TopOk(s, l) && TopOk(s, m); }
      assert Tops(s, ls) == Tops(s, ls - {l}) + {s.top[l]};
    }
  }

  lemma RunnableAreTops(s: State)
    requires Inv(s)
    ensures Runnable(s) == Tops(s, s.top.Keys) && Leaders(s) == s.top.Keys
  {
    forall c | c in s.cos ensures c in Runnable(s) <==> c in Tops(s, s.top.Keys) {
      assert CoOk(s, c);
      if c in Tops(s, s.top.Keys) { TopOnly(s, c); }
    }
    forall c ensures c in Leaders(s) <==> c in s.top.Keys {
      if c in s.cos { assert CoOk(s, c); }
      if c in s.top { assert TopOk(s, c); }
    }
    forall c | c in Tops(s, s.top.Keys) ensures c in s.cos {
      var l :| l in s.top && s.top[l] == c;
      assert TopOk(s, l);
    }
  }

  lemma TopOnly(s: State, c: Id)
    requires Inv(s) && c in s.cos && c in Tops(s, s.top.Keys)
    ensures s.cos[c].runnable
  {
    var l :| l in s.top && s.top[l] == c;
    assert TopOk(s, l) && CoOk(s, c);
  }

  /** In every reachable state exactly one coroutine per leader is runnable, and with one leader exactly one. */
  lemma ExactlyOneRunnable(run: seq<Step>)
    requires Legal(START, run) && AllSettled(START, run)
    ensures var s := Exec(START, run);
            && |Runnable(s)| == |Leaders(s)|
            && (forall l :: l in Leaders(s) ==> exists c :: c in Runnable(s) && s.cos[c].group == Some(l))
            && (forall c, d :: c in Runnable(s) && d in Runnable(s) && s.cos[c].group == s.cos[d].group ==> c == d)
  {
    InvHolds(START, run);
    var s := Exec(START, run);
    RunnableAreTops(s);
    TopsCount(s, s.top.Keys);
    forall l | l in Leaders(s) ensures exists c :: c in Runnable(s) && s.cos[c].group == Some(l) {
      assert TopOk(s, l) && s.top[l] in Tops(s, s.top.Keys);
    }
    forall c, d | c in Runnable(s) && d in Runnable(s) && s.cos[c].group == s.cos[d].group ensures c == d {
      assert CoOk(s, c) && CoOk(s, d);
    }
  }

  /** Only a runnable coroutine executes anything but its wait loop and its last steps. */
  lemma OnlyRunnableRuns(run: seq<Step>, c: Id)
    requires Legal(START, run) && AllSettled(START, run) && c in Exec(START, run).cos
    ensures var k := Exec(START, run).cos[c];
            k.pc.Running? || k.pc.About? || k.pc.Out? || k.pc.Joining? ==> k.runnable
  {
    InvHolds(START, run);
    assert CoOk(Exec(START, run), c);
  }

  /** What the coroutine whose turn it is does next, when it is not in its own code. */
  function Next(s: State, c: Id): Step
    requires c in s.cos
  {
    match s.cos[c].pc
    case Fresh => FirstLook(c)
    case About(_) => Switch(c)
    case Waiting(_, _) => Wake(c)
    case Out(_) => Return(c)
    case Joining(d) => if d in s.cos && s.cos[d].pc.Ending? then Exit(d) else Join(c)
    case _ => Create(c)
  }

  /** No wake-up is lost and nothing blocks for ever: the runnable coroutine of each leader is in its own code, or
      a broadcast has reached it and it leaves the wait loop, or its next step is possible. */
  lemma NeverStuck(run: seq<Step>, c: Id)
    requires Legal(START, run) && AllSettled(START, run) && c in Runnable(Exec(START, run)) && !Exec(START, run).aborted
    ensures var s := Exec(START, run);
            && Enabled(s, Next(s, c))
            && (s.cos[c].pc.Waiting? ==> s.cos[c].pc.woken)
            && (s.cos[c].pc.Waiting? || s.cos[c].pc.Fresh? ==>
                  var p := Apply(s, Next(s, c)).cos[c].pc; p.Out? || p.Running?)
  {
    InvHolds(START, run);
    assert CoOk(Exec(START, run), c);
  }

  /** What a switch returns is what the switch that resumed it passed; a termination is always that of the
      coroutine that was entered, so that the right one is deleted. */
  lemma SwitchReturns(run: seq<Step>, c: Id)
    requires Legal(START, run) && AllSettled(START, run) && Enabled(Exec(START, run), Return(c))
    ensures var s := Exec(START, run); var k := s.cos[c];
            && k.action == k.passed && !Apply(s, Return(c)).aborted
            && (k.action == Terminated ==>
                  k.pc.frame.Entering? && k.pc.frame.to in s.cos && Dead(s.cos[k.pc.frame.to]))
  {
    InvHolds(START, run);
    assert CoOk(Exec(START, run), c);
  }

  /** A coroutine disappears only when its thread has ended; and until then exactly one thread is to free it. */
  lemma FreedAfterEnd(run: seq<Step>, t: Step, d: Id)
    requires Legal(START, run) && AllSettled(START, run)
    requires var s := Exec(START, run); Enabled(s, t) && d in s.cos && d !in Apply(s, t).cos
    ensures var s := Exec(START, run);
            && t == Join(t.c) && s.cos[d].pc == Ended && WillFree(s.cos[t.c], d)
            && forall c :: c in s.cos && WillFree(s.cos[c], d) ==> c == t.c
  {
    InvHolds(START, run);
    var s := Exec(START, run);
    assert CoOk(s, d) && CoOk(s, t.c);
    forall c | c in s.cos && WillFree(s.cos[c], d) ensures c == t.c { assert CoOk(s, c); }
  }

  /** Every coroutine whose entry function has returned will be freed by somebody. */
  lemma EveryoneIsFreed(run: seq<Step>, d: Id)
    requires Legal(START, run) && AllSettled(START, run)
    requires var s := Exec(START, run); d in s.cos && (s.cos[d].pc.Ending? || s.cos[d].pc.Ended?)
    ensures exists c :: c in Exec(START, run).cos && WillFree(Exec(START, run).cos[c], d)
  {
    InvHolds(START, run);
    assert CoOk(Exec(START, run), d);
  }

  /** The checks abort exactly on misuse: entering a coroutine that has been entered and has not yielded, that
      has terminated or that another thread is entering; and yielding outside of any coroutine. */
  lemma AbortsOnMisuse(s: State, t: Step)
    requires Inv(s) && Enabled(s, t) && Settled(s, t)
    ensures Apply(s, t).aborted <==>
            || (t.Enter? && (!Parked(s.cos[t.co]) || exists a :: a in s.cos && s.cos[a].pc == About(Entering(t.co))))
            || (t.Yield? && s.cos[t.c].leader)
  {
    if !t.NewLeader? { assert CoOk(s, t.c); }
    if t.Enter? {
      assert CoOk(s, t.co);
      forall a | a in s.cos && s.cos[a].pc == About(Entering(t.co))
        ensures s.cos[t.co].caller != None
      {
        assert CoOk(s, a);
      }
    }
  }

  /** A process with one leader: all of the above holds of each of its runs. */
  lemma OneLeaderAlways(run: seq<Step>)
    requires run != [] && run[0] == NewLeader && NewLeader !in run[1..] && Legal(START, run)
    ensures AllSettled(START, run) && |Runnable(Exec(START, run))| == 1
  {
    var s := Apply(START, NewLeader);
    InvKept(START, NewLeader);
    assert s.top.Keys == {0};
    assert |s.top| == |s.top.Keys|;
    OneLeaderRun(s, run[1..]);
    var r := Exec(s, run[1..]);
    RunnableAreTops(r);
    TopsCount(r, r.top.Keys);
    assert |r.top| == |r.top.Keys|;
  }

  /** The two switches after an enter at the wrong time: co has cleared its caller to yield but not switched yet. */
  function Late(s: State, c: Id, co: Id): State
    requires Enabled(s, Enter(c, co)) && s.cos[co].caller == None
    requires s.cos[co].pc.About? && s.cos[co].pc.frame.Yielding? && s.cos[co].pc.frame.to in s.cos
  {
    Switched(Switched(Apply(s, Enter(c, co)), c), co)
  }

  lemma LateIs(s: State, c: Id, co: Id)
    requires Enabled(s, Enter(c, co)) && s.cos[co].caller == None
    requires s.cos[co].pc.About? && s.cos[co].pc.frame.Yielding? && s.cos[co].pc.frame.to in s.cos
    requires s.cos[co].pc.frame.to != c && s.cos[co].pc.frame.to != co
    ensures var r, p := Late(s, c, co), s.cos[co].pc.frame.to;
            && r.cos.Keys == s.cos.Keys && !r.aborted && r.cos[p].runnable
            && !r.cos[c].runnable && r.cos[c].pc == Waiting(true, Entering(co))
            && !r.cos[co].runnable && r.cos[co].pc == Waiting(false, Yielding(p)) && r.cos[co].caller == Some(c)
    ensures forall x :: x in s.cos && x != c && x != co && x != s.cos[co].pc.frame.to ==>
              Late(s, c, co).cos[x].runnable == s.cos[x].runnable
  {
    var e := Apply(s, Enter(c, co));
    var m := Switched(e, c);
    assert m.cos[co].pc == s.cos[co].pc && m.cos[co].runnable && m.cos[c].pc == Waiting(false, Entering(co));
  }

  lemma LateLeaders(s: State, c: Id, co: Id)
    requires Enabled(s, Enter(c, co)) && s.cos[co].caller == None
    requires s.cos[co].pc.About? && s.cos[co].pc.frame.Yielding? && s.cos[co].pc.frame.to in s.cos
    ensures Late(s, c, co).cos.Keys == s.cos.Keys
    ensures forall x :: x in s.cos ==> Late(s, c, co).cos[x].leader == s.cos[x].leader
  {
    var e := Apply(s, Enter(c, co));
    SwitchLeaders(e, c);
    SwitchLeaders(Switched(e, c), co);
  }

  lemma SwitchLeaders(s: State, a: Id)
    requires Enabled(s, Switch(a))
    ensures Switched(s, a).cos.Keys == s.cos.Keys
    ensures forall x :: x in s.cos ==> Switched(s, a).cos[x].leader == s.cos[x].leader
  {
  }

  lemma LateSides(s: State, c: Id, co: Id)
    requires Inv(s) && Enabled(s, Enter(c, co)) && !Settled(s, Enter(c, co))
    ensures s.cos[co].pc.frame.Yielding? && s.cos[co].pc.frame.to in s.cos && c != co
    ensures s.cos[co].pc.frame.to != c && s.cos[co].pc.frame.to != co && !s.cos[s.cos[co].pc.frame.to].runnable
    ensures s.cos[c].runnable && s.cos[co].runnable
  {
    assert CoOk(s, c) && CoOk(s, co);
  }

  /** The other direction: whenever enter does come while the coroutine is on its way to yield, which takes a second
      leader, the wake-up can be lost. The entering coroutine and the entered one then both wait, no later enter
      passes the check, and one leader is left with nobody runnable. */
  lemma LateEnterIsLost(s: State, c: Id, co: Id)
    requires Inv(s) && Enabled(s, Enter(c, co)) && !Settled(s, Enter(c, co))
    ensures Legal(s, [Enter(c, co), Switch(c), Switch(co)])
    ensures var r := Exec(s, [Enter(c, co), Switch(c), Switch(co)]);
            && |Runnable(r)| < |Leaders(r)|
            && co in r.cos && r.cos[co].caller != None && !r.cos[co].runnable && r.cos[co].pc.Waiting?
            && c in r.cos && !r.cos[c].runnable && r.cos[c].pc.Waiting?
  {
    LateSides(s, c, co);
    LateIs(s, c, co);
    LateLeaders(s, c, co);
    LateCount(s, Late(s, c, co), c, co, s.cos[co].pc.frame.to);
    LateRun(s, c, co);
  }

  lemma ExecFirst(s: State, t: Step, rest: seq<Step>)
    requires Enabled(s, t) && Legal(Apply(s, t), rest)
    ensures Legal(s, [t] + rest) && Exec(s, [t] + rest) == Exec(Apply(s, t), rest)
  {
    assert ([t] + rest)[1..] == rest;
  }

  lemma LateRun(s: State, c: Id, co: Id)
    requires Enabled(s, Enter(c, co)) && s.cos[co].caller == None && c != co
    requires s.cos[co].pc.About? && s.cos[co].pc.frame.Yielding? && s.cos[co].pc.frame.to in s.cos
    ensures Legal(s, [Enter(c, co), Switch(c), Switch(co)])
    ensures Exec(s, [Enter(c, co), Switch(c), Switch(co)]) == Late(s, c, co)
  {
    var e := Apply(s, Enter(c, co));
    var m := Switched(e, c);
    ExecFirst(m, Switch(co), []);
    ExecFirst(e, Switch(c), [Switch(co)]);
    ExecFirst(s, Enter(c, co), [Switch(c), Switch(co)]);
    assert [Switch(co)] + [] == [Switch(co)] && [Switch(c)] + [Switch(co)] == [Switch(c), Switch(co)];
    assert [Enter(c, co)] + [Switch(c), Switch(co)] == [Enter(c, co), Switch(c), Switch(co)];
  }

  lemma LateCount(s: State, r: State, c: Id, co: Id, p: Id)
    requires Inv(s) && c in Runnable(s) && co in Runnable(s) && c != co && p != c && p != co && p in s.cos
    requires r.cos.Keys == s.cos.Keys && !r.cos[c].runnable && !r.cos[co].runnable
    requires forall x :: x in s.cos && x != c && x != co && x != p ==> r.cos[x].runnable == s.cos[x].runnable
    requires forall x :: x in s.cos ==> r.cos[x].leader == s.cos[x].leader
    ensures |Runnable(r)| < |Leaders(r)|
  {
    RunnableAreTops(s);
    TopsCount(s, s.top.Keys);
    assert Leaders(r) == Leaders(s);
    var rest := Runnable(s) - {c} - {co};
    assert |rest| == |Runnable(s)| - 2;
    assert Runnable(r) <= rest + {p};
    assert |rest + {p}| <= |rest| + 1;
    Smaller(Runnable(r), rest + {p});
  }

  lemma Smaller(a: set<Id>, b: set<Id>)
    requires a <= b
    ensures |a| <= |b|
  {
    assert b == a + (b - a);
  }

  /** Two leaders, 0 and 1, and a coroutine, 2. */
  lemma TwoLeaders() returns (s: State, run: seq<Step>)
    ensures Legal(START, run) && AllSettled(START, run) && Exec(START, run) == s && !s.aborted &&
            s.cos.Keys == {0, 1, 2}
    ensures s.cos[0] == Co(true, None, true, Zero, Running, Some(0), None, Zero)
    ensures s.cos[1] == Co(true, None, true, Zero, Running, Some(1), None, Zero)
    ensures s.cos[2] == Co(false, None, false, Zero, Fresh, None, None, Zero)
  {
    var a := Then(START, [], NewLeader);
    var b := Then(a, [] + [NewLeader], NewLeader);
    s := Then(b, [] + [NewLeader] + [NewLeader], Create(0));
    run := [] + [NewLeader] + [NewLeader] + [Create(0)];
  }

  /** 0 has entered 2 and switched to it. */
  lemma Entered() returns (s: State, run: seq<Step>)
    ensures Legal(START, run) && AllSettled(START, run) && Exec(START, run) == s && !s.aborted &&
            s.cos.Keys == {0, 1, 2}
    ensures s.cos[2].pc == Fresh && s.cos[2].runnable && s.cos[2].caller == Some(0) && !s.cos[2].leader
    ensures s.cos[1].pc == Running
  {
    var c, run0 := TwoLeaders();
    var d := Then(c, run0, Enter(0, 2));
    s := Then(d, run0 + [Enter(0, 2)], Switch(0));
    run := run0 + [Enter(0, 2)] + [Switch(0)];
  }

  /** Such a moment can be reached: while 2 is on its way to yield, 1 may enter it. */
  lemma LateEnterCanHappen()
    ensures exists run :: Legal(START, run) && AllSettled(START, run) && IsLate(Exec(START, run))
  {
    var e, run := Entered();
    var f := Then(e, run, FirstLook(2));
    var g := Then(f, run + [FirstLook(2)], Yield(2));
    assert IsLate(g) && g == Exec(START, run + [FirstLook(2)] + [Yield(2)]);
  }

  /** A second leader can enter coroutine 2 while it is on its way to yield. */
  predicate IsLate(s: State) {
    Enabled(s, Enter(1, 2)) && !Settled(s, Enter(1, 2))
  }

  lemma Then(s: State, run: seq<Step>, t: Step) returns (r: State)
    requires Legal(START, run) && AllSettled(START, run) && Exec(START, run) == s && Enabled(s, t) && Settled(s, t)
    ensures Legal(START, run + [t]) && AllSettled(START, run + [t]) && Exec(START, run + [t]) == r && r == Apply(s, t)
  {
    r := Apply(s, t);
    Extend(START, run, t);
  }

  lemma {:induction false} Extend(s: State, run: seq<Step>, t: Step)
    requires Legal(s, run) && AllSettled(s, run) && Enabled(Exec(s, run), t) && Settled(Exec(s, run), t)
    ensures Legal(s, run + [t]) && AllSettled(s, run + [t]) && Exec(s, run + [t]) == Apply(Exec(s, run), t)
    decreases |run|
  {
    if run == [] {
      assert run + [t] == [t] && [t][1..] == [];
    } else {
      Extend(Apply(s, run[0]), run[1..], t);
      assert (run + [t])[1..] == run[1..] + [t];
    }
  }
}
