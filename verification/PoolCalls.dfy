/** What a whole call of the pool's interface does, whatever the other threads do meanwhile. */
module PoolCalls {
  import opened PriorityLanes
  import opened Counting
  import opened ThreadPool
  import opened PoolTasks
  import opened PoolStamps
  import opened PoolTheorems
  import opened PoolQueue
  import Capacity

  // ---------- instants of a run ----------

  /** The state after the first m actions. */
  function At(s: Pool, actions: seq<Action>, m: nat): (e: Pool)
    requires |s.workers| == |s.busy| && m <= |actions|
    ensures SameShape(s, e)
  {
    Run(s, actions[..m])
  }

  ghost predicate Once(s: Pool, actions: seq<Action>, p: Pool -> bool)
    requires |s.workers| == |s.busy|
  {
    exists m: nat :: m <= |actions| && p(At(s, actions, m))
  }

  lemma AtExtends(s: Pool, actions: seq<Action>, a: Action, m: nat)
    requires |s.workers| == |s.busy| && m <= |actions|
    ensures At(s, actions + [a], m) == At(s, actions, m)
  {
    assert (actions + [a])[..m] == actions[..m];
  }

  lemma AtEnd(s: Pool, actions: seq<Action>, a: Action)
    requires |s.workers| == |s.busy|
    ensures At(s, actions, |actions|) == Run(s, actions) == At(s, actions + [a], |actions|)
    ensures Run(s, actions + [a]) == Step(Run(s, actions), a) == At(s, actions + [a], |actions| + 1)
  {
    assert actions[..|actions|] == actions && (actions + [a])[..|actions|] == actions;
    assert (actions + [a])[..|actions| + 1] == actions + [a];
  }

  lemma OnceNow(s: Pool, actions: seq<Action>, p: Pool -> bool)
    requires |s.workers| == |s.busy| && p(Run(s, actions))
    ensures Once(s, actions, p)
  {
    assert actions[..|actions|] == actions;
    assert p(At(s, actions, |actions|));
  }

  lemma OnceExtends(s: Pool, actions: seq<Action>, a: Action, p: Pool -> bool)
    requires |s.workers| == |s.busy| && Once(s, actions, p)
    ensures Once(s, actions + [a], p)
  {
    var m: nat :| m <= |actions| && p(At(s, actions, m));
    AtExtends(s, actions, a, m);
  }

  predicate Running(s: Pool)
  {
    !s.shutdown
  }

  predicate ShutDown(s: Pool)
  {
    s.shutdown
  }

  predicate Unpaused(s: Pool)
  {
    !s.paused
  }

  predicate Drained(s: Pool)
  {
    s.total <= 0
  }

  // ---------- thread_pool_submit ----------

  /** A capacity that was set at one instant was reached at the same or a later one. */
  ghost predicate SawFull(s: Pool, actions: seq<Action>)
    requires |s.workers| == |s.busy|
  {
    exists k: nat, m: nat :: k <= m <= |actions| && FullSince(At(s, actions, k), At(s, actions, m))
  }

  predicate FullSince(s: Pool, s': Pool)
  {
    s.cap != 0 && Size(s'.lanes) >= s.cap
  }

  ghost predicate SawCap(s: Pool, actions: seq<Action>, cap: nat)
    requires |s.workers| == |s.busy|
  {
    cap != 0 && exists m: nat :: m <= |actions| && At(s, actions, m).cap == cap
  }

  /** Submitter i pushes task id, last into lane p of a queue that is not full. */
  ghost predicate PushAt(s: Pool, a: Action, i: nat, p: Priority, id: nat)
    requires |s.workers| == |s.busy|
  {
    && a.Submit? && a.i == i && !Capacity.Full(Bounded(s))
    && Step(s, a).pushed == s.pushed + [id] && Step(s, a).lanes == Push(s.lanes, p, id)
  }

  ghost predicate PushedIn(s: Pool, actions: seq<Action>, i: nat, p: Priority, id: nat)
    requires |s.workers| == |s.busy|
  {
    exists m: nat :: m < |actions| && PushAt(At(s, actions, m), actions[m], i, p, id)
  }

  lemma FullExtends(s: Pool, actions: seq<Action>, a: Action)
    requires |s.workers| == |s.busy| && SawFull(s, actions)
    ensures SawFull(s, actions + [a])
  {
    var k: nat, m: nat :| k <= m <= |actions| && FullSince(At(s, actions, k), At(s, actions, m));
    AtExtends(s, actions, a, k);
    AtExtends(s, actions, a, m);
  }

  lemma FullNow(s: Pool, actions: seq<Action>, a: Action, cap: nat)
    requires |s.workers| == |s.busy| && Size(Run(s, actions).lanes) >= cap
    requires SawCap(s, actions, cap)
    ensures SawFull(s, actions + [a])
  {
    var k: nat :| k <= |actions| && At(s, actions, k).cap == cap;
    AtExtends(s, actions, a, k);
    AtEnd(s, actions, a);
    assert FullSince(At(s, actions + [a], k), At(s, actions + [a], |actions|));
  }

  lemma CapNow(s: Pool, actions: seq<Action>)
    requires |s.workers| == |s.busy| && Run(s, actions).cap != 0
    ensures SawCap(s, actions, Run(s, actions).cap)
  {
    assert actions[..|actions|] == actions;
    assert At(s, actions, |actions|).cap == Run(s, actions).cap;
  }

  lemma CapExtends(s: Pool, actions: seq<Action>, a: Action, cap: nat)
    requires |s.workers| == |s.busy| && SawCap(s, actions, cap)
    ensures SawCap(s, actions + [a], cap)
  {
    var m: nat :| m <= |actions| && At(s, actions, m).cap == cap;
    AtExtends(s, actions, a, m);
  }

  lemma PushNow(s: Pool, actions: seq<Action>, a: Action, i: nat, p: Priority, id: nat)
    requires |s.workers| == |s.busy| && PushAt(Run(s, actions), a, i, p, id)
    ensures PushedIn(s, actions + [a], i, p, id)
  {
    AtEnd(s, actions, a);
    assert (actions + [a])[|actions|] == a;
  }

  lemma PushExtends(s: Pool, actions: seq<Action>, a: Action, i: nat, p: Priority, id: nat)
    requires |s.workers| == |s.busy| && PushedIn(s, actions, i, p, id)
    ensures PushedIn(s, actions + [a], i, p, id)
  {
    var m: nat :| m < |actions| && PushAt(At(s, actions, m), actions[m], i, p, id);
    AtExtends(s, actions, a, m);
    assert (actions + [a])[m] == actions[m];
  }

  /** What the state x of a call that asks for priority p says about the run so far. */
  ghost predicate CallSound(s: Pool, actions: seq<Action>, i: nat, p: Priority, x: Submitter)
    requires |s.workers| == |s.busy|
  {
    && (Pushing(x) ==> Asking(x) == p)
    && (x.Idle? || x.CheckShutdown? || x.Leave? || Once(s, actions, Running))
    && (x.CompareDepth? ==> SawCap(s, actions, x.cap))
    && (x.Rollback? ==> SawFull(s, actions))
    && (x == Leave(None) ==> Once(s, actions, ShutDown) || SawFull(s, actions))
    && (x.Signal? ==> PushedIn(s, actions, i, p, x.id))
    && (x.Leave? && x.result.Some? ==> Once(s, actions, Running) && PushedIn(s, actions, i, p, x.result.value))
  }

  lemma SoundExtends(s: Pool, actions: seq<Action>, a: Action, i: nat, p: Priority, x: Submitter)
    requires |s.workers| == |s.busy| && CallSound(s, actions, i, p, x)
    ensures CallSound(s, actions + [a], i, p, x)
  {
    if Once(s, actions, Running) { OnceExtends(s, actions, a, Running); }
    if Once(s, actions, ShutDown) { OnceExtends(s, actions, a, ShutDown); }
    if SawFull(s, actions) { FullExtends(s, actions, a); }
    if x.CompareDepth? { CapExtends(s, actions, a, x.cap); }
    if x.Signal? { PushExtends(s, actions, a, i, p, x.id); }
    if x.Leave? && x.result.Some? { PushExtends(s, actions, a, i, p, x.result.value); }
  }

  lemma CheckStepSound(s: Pool, actions: seq<Action>, i: nat, p: Priority, a: Action)
    requires |s.workers| == |s.busy| && a.Submit? && a.i == i < |s.submitters|
    requires var x := Run(s, actions).submitters[i]; x.CheckShutdown? && CallSound(s, actions, i, p, x)
    ensures CallSound(s, actions + [a], i, p, SubmitNext(Run(s, actions), i, a.p, a.wake))
  {
    var e := Run(s, actions);
    if e.shutdown {
      OnceNow(s, actions, ShutDown);
      OnceExtends(s, actions, a, ShutDown);
    } else {
      OnceNow(s, actions, Running);
      OnceExtends(s, actions, a, Running);
    }
  }

  lemma CapStepSound(s: Pool, actions: seq<Action>, i: nat, p: Priority, a: Action)
    requires |s.workers| == |s.busy| && a.Submit? && a.i == i < |s.submitters|
    requires var x := Run(s, actions).submitters[i];
             (x.ReadCap? || x.CompareDepth?) && CallSound(s, actions, i, p, x)
    ensures CallSound(s, actions + [a], i, p, SubmitNext(Run(s, actions), i, a.p, a.wake))
  {
    var e := Run(s, actions);
    OnceExtends(s, actions, a, Running);
    if e.submitters[i].CompareDepth? {
      if Size(e.lanes) >= e.submitters[i].cap {
        FullNow(s, actions, a, e.submitters[i].cap);
      }
    } else if e.cap != 0 {
      CapNow(s, actions);
      CapExtends(s, actions, a, e.cap);
    }
  }

  lemma FreePush(s: Pool, a: Action)
    requires |s.workers| == |s.busy| && a.Submit? && a.i < |s.submitters| && s.submitters[a.i].TryPush?
    requires QueueFree(s) && !Capacity.Full(Bounded(s))
    ensures PushAt(s, a, a.i, s.submitters[a.i].p, s.submitters[a.i].id)
    ensures SubmitNext(s, a.i, a.p, a.wake) == Signal(s.submitters[a.i].id)
  {
    assert Step(s, a) == SubmitStep(s, a.i, a.p, a.wake);
  }

  lemma PushStepSound(s: Pool, actions: seq<Action>, i: nat, p: Priority, a: Action)
    requires |s.workers| == |s.busy| && a.Submit? && a.i == i < |s.submitters|
    requires var x := Run(s, actions).submitters[i]; x.TryPush? && CallSound(s, actions, i, p, x)
    ensures CallSound(s, actions + [a], i, p, SubmitNext(Run(s, actions), i, a.p, a.wake))
  {
    var e := Run(s, actions);
    if !QueueFree(e) {
      SoundExtends(s, actions, a, i, p, e.submitters[i]);
    } else {
      OnceExtends(s, actions, a, Running);
      if Capacity.Full(Bounded(e)) {
        CapNow(s, actions);
        FullNow(s, actions, a, e.cap);
        assert SubmitNext(e, i, a.p, a.wake) == Rollback;
      } else {
        FreePush(e, a);
        PushNow(s, actions, a, i, p, e.submitters[i].id);
      }
    }
  }

  /** Moves that see nothing new: along the call, to its return, or none. */
  predicate Continues(x: Submitter, x': Submitter)
  {
    match x
    case Create(p) => x'.Enter? && x'.p == p
    case Enter(p, id) => x' == CheckAging(p, id)
    case CheckAging(p, id) => x' == Stamp(p, id) || x' == TryPush(p, id)
    case Stamp(p, id) => x' == TryPush(p, id)
    case Signal(id) => x' == x || x' == Leave(Some(id))
    case Rollback => x' == Leave(None)
    case _ => false
  }

  lemma ContinuesSound(s: Pool, actions: seq<Action>, i: nat, p: Priority, x: Submitter, x': Submitter)
    requires |s.workers| == |s.busy| && CallSound(s, actions, i, p, x) && Continues(x, x')
    ensures CallSound(s, actions, i, p, x')
  {
  }

  lemma LateStepSound(s: Pool, actions: seq<Action>, i: nat, p: Priority, a: Action)
    requires |s.workers| == |s.busy| && a.Submit? && a.i == i < |s.submitters|
    requires var x := Run(s, actions).submitters[i];
             !x.Idle? && !x.CheckShutdown? && !x.ReadCap? && !x.CompareDepth? && !x.TryPush? && !x.Leave?
             && CallSound(s, actions, i, p, x)
    ensures CallSound(s, actions + [a], i, p, SubmitNext(Run(s, actions), i, a.p, a.wake))
  {
    var x, x' := Run(s, actions).submitters[i], SubmitNext(Run(s, actions), i, a.p, a.wake);
    SoundExtends(s, actions, a, i, p, x);
    ContinuesSound(s, actions + [a], i, p, x, x');
  }

  /** A submitter moves by its own steps only. */
  lemma OthersStand(s: Pool, a: Action, i: nat)
    requires |s.workers| == |s.busy| && i < |s.submitters|
    ensures Step(s, a).submitters[i] ==
            if a.Submit? && a.i == i then SubmitNext(s, i, a.p, a.wake) else s.submitters[i]
  {
    match a
    case Submit(j, p, wake) => if j < |s.submitters| { SubmitMovesOne(s, j, p, wake, i); }
    case Work(w, wake) => if w < |s.workers| { WorkHistory(s, w, wake); }
    case _ => OtherHistory(s, a);
  }

  /** A step of any thread while the call is on. */
  lemma StepSound(s: Pool, actions: seq<Action>, i: nat, p: Priority, a: Action)
    requires |s.workers| == |s.busy| && i < |s.submitters|
    requires !Run(s, actions).submitters[i].Idle? && !Step(Run(s, actions), a).submitters[i].Idle?
    requires CallSound(s, actions, i, p, Run(s, actions).submitters[i])
    ensures CallSound(s, actions + [a], i, p, Step(Run(s, actions), a).submitters[i])
  {
    var e := Run(s, actions);
    var x := e.submitters[i];
    OthersStand(e, a, i);
    if !(a.Submit? && a.i == i) {
      SoundExtends(s, actions, a, i, p, x);
    } else if x.CheckShutdown? {
      CheckStepSound(s, actions, i, p, a);
    } else if x.ReadCap? || x.CompareDepth? {
      CapStepSound(s, actions, i, p, a);
    } else if x.TryPush? {
      PushStepSound(s, actions, i, p, a);
    } else {
      LateStepSound(s, actions, i, p, a);
    }
  }

  /** The call of submitter i that began in s is still on. */
  ghost predicate Submitting(s: Pool, actions: seq<Action>, i: nat)
    requires |s.workers| == |s.busy| && i < |s.submitters|
  {
    forall m: nat :: m <= |actions| ==> !At(s, actions, m).submitters[i].Idle?
  }

  lemma {:induction false} CallStaysSound(s: Pool, actions: seq<Action>, i: nat, p: Priority)
    requires |s.workers| == |s.busy| && i < |s.submitters| && s.submitters[i] == CheckShutdown(p)
    requires Submitting(s, actions, i)
    ensures CallSound(s, actions, i, p, Run(s, actions).submitters[i])
  {
    if actions != [] {
      var last := |actions| - 1;
      var before, a := actions[..last], actions[last];
      assert before + [a] == actions;
      forall m: nat | m <= |before| ensures !At(s, before, m).submitters[i].Idle? {
        AtExtends(s, before, a, m);
        assert !At(s, actions, m).submitters[i].Idle?;
      }
      CallStaysSound(s, before, i, p);
      AtEnd(s, before, a);
      assert !At(s, actions, last).submitters[i].Idle? && !At(s, actions, last + 1).submitters[i].Idle?;
      StepSound(s, before, i, p, a);
    }
  }

  /**
   * A call of submit for priority p, from its start and over any run of all threads: it returns an id
   * only if it pushed that task at the end of lane p of a queue below its capacity, and refuses only
   * if it saw the shutdown or a queue that had reached a capacity set during the call.
   */
  lemma SubmitCall(s: Pool, i: nat, p: Priority, wake: nat, actions: seq<Action>)
    requires |s.workers| == |s.busy| && i < |s.submitters| && s.submitters[i].Idle?
    requires Submitting(SubmitStep(s, i, p, wake), actions, i)
    ensures var s' := SubmitStep(s, i, p, wake);
            var x := Run(s', actions).submitters[i];
            && (x.Leave? && x.result.Some? ==>
                  Once(s', actions, Running) && PushedIn(s', actions, i, p, x.result.value))
            && (x == Leave(None) ==> Once(s', actions, ShutDown) || SawFull(s', actions))
  {
    CallStaysSound(SubmitStep(s, i, p, wake), actions, i, p);
  }

  lemma SubmittingBefore(s: Pool, actions: seq<Action>, a: Action, i: nat)
    requires |s.workers| == |s.busy| && i < |s.submitters| && Submitting(s, actions + [a], i)
    ensures Submitting(s, actions, i)
    ensures !Run(s, actions).submitters[i].Idle? && !Step(Run(s, actions), a).submitters[i].Idle?
  {
    forall m: nat | m <= |actions| ensures !At(s, actions, m).submitters[i].Idle? {
      AtExtends(s, actions, a, m);
      assert !At(s, actions + [a], m).submitters[i].Idle?;
    }
    AtEnd(s, actions, a);
    assert !At(s, actions + [a], |actions|).submitters[i].Idle?;
    assert !At(s, actions + [a], |actions| + 1).submitters[i].Idle?;
  }

  /** The task of a call, once it has its id. */
  function Numbered(x: Submitter): Option<nat>
  {
    match x
    case Enter(_, id) => Some(id)
    case CheckAging(_, id) => Some(id)
    case Stamp(_, id) => Some(id)
    case TryPush(_, id) => Some(id)
    case Signal(id) => Some(id)
    case Leave(r) => r
    case _ => None
  }

  /** A step of submitter i takes id from the counter, which goes on to the next. */
  ghost predicate TakesId(s: Pool, a: Action, i: nat, id: nat)
    requires |s.workers| == |s.busy|
  {
    a.Submit? && a.i == i && s.nextId == id && Step(s, a).nextId == id + 1
  }

  ghost predicate TookId(s: Pool, actions: seq<Action>, i: nat, id: nat)
    requires |s.workers| == |s.busy|
  {
    exists m: nat :: m < |actions| && TakesId(At(s, actions, m), actions[m], i, id)
  }

  lemma TookExtends(s: Pool, actions: seq<Action>, a: Action, i: nat, id: nat)
    requires |s.workers| == |s.busy| && TookId(s, actions, i, id)
    ensures TookId(s, actions + [a], i, id)
  {
    var m: nat :| m < |actions| && TakesId(At(s, actions, m), actions[m], i, id);
    AtExtends(s, actions, a, m);
    assert (actions + [a])[m] == actions[m];
  }

  lemma TookNow(s: Pool, actions: seq<Action>, a: Action, i: nat, id: nat)
    requires |s.workers| == |s.busy| && TakesId(Run(s, actions), a, i, id)
    ensures TookId(s, actions + [a], i, id)
  {
    AtEnd(s, actions, a);
    assert (actions + [a])[|actions|] == a;
  }

  lemma NumberedStep(s: Pool, a: Action, i: nat)
    requires |s.workers| == |s.busy| && i < |s.submitters| && !s.submitters[i].Idle?
    ensures var id := Numbered(Step(s, a).submitters[i]);
            id.Some? ==> id == Numbered(s.submitters[i]) || TakesId(s, a, i, id.value)
  {
    OthersStand(s, a, i);
    if a.Submit? && a.i == i {
      assert Step(s, a) == SubmitStep(s, i, a.p, a.wake);
    }
  }

  /** The id of a call was taken from the counter during the call, and by no other. */
  lemma {:induction false} CallTakesNextId(s: Pool, actions: seq<Action>, i: nat)
    requires |s.workers| == |s.busy| && i < |s.submitters| && s.submitters[i].CheckShutdown?
    requires Submitting(s, actions, i)
    ensures var id := Numbered(Run(s, actions).submitters[i]); id.Some? ==> TookId(s, actions, i, id.value)
  {
    if actions != [] {
      var last := |actions| - 1;
      var before, a := actions[..last], actions[last];
      assert before + [a] == actions;
      SubmittingBefore(s, before, a, i);
      CallTakesNextId(s, before, i);
      var mid := Run(s, before);
      NumberedStep(mid, a, i);
      var id := Numbered(Step(mid, a).submitters[i]);
      if id.Some? {
        if id == Numbered(mid.submitters[i]) {
          TookExtends(s, before, a, i, id.value);
        } else {
          TookNow(s, before, a, i, id.value);
        }
      }
    }
  }

  lemma {:induction false} ReturnedStays(s: Pool, actions: seq<Action>, id: nat)
    requires |s.workers| == |s.busy| && id in s.returned
    ensures id in Run(s, actions).returned
  {
    if actions != [] {
      var last := |actions| - 1;
      ReturnedStays(s, actions[..last], id);
      HistoryGrows(Run(s, actions[..last]), actions[last]);
    }
  }

  /** The id that a call returns counts as returned from then on. */
  lemma CallReturns(s: Pool, i: nat, p: Priority, wake: nat, actions: seq<Action>)
    requires |s.workers| == |s.busy| && i < |s.submitters|
    requires s.submitters[i].Leave? && s.submitters[i].result.Some?
    ensures SubmitStep(s, i, p, wake).submitters[i].Idle?
    ensures s.submitters[i].result.value in Run(SubmitStep(s, i, p, wake), actions).returned
  {
    ReturnedStays(SubmitStep(s, i, p, wake), actions, s.submitters[i].result.value);
  }

  // ---------- submits of a pool that is shut down, full or aging ----------

  /** The condition holds from s to the end of the run. */
  ghost predicate Always(s: Pool, actions: seq<Action>, p: Pool -> bool)
    requires |s.workers| == |s.busy|
  {
    forall m: nat :: m <= |actions| ==> p(At(s, actions, m))
  }

  lemma AlwaysBefore(s: Pool, actions: seq<Action>, a: Action, p: Pool -> bool)
    requires |s.workers| == |s.busy| && Always(s, actions + [a], p)
    ensures Always(s, actions, p) && p(Run(s, actions)) && p(Step(Run(s, actions), a))
  {
    forall m: nat | m <= |actions| ensures p(At(s, actions, m)) {
      AtExtends(s, actions, a, m);
      assert p(At(s, actions + [a], m));
    }
    AtEnd(s, actions, a);
    assert p(At(s, actions + [a], |actions|)) && p(At(s, actions + [a], |actions| + 1));
  }

  lemma {:induction false} ShutdownStays(s: Pool, actions: seq<Action>)
    requires |s.workers| == |s.busy| && s.shutdown
    ensures Run(s, actions).shutdown
  {
    if actions != [] {
      ShutdownStays(s, actions[..|actions| - 1]);
    }
  }

  /** A call that starts after destroy was called never returns an id. */
  lemma RefusedAfterShutdown(s: Pool, i: nat, p: Priority, wake: nat, actions: seq<Action>)
    requires |s.workers| == |s.busy| && i < |s.submitters| && s.submitters[i].Idle? && s.shutdown
    requires Submitting(SubmitStep(s, i, p, wake), actions, i)
    ensures var x := Run(SubmitStep(s, i, p, wake), actions).submitters[i]; x.Leave? ==> x == Leave(None)
  {
    var s' := SubmitStep(s, i, p, wake);
    SubmitCall(s, i, p, wake, actions);
    if Once(s', actions, Running) {
      var m: nat :| m <= |actions| && Running(At(s', actions, m));
      ShutdownStays(s', actions[..m]);
    }
  }

  predicate FullAt(s: Pool, cap: nat)
  {
    s.cap == cap && cap != 0 && Size(s.lanes) >= cap
  }

  /** A call that finds the queue full throughout takes no id and leaves the total alone. */
  lemma {:induction false} FullSubmitTakesNothing(s: Pool, actions: seq<Action>, i: nat, cap: nat)
    requires |s.workers| == |s.busy| && i < |s.submitters| && s.submitters[i].CheckShutdown?
    requires Submitting(s, actions, i) && Always(s, actions, (e: Pool) => FullAt(e, cap))
    ensures var x := Run(s, actions).submitters[i];
            x.CheckShutdown? || x.ReadCap? || (x.CompareDepth? && x.cap == cap) || x == Leave(None)
  {
    if actions != [] {
      var last := |actions| - 1;
      var before, a := actions[..last], actions[last];
      assert before + [a] == actions;
      AlwaysBefore(s, before, a, (e: Pool) => FullAt(e, cap));
      SubmittingBefore(s, before, a, i);
      FullSubmitTakesNothing(s, before, i, cap);
      OthersStand(Run(s, before), a, i);
    }
  }

  predicate AgingOn(s: Pool)
  {
    s.agingEnabled
  }

  predicate AgingOff(s: Pool)
  {
    !s.agingEnabled
  }

  /** The id of a task at or past its push. */
  function Landed(x: Submitter): Option<nat>
  {
    if x.TryPush? || x.Signal? then Some(x.id) else if x.Leave? then x.result else None
  }

  lemma SubmitStamps(s: Pool, i: nat, p: Priority, wake: nat)
    requires i < |s.submitters|
    ensures SubmitStep(s, i, p, wake).stamped ==
            if s.submitters[i].Stamp? then s.stamped + [s.submitters[i].id] else s.stamped
  {
  }

  lemma StampsGrow(s: Pool, a: Action)
    requires |s.workers| == |s.busy|
    ensures s.stamped <= Step(s, a).stamped
    ensures Step(s, a).stamped == s.stamped ||
            (a.Submit? && a.i < |s.submitters| && s.submitters[a.i].Stamp? &&
             Step(s, a).stamped == s.stamped + [s.submitters[a.i].id])
  {
    match a
    case Submit(i, p, wake) => if i < |s.submitters| { SubmitStamps(s, i, p, wake); }
    case Work(w, wake) => if w < |s.workers| { assert WorkStep(s, w, wake).stamped == s.stamped; }
    case _ => OtherHistory(s, a);
  }

  lemma StampedStep(s: Pool, a: Action, i: nat)
    requires |s.workers| == |s.busy| && i < |s.submitters| && s.agingEnabled
    requires Landed(s.submitters[i]).Some? ==> Landed(s.submitters[i]).value in s.stamped
    ensures var e := Step(s, a); Landed(e.submitters[i]).Some? ==> Landed(e.submitters[i]).value in e.stamped
  {
    OthersStand(s, a, i);
    StampsGrow(s, a);
    if a.Submit? && a.i == i {
      SubmitStamps(s, i, a.p, a.wake);
    }
  }

  /** A task submitted while aging is on has a stamp. */
  lemma {:induction false} AgingSubmitStamps(s: Pool, actions: seq<Action>, i: nat)
    requires |s.workers| == |s.busy| && i < |s.submitters| && s.submitters[i].CheckShutdown?
    requires Submitting(s, actions, i) && Always(s, actions, AgingOn)
    ensures var e := Run(s, actions); Landed(e.submitters[i]).Some? ==> Landed(e.submitters[i]).value in e.stamped
  {
    if actions != [] {
      var last := |actions| - 1;
      var before, a := actions[..last], actions[last];
      assert before + [a] == actions;
      AlwaysBefore(s, before, a, AgingOn);
      SubmittingBefore(s, before, a, i);
      AgingSubmitStamps(s, before, i);
      StampedStep(Run(s, before), a, i);
    }
  }

  /** Two submits, or a submit and a push, never share an id. */
  lemma StampIsOwn(s: Pool, i: nat, j: nat)
    requires Sane(s) && i < |s.submitters| && j < |s.submitters| && i != j && s.submitters[j].Stamp?
    requires Landed(s.submitters[i]).Some?
    ensures s.submitters[j].id != Landed(s.submitters[i]).value
  {
    var id := s.submitters[j].id;
    SaneTask(s, id);
    if s.submitters[i].TryPush? && s.submitters[i].id == id {
      CountTwo(Carries(id), s.submitters, if i < j then i else j, if i < j then j else i);
    } else if Landed(s.submitters[i]) == Some(id) {
      SaneReturned(s);
      CountIs(id, s.pushed);
      CountPositive(Carries(id), s.submitters, j);
    }
  }

  /** The submit has given its task no stamp. */
  predicate Plain(s: Pool, x: Submitter)
  {
    && !x.Stamp?
    && (x.Enter? || x.CheckAging? ==> x.id !in s.stamped)
    && (Landed(x).Some? ==> Landed(x).value !in s.stamped)
  }

  lemma PlainStep(s: Pool, a: Action, i: nat)
    requires Sane(s) && AgingOff(s) && i < |s.submitters| && Plain(s, s.submitters[i])
    requires !s.submitters[i].Idle?
    ensures Plain(Step(s, a), Step(s, a).submitters[i])
  {
    var x := s.submitters[i];
    OthersStand(s, a, i);
    StampsGrow(s, a);
    SaneStamps(s);
    if a.Submit? && a.i < |s.submitters| && a.i != i && s.submitters[a.i].Stamp? {
      if Landed(x).Some? {
        StampIsOwn(s, i, a.i);
      } else if x.Enter? || x.CheckAging? {
        SaneTask(s, x.id);
        SaneTask(s, s.submitters[a.i].id);
        TwoCarriers(s, if i < a.i then i else a.i, if i < a.i then a.i else i);
      }
    }
  }

  /** A task submitted while aging is off has none. */
  lemma {:induction false} PlainSubmitDoesNotStamp(s: Pool, actions: seq<Action>, i: nat)
    requires Sane(s) && i < |s.submitters| && s.submitters[i].CheckShutdown?
    requires Submitting(s, actions, i) && Always(s, actions, AgingOff)
    ensures Plain(Run(s, actions), Run(s, actions).submitters[i])
  {
    if actions != [] {
      var last := |actions| - 1;
      var before, a := actions[..last], actions[last];
      assert before + [a] == actions;
      AlwaysBefore(s, before, a, AgingOff);
      SubmittingBefore(s, before, a, i);
      PlainSubmitDoesNotStamp(s, before, i);
      SaneRun(s, before);
      PlainStep(Run(s, before), a, i);
    }
  }

  // ---------- thread_pool_wait ----------

  /** What the state of a wait says about the run so far. */
  ghost predicate WaitSound(s: Pool, actions: seq<Action>, x: Waiter)
    requires |s.workers| == |s.busy|
  {
    && (x.Out? || x.WaitPaused? || x.WaitResume? || Once(s, actions, Unpaused))
    && (x.WaitUnlock? ==> Once(s, actions, Drained))
  }

  lemma WaitOwnStep(s: Pool, actions: seq<Action>, k: nat)
    requires |s.workers| == |s.busy| && k < |s.waiters|
    requires !Run(s, actions).waiters[k].Out? && WaitSound(s, actions, Run(s, actions).waiters[k])
    ensures WaitSound(s, actions + [Wait(k)], WaitNext(Run(s, actions), k))
  {
    var e, a := Run(s, actions), Wait(k);
    AtEnd(s, actions, a);
    if e.waiters[k].WaitPaused? && !e.paused {
      OnceNow(s, actions, Unpaused);
    } else if e.waiters[k].WaitResume? {
      assert Unpaused(WaitStep(e, k));
      assert Run(s, actions + [a]) == WaitStep(e, k);
      OnceNow(s, actions + [a], Unpaused);
    } else if e.waiters[k].WaitCheck? && e.total <= 0 {
      OnceNow(s, actions, Drained);
    }
    if Once(s, actions, Unpaused) { OnceExtends(s, actions, a, Unpaused); }
    if Once(s, actions, Drained) { OnceExtends(s, actions, a, Drained); }
  }

  lemma WorkWakes(s: Pool, w: nat, wake: nat, k: nat)
    requires w < |s.workers| == |s.busy| && k < |s.waiters|
    ensures var x, x' := s.waiters[k], WorkStep(s, w, wake).waiters[k];
            x' == x || (x.WaitAsleep? && x' == WaitLock(x.promise))
  {
  }

  lemma EventWakes(s: Pool, e: Event, k: nat)
    requires k < |s.waiters|
    ensures var x, x' := s.waiters[k], EventStep(s, e).waiters[k];
            x' == x || (x.WaitAsleep? && x' == WaitLock(x.promise))
  {
  }

  lemma WaitOtherStep(s: Pool, a: Action, k: nat)
    requires |s.workers| == |s.busy| && k < |s.waiters| && a != Wait(k)
    ensures var x, x' := s.waiters[k], Step(s, a).waiters[k];
            x' == x || (x.WaitAsleep? && x' == WaitLock(x.promise))
  {
    match a
    case Wait(j) => if j < |s.waiters| { assert WaitStep(s, j).waiters[k] == s.waiters[k]; }
    case Work(w, wake) => if w < |s.workers| { WorkWakes(s, w, wake, k); }
    case Happen(e) => EventWakes(s, e, k);
    case Submit(i, p, wake) => if i < |s.submitters| { SubmitKeepsWaiters(s, i, p, wake); }
    case Control(i, c) => if i < |s.pausers| { assert PauseStep(s, i, c).waiters == s.waiters; }
    case Age(n) => assert AgeStep(s, n).waiters == s.waiters;
    case Destroy => assert DestroyStep(s).waiters == s.waiters;
  }

  lemma {:induction false} WaitStaysSound(s: Pool, actions: seq<Action>, k: nat)
    requires |s.workers| == |s.busy| && k < |s.waiters| && s.waiters[k].WaitPaused?
    requires Always(s, actions, (e: Pool) => k < |e.waiters| && !e.waiters[k].Out?)
    ensures WaitSound(s, actions, Run(s, actions).waiters[k])
  {
    if actions != [] {
      var last := |actions| - 1;
      var before, a := actions[..last], actions[last];
      assert before + [a] == actions;
      AlwaysBefore(s, before, a, (e: Pool) => k < |e.waiters| && !e.waiters[k].Out?);
      WaitStaysSound(s, before, k);
      if a == Wait(k) {
        WaitOwnStep(s, before, k);
      } else {
        WaitOtherStep(Run(s, before), a, k);
        if Once(s, before, Unpaused) { OnceExtends(s, before, a, Unpaused); }
        if Once(s, before, Drained) { OnceExtends(s, before, a, Drained); }
      }
    }
  }

  /**
   * A call of wait, over any run of all threads: once it is past its look at the pause it has seen the
   * pool unpaused or has resumed it, and it ends its loop only after an instant with a total of zero.
   */
  lemma WaitCall(s: Pool, k: nat, actions: seq<Action>)
    requires |s.workers| == |s.busy| && k < |s.waiters| && s.waiters[k].Out?
    requires Always(WaitStep(s, k), actions, (e: Pool) => k < |e.waiters| && !e.waiters[k].Out?)
    ensures var s' := WaitStep(s, k);
            var x := Run(s', actions).waiters[k];
            && (!x.WaitPaused? && !x.WaitResume? ==> Once(s', actions, Unpaused))
            && (x.WaitUnlock? ==> Once(s', actions, Drained))
  {
    var s' := WaitStep(s, k);
    WaitStaysSound(s', actions, k);
    assert actions[..|actions|] == actions;
    assert !At(s', actions, |actions|).waiters[k].Out?;
  }

  // ---------- the signal of a worker ----------

  /** The step of worker w that takes the last task off the total. */
  ghost predicate LastFinish(s: Pool, a: Action, w: nat)
  {
    a.Work? && a.w == w < |s.workers| && s.workers[w].Finish? && s.total == 1
  }

  lemma WorkerStands(s: Pool, a: Action, w: nat)
    requires |s.workers| == |s.busy| && w < |s.workers|
    requires !s.workers[w].DrainSignal? && Step(s, a).workers[w].DrainSignal?
    ensures LastFinish(s, a, w)
  {
  }

  /** A worker signals drain_cond only if its own decrement took the total to zero. */
  lemma {:induction false} SignalAfterLast(s: Pool, actions: seq<Action>, w: nat)
    requires |s.workers| == |s.busy| && w < |s.workers| && !s.workers[w].DrainSignal?
    requires Run(s, actions).workers[w].DrainSignal?
    ensures exists m: nat :: m < |actions| && LastFinish(At(s, actions, m), actions[m], w)
  {
    var last := |actions| - 1;
    var before, a := actions[..last], actions[last];
    assert before + [a] == actions;
    AtEnd(s, before, a);
    if Run(s, before).workers[w].DrainSignal? {
      SignalAfterLast(s, before, w);
      var m: nat :| m < |before| && LastFinish(At(s, before, m), before[m], w);
      AtExtends(s, before, a, m);
      assert LastFinish(At(s, actions, m), actions[m], w);
    } else {
      WorkerStands(Run(s, before), a, w);
      assert LastFinish(At(s, actions, last), actions[last], w);
    }
  }

  // ---------- thread_pool_pause and thread_pool_resume ----------

  /** Nobody resumes, waits for or destroys the pool. */
  predicate LeftPaused(actions: seq<Action>)
  {
    forall m :: 0 <= m < |actions| ==>
      !actions[m].Wait? && !actions[m].Destroy? && !(actions[m].Control? && actions[m].command.Resume?)
  }

  lemma PausedStays(s: Pool, a: Action)
    requires |s.workers| == |s.busy| && s.paused && LeftPaused([a])
    ensures Step(s, a).paused
  {
    assert a == [a][0];
  }

  lemma {:induction false} PauseLasts(s: Pool, actions: seq<Action>)
    requires |s.workers| == |s.busy| && s.paused && LeftPaused(actions)
    ensures Run(s, actions).paused
  {
    if actions != [] {
      var last := |actions| - 1;
      PauseLasts(s, actions[..last]);
      assert [actions[last]][0] == actions[last];
      PausedStays(Run(s, actions[..last]), actions[last]);
    }
  }

  /** A worker that may still run a task before it is back at the gate. */
  predicate MayRun(w: Worker)
  {
    PastGate(w) || w.SetBusy? || w.Running?
  }

  lemma WakesKeepMayRun(s: Pool, w: nat)
    ensures Count(MayRun, BroadcastQueue(s.workers)) == Count(MayRun, s.workers)
    ensures Count(MayRun, BroadcastPause(s.workers)) == Count(MayRun, s.workers)
    ensures Sleeps(s.workers, w) ==> Count(MayRun, s.workers[w := PopLock]) == Count(MayRun, s.workers)
    ensures w < |s.workers| ==> Count(MayRun, s.workers[w := WakeFromQueue(WakeFromPause(s.workers[w]))]) ==
                                Count(MayRun, s.workers)
  {
    CountPointwise(MayRun, BroadcastQueue(s.workers), s.workers);
    CountPointwise(MayRun, BroadcastPause(s.workers), s.workers);
    if w < |s.workers| {
      CountUpdate(MayRun, s.workers, w, PopLock);
      CountUpdate(MayRun, s.workers, w, WakeFromQueue(WakeFromPause(s.workers[w])));
    }
  }

  lemma PausedWorkRuns(s: Pool, w: nat, wake: nat)
    requires w < |s.workers| == |s.busy| && s.paused
    ensures var s' := WorkStep(s, w, wake);
            |s'.executed| + Count(MayRun, s'.workers) <= |s.executed| + Count(MayRun, s.workers)
  {
    CountUpdate(MayRun, s.workers, w, WorkNext(s, w, wake));
  }

  lemma SubmitKeepsMayRun(s: Pool, i: nat, p: Priority, wake: nat)
    requires i < |s.submitters|
    ensures var s' := SubmitStep(s, i, p, wake);
            s'.executed == s.executed && Count(MayRun, s'.workers) == Count(MayRun, s.workers)
  {
    WakesKeepMayRun(s, wake);
  }

  lemma EventKeepsMayRun(s: Pool, e: Event)
    ensures Count(MayRun, EventStep(s, e).workers) == Count(MayRun, s.workers)
  {
    WakesKeepMayRun(s, if e.SpuriousWorker? then e.w else 0);
  }

  lemma PausedRuns(s: Pool, a: Action)
    requires |s.workers| == |s.busy| && s.paused
    ensures |Step(s, a).executed| + Count(MayRun, Step(s, a).workers) <= |s.executed| + Count(MayRun, s.workers)
  {
    match a
    case Submit(i, p, wake) => if i < |s.submitters| { SubmitKeepsMayRun(s, i, p, wake); }
    case Work(w, wake) => if w < |s.workers| { PausedWorkRuns(s, w, wake); }
    case Happen(e) =>
      EventKeepsMayRun(s, e);
      OtherHistory(s, a);
    case _ =>
      WakesKeepMayRun(s, 0);
      OtherHistory(s, a);
  }

  lemma {:induction false} PausedRunsOut(s: Pool, actions: seq<Action>)
    requires |s.workers| == |s.busy| && s.paused && LeftPaused(actions)
    ensures var e := Run(s, actions);
            |e.executed| + Count(MayRun, e.workers) <= |s.executed| + Count(MayRun, s.workers)
  {
    if actions != [] {
      var last := |actions| - 1;
      PausedRunsOut(s, actions[..last]);
      PauseLasts(s, actions[..last]);
      PausedRuns(Run(s, actions[..last]), actions[last]);
    }
  }

  /**
   * A pause that starts before destroy, until somebody resumes, waits for or destroys the pool: the pool
   * stays paused, pops at most once for each worker that was past the gate, and executes at most one
   * more task for each worker.
   */
  lemma PauseCall(s: Pool, k: nat, actions: seq<Action>)
    requires |s.workers| == |s.busy| && k < |s.pausers| && s.pausers[k].Ready? && s.destroyer.NotCalled?
    requires LeftPaused(actions)
    ensures var s' := PauseStep(s, k, Pause);
            && Run(s', actions).paused
            && PopsIn(s', actions) <= Count(PastGate, s.workers)
            && |Run(s', actions).executed| <= |s.executed| + Count(MayRun, s.workers)
  {
    var s' := PauseStep(s, k, Pause);
    assert s'.workers == s.workers && s'.executed == s.executed && s'.paused;
    forall m | 0 <= m < |actions| ensures Run(s', actions[..m]).paused {
      PauseLasts(s', actions[..m]);
    }
    PauseLasts(s', actions);
    PauseBound(s', actions);
    PausedRunsOut(s', actions);
  }

  /** No worker sleeps on not_empty, nor is it about to. */
  predicate NobodyDozes(s: Pool)
  {
    forall w :: 0 <= w < |s.workers| ==> !s.workers[w].PopSleep? && !s.workers[w].PopAsleep?
  }

  lemma WakeQueueStep(s: Pool, a: Action, k: nat)
    requires |s.workers| == |s.busy| && k < |s.pausers| && s.pausers[k].WakeQueue?
    ensures Step(s, a).pausers[k].WakeQueue? || NobodyDozes(Step(s, a))
  {
    match a
    case Control(j, c) => if j < |s.pausers| { PauserWakes(s, j, c, k); }
    case Submit(i, p, wake) => if i < |s.submitters| { assert SubmitStep(s, i, p, wake).pausers == s.pausers; }
    case Work(w, wake) => if w < |s.workers| { assert WorkStep(s, w, wake).pausers == s.pausers; }
    case Wait(j) => if j < |s.waiters| { assert WaitStep(s, j).pausers == s.pausers; }
    case Age(n) => assert AgeStep(s, n).pausers == s.pausers;
    case Destroy => assert DestroyStep(s).pausers == s.pausers;
    case Happen(e) => assert EventStep(s, e).pausers == s.pausers;
  }

  lemma PauserWakes(s: Pool, j: nat, c: Command, k: nat)
    requires j < |s.pausers| && k < |s.pausers| && s.pausers[k].WakeQueue?
    ensures PauseStep(s, j, c).pausers[k].WakeQueue? || NobodyDozes(PauseStep(s, j, c))
  {
    if j == k && QueueFree(s) {
      forall w | 0 <= w < |s.workers|
        ensures !BroadcastQueue(s.workers)[w].PopSleep? && !BroadcastQueue(s.workers)[w].PopAsleep?
      {
        assert !HoldsQueue(s.workers[w]);
      }
    }
  }

  lemma {:induction false} WakeQueueRun(s: Pool, actions: seq<Action>, k: nat)
    requires |s.workers| == |s.busy| && k < |s.pausers| && s.pausers[k].WakeQueue?
    ensures Run(s, actions).pausers[k].WakeQueue? || Once(s, actions, NobodyDozes)
  {
    if actions != [] {
      var last := |actions| - 1;
      var before, a := actions[..last], actions[last];
      assert before + [a] == actions;
      WakeQueueRun(s, before, k);
      if Once(s, before, NobodyDozes) {
        OnceExtends(s, before, a, NobodyDozes);
      } else {
        WakeQueueStep(Run(s, before), a, k);
        if NobodyDozes(Step(Run(s, before), a)) {
          OnceNow(s, actions, NobodyDozes);
        }
      }
    }
  }

  /** A pause that has returned has woken every worker from not_empty: at an instant of the call nobody dozed. */
  lemma PauseWakes(s: Pool, k: nat, actions: seq<Action>)
    requires |s.workers| == |s.busy| && k < |s.pausers| && s.pausers[k].Ready? && s.destroyer.NotCalled?
    ensures var s' := PauseStep(s, k, Pause);
            Run(s', actions).pausers[k].WakeQueue? || Once(s', actions, NobodyDozes)
  {
    WakeQueueRun(PauseStep(s, k, Pause), actions, k);
  }

  /** Nobody pauses the pool. */
  predicate LeftRunning(actions: seq<Action>)
  {
    forall m :: 0 <= m < |actions| ==> !(actions[m].Control? && actions[m].command.Pause?)
  }

  /** The pool is unpaused, and pauser k still owes its broadcast or no worker sleeps at the gate. */
  ghost predicate Resumed(s: Pool, k: nat)
    requires k < |s.pausers|
  {
    && !s.paused
    && (s.pausers[k].WakePaused? ||
        forall w :: 0 <= w < |s.workers| ==> !s.workers[w].PauseSleep? && !s.workers[w].PauseAsleep?)
  }

  lemma ResumedStep(s: Pool, a: Action, k: nat)
    requires |s.workers| == |s.busy| && k < |s.pausers| && Resumed(s, k) && LeftRunning([a])
    ensures Resumed(Step(s, a), k)
  {
    assert a == [a][0];
  }

  lemma {:induction false} ResumedRun(s: Pool, actions: seq<Action>, k: nat)
    requires |s.workers| == |s.busy| && k < |s.pausers| && Resumed(s, k) && LeftRunning(actions)
    ensures Resumed(Run(s, actions), k)
  {
    if actions != [] {
      var last := |actions| - 1;
      ResumedRun(s, actions[..last], k);
      assert [actions[last]][0] == actions[last];
      ResumedStep(Run(s, actions[..last]), actions[last], k);
    }
  }

  /**
   * A resume, until somebody pauses the pool again: the pool is unpaused, every worker at the gate goes
   * on to its pop, and once the call has returned no worker sleeps there.
   */
  lemma ResumeCall(s: Pool, k: nat, actions: seq<Action>, w: nat, wake: nat)
    requires |s.workers| == |s.busy| && k < |s.pausers| && s.pausers[k].Ready? && LeftRunning(actions)
    requires w < |s.workers|
    ensures var e := Run(PauseStep(s, k, Resume), actions);
            && !e.paused
            && (e.workers[w].Gate? || e.workers[w].PauseCheck? ==> WorkNext(e, w, wake).PopLock?)
            && (e.pausers[k].Ready? ==> !e.workers[w].PauseAsleep?)
  {
    ResumedRun(PauseStep(s, k, Resume), actions, k);
  }
}
