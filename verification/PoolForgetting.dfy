/** Which pools have a run that loses the wakeup of a wait. */
module PoolForgetting {
  import opened PriorityLanes
  import opened ThreadPool
  import opened PoolAccounts
  import opened PoolTheorems
  import opened PoolShutdown
  import opened PoolReplay
  import opened PoolDrain

  // ---------- threads that stand still ----------

  /** Threads to add to a pool. */
  datatype Idlers = Idlers(submitters: nat, workers: nat, pausers: nat, waiters: nat)

  /** The pool with further threads that have not moved yet. */
  function Pad(s: Pool, x: Idlers): Pool
  {
    s.(submitters := s.submitters + seq(x.submitters, _ => Idle),
       workers := s.workers + seq(x.workers, _ => Gate),
       busy := s.busy + seq(x.workers, _ => false),
       pausers := s.pausers + seq(x.pausers, _ => Ready),
       waiters := s.waiters + seq(x.waiters, _ => Out))
  }

  lemma PadInit(waiters: nat, x: Idlers)
    ensures Pad(Init(1, 1, 0, waiters), x) == Init(1 + x.submitters, 1 + x.workers, x.pausers, waiters + x.waiters)
  {
    var s, t := Pad(Init(1, 1, 0, waiters), x), Init(1 + x.submitters, 1 + x.workers, x.pausers, waiters + x.waiters);
    assert s.submitters == t.submitters && s.workers == t.workers && s.busy == t.busy;
    assert s.pausers == t.pausers && s.waiters == t.waiters;
  }

  lemma PadMutexes(s: Pool, x: Idlers)
    ensures QueueFree(Pad(s, x)) == QueueFree(s) && PauseFree(Pad(s, x)) == PauseFree(s)
    ensures DrainFree(Pad(s, x)) == DrainFree(s)
  {
    var t := Pad(s, x);
    assert forall w :: 0 <= w < |s.workers| ==> t.workers[w] == s.workers[w];
    assert forall k :: 0 <= k < |s.waiters| ==> t.waiters[k] == s.waiters[k];
  }

  lemma PadSleepers(s: Pool, x: Idlers, wake: nat)
    ensures AsleepOnQueue(Pad(s, x).workers) == AsleepOnQueue(s.workers)
    ensures Sleeps(Pad(s, x).workers, wake) == Sleeps(s.workers, wake)
    ensures AsleepOnDrain(Pad(s, x)) == AsleepOnDrain(s) && WakesWaiter(Pad(s, x), wake) == WakesWaiter(s, wake)
  {
    var t := Pad(s, x);
    assert forall w :: 0 <= w < |s.workers| ==> t.workers[w] == s.workers[w];
    assert forall k :: 0 <= k < |s.waiters| ==> t.waiters[k] == s.waiters[k];
  }

  lemma UpdateFront<T>(a: seq<T>, b: seq<T>, i: nat, x: T)
    requires i < |a|
    ensures (a + b)[i := x] == a[i := x] + b
  {
  }

  lemma PadSubmitNext(s: Pool, x: Idlers, i: nat, p: Priority, wake: nat)
    requires i < |s.submitters|
    ensures SubmitNext(Pad(s, x), i, p, wake) == SubmitNext(s, i, p, wake)
  {
    PadMutexes(s, x);
    PadSleepers(s, x, wake);
    assert Pad(s, x).submitters[i] == s.submitters[i];
  }

  lemma PadWorkNext(s: Pool, x: Idlers, w: nat, wake: nat)
    requires w < |s.workers|
    ensures WorkNext(Pad(s, x), w, wake) == WorkNext(s, w, wake)
  {
    PadMutexes(s, x);
    PadSleepers(s, x, wake);
    assert Pad(s, x).workers[w] == s.workers[w];
  }

  lemma PadSubmit(s: Pool, x: Idlers, i: nat, p: Priority, wake: nat)
    requires i < |s.submitters|
    ensures SubmitStep(Pad(s, x), i, p, wake) == Pad(SubmitStep(s, i, p, wake), x)
  {
    PadSubmitNext(s, x, i, p, wake);
    PadSleepers(s, x, wake);
    var t, s' := Pad(s, x), SubmitStep(s, i, p, wake);
    assert t.submitters[i] == s.submitters[i] && t.lanes == s.lanes && t.pushed == s.pushed;
    UpdateFront(s.submitters, seq(x.submitters, _ => Idle), i, SubmitNext(s, i, p, wake));
    if Sleeps(s.workers, wake) {
      UpdateFront(s.workers, seq(x.workers, _ => Gate), wake, PopLock);
    }
  }

  lemma PadWork(s: Pool, x: Idlers, w: nat, wake: nat)
    requires w < |s.workers| == |s.busy|
    ensures WorkStep(Pad(s, x), w, wake) == Pad(WorkStep(s, w, wake), x)
  {
    PadWorkNext(s, x, w, wake);
    PadSleepers(s, x, wake);
    assert Pad(s, x).workers[w] == s.workers[w];
    UpdateFront(s.workers, seq(x.workers, _ => Gate), w, WorkNext(s, w, wake));
    UpdateFront(s.busy, seq(x.workers, _ => false), w, true);
    UpdateFront(s.busy, seq(x.workers, _ => false), w, false);
    if WakesWaiter(s, wake) {
      UpdateFront(s.waiters, seq(x.waiters, _ => Out), wake, WaitLock(s.waiters[wake].promise));
    }
  }

  lemma PadWait(s: Pool, x: Idlers, k: nat)
    requires k < |s.waiters|
    ensures WaitStep(Pad(s, x), k) == Pad(WaitStep(s, k), x)
  {
    PadMutexes(s, x);
    UpdateFront(s.waiters, seq(x.waiters, _ => Out), k, WaitNext(s, k));
    assert BroadcastPause(Pad(s, x).workers) == BroadcastPause(s.workers) + seq(x.workers, _ => Gate);
  }

  lemma PadStep(s: Pool, x: Idlers, a: Action, caps: bool)
    requires |s.workers| == |s.busy| == |s.submitters| == 1 && Plays(a, |s.waiters|, caps) && !a.Destroy?
    ensures Step(Pad(s, x), a) == Pad(Step(s, a), x)
  {
    match a
    case Submit(i, p, wake) => PadSubmit(s, x, i, p, wake);
    case Work(w, wake) => PadWork(s, x, w, wake);
    case Wait(k) => PadWait(s, x, k);
    case Happen(_) =>
  }

  lemma {:induction false} PadRun(s: Pool, x: Idlers, actions: seq<Action>, caps: bool)
    requires |s.workers| == |s.busy| == |s.submitters| == 1 && AllPlay(actions, |s.waiters|, caps)
    requires NoDestroy(actions)
    ensures Run(Pad(s, x), actions) == Pad(Run(s, actions), x)
  {
    if actions != [] {
      var last := |actions| - 1;
      PadRun(s, x, actions[..last], caps);
      PadStep(Run(s, actions[..last]), x, actions[last], caps);
    }
  }

  lemma PadForgotten(s: Pool, x: Idlers, k: nat)
    requires Forgotten(s, k)
    ensures Forgotten(Pad(s, x), k)
  {
    var t := Pad(s, x);
    assert t.waiters[k] == s.waiters[k];
    assert forall w :: 0 <= w < |s.workers| ==> t.workers[w] == s.workers[w];
  }

  // ---------- runs without destroy ----------

  predicate NoDestroy(actions: seq<Action>)
  {
    forall m :: 0 <= m < |actions| ==> !actions[m].Destroy?
  }

  predicate NoSetCap(actions: seq<Action>)
  {
    forall m :: 0 <= m < |actions| ==> actions[m].Happen? ==> !actions[m].event.SetCap?
  }

  lemma CalledStep(s: Pool, a: Action)
    requires |s.workers| == |s.busy|
    ensures Step(s, a).destroyer.NotCalled? <==> s.destroyer.NotCalled? && !a.Destroy?
  {
  }

  /** A destroyer that has not been called was not called on the way. */
  lemma {:induction false} NeverCalled(s: Pool, actions: seq<Action>)
    requires |s.workers| == |s.busy|
    ensures Run(s, actions).destroyer.NotCalled? <==> s.destroyer.NotCalled? && NoDestroy(actions)
  {
    if actions != [] {
      var last := |actions| - 1;
      NeverCalled(s, actions[..last]);
      CalledStep(Run(s, actions[..last]), actions[last]);
      assert actions == actions[..last] + [actions[last]];
    }
  }

  /** A pool of any larger shape forgets a waiter as well. */
  lemma LargerPoolForgets(s: Pool, caps: bool, k: nat, x: Idlers) returns (actions: seq<Action>)
    requires Played(s, caps) && Forgotten(s, k)
    ensures NoDestroy(actions) && (!caps ==> NoSetCap(actions))
    ensures var e := Run(Init(1 + x.submitters, 1 + x.workers, x.pausers, |s.waiters| + x.waiters), actions);
            Forgotten(e, k) && !Covered(e)
  {
    actions := LargerPoolRun(s, caps, x);
    PadForgotten(s, x, k);
    ForgottenSleepsOn(Pad(s, x), k);
  }

  lemma LargerPoolRun(s: Pool, caps: bool, x: Idlers) returns (actions: seq<Action>)
    requires Played(s, caps) && s.destroyer.NotCalled?
    ensures NoDestroy(actions) && (!caps ==> NoSetCap(actions))
    ensures Run(Init(1 + x.submitters, 1 + x.workers, x.pausers, |s.waiters| + x.waiters), actions) == Pad(s, x)
  {
    actions := OriginalRun(s, caps);
    PadRun(Init(1, 1, 0, |s.waiters|), x, actions, caps);
    PadInit(|s.waiters|, x);
  }

  lemma OriginalRun(s: Pool, caps: bool) returns (actions: seq<Action>)
    requires Played(s, caps) && s.destroyer.NotCalled?
    ensures AllPlay(actions, |s.waiters|, caps) && s == Run(Init(1, 1, 0, |s.waiters|), actions)
    ensures NoDestroy(actions) && (!caps ==> NoSetCap(actions))
  {
    actions :| AllPlay(actions, |s.waiters|, caps) && s == Run(Init(1, 1, 0, |s.waiters|), actions);
    NeverCalled(Init(1, 1, 0, |s.waiters|), actions);
  }

  lemma AfterRollback() returns (s: Pool)
    ensures Played(s, true) && |s.waiters| == 1 && Forgotten(s, 0)
  {
    var before := RollbackForgets();
    GoSubmit(before, true);
    s := SubmitStep(before, 0, LOW, 0);
    assert |before.waiters| == 1;
  }

  // ---------- which pools forget a waiter ----------

  /** Some run without destroy, and without a change of the capacity unless `caps`, loses a wakeup. */
  ghost predicate CanForget(submitters: nat, workers: nat, pausers: nat, waiters: nat, caps: bool)
  {
    exists actions ::
      NoDestroy(actions) && (caps || NoSetCap(actions)) &&
      !Covered(Run(Init(submitters, workers, pausers, waiters), actions))
  }

  /** Without a waiter nobody sleeps on drain_cond before destroy. */
  lemma NobodyToForget(submitters: nat, workers: nat, pausers: nat, actions: seq<Action>)
    requires NoDestroy(actions)
    ensures Covered(Run(Init(submitters, workers, pausers, 0), actions))
  {
    NeverCalled(Init(submitters, workers, pausers, 0), actions);
  }

  /**
   * A pool with a submitter and a worker, and a queue without capacity, can lose the wakeup of a wait
   * exactly when two threads may wait.
   */
  lemma UncappedForgetsIff(submitters: nat, workers: nat, pausers: nat, waiters: nat)
    requires submitters > 0 && workers > 0
    ensures CanForget(submitters, workers, pausers, waiters, false) <==> waiters >= 2
  {
    if waiters >= 2 {
      var s := SecondWaiterForgotten();
      var actions := LargerPoolForgets(s, false, 1, Idlers(submitters - 1, workers - 1, pausers, waiters - 2));
    } else {
      forall actions | NoDestroy(actions) && NoSetCap(actions)
        ensures Covered(Run(Init(submitters, workers, pausers, waiters), actions))
      {
        SoleWaiterIsWoken(submitters, workers, pausers, waiters, actions);
      }
    }
  }

  /** Once the capacity may be set, one waiter is enough. */
  lemma CappedForgetsIff(submitters: nat, workers: nat, pausers: nat, waiters: nat)
    requires submitters > 0 && workers > 0
    ensures CanForget(submitters, workers, pausers, waiters, true) <==> waiters >= 1
  {
    if waiters >= 1 {
      var s := AfterRollback();
      var actions := LargerPoolForgets(s, true, 0, Idlers(submitters - 1, workers - 1, pausers, waiters - 1));
    } else {
      forall actions | NoDestroy(actions) ensures Covered(Run(Init(submitters, workers, pausers, waiters), actions)) {
        NobodyToForget(submitters, workers, pausers, actions);
      }
    }
  }

  // ---------- a wait beside destroy ----------

  /** Destroy is called, and leaves its spin. */
  lemma DestroyCalled(s: Pool) returns (s': Pool)
    requires Played(s, false) && s.destroyer.NotCalled? && s.inFlight == 0 && !s.paused
    ensures Played(s', false) && s' == s.(destroyer := WakeQueueAll, shutdown := true)
  {
    GoDestroy(s, false);
    s' := DestroyStep(s);
    s' := SpinEnds(s');
  }

  /** A step of the destroyer that finds nobody to wake moves the destroyer only. */
  lemma DestroyMoves(s: Pool) returns (s': Pool)
    requires Played(s, false) && s.workers == [Gate] && PastSpin(s.destroyer) && !s.destroyer.ClearAging?
    requires !s.destroyer.Free?
    ensures Played(s', false) && s' == s.(destroyer := DestroyNext(s))
  {
    GoDestroy(s, false);
    s' := DestroyStep(s);
    assert BroadcastQueue(s.workers) == s.workers && BroadcastPause(s.workers) == s.workers;
  }

  /** Its broadcasts find nobody asleep, and aging is off. */
  lemma DestroyWakes(s: Pool) returns (s': Pool)
    requires Played(s, false) && s.destroyer.WakeQueueAll? && !s.agingEnabled && s.workers == [Gate]
    ensures Played(s', false) && s' == s.(destroyer := DrainLock)
  {
    s' := DestroyMoves(s);
    s' := DestroyMoves(s');
    s' := DestroyMoves(s');
  }

  lemma DestroyLocks(s: Pool) returns (s': Pool)
    requires Played(s, false) && s.destroyer.DrainLock? && s.workers == [Gate] && DrainFree(s)
    ensures Played(s', false) && s' == s.(destroyer := DrainCheck)
  {
    s' := DestroyMoves(s);
  }

  /** It finds a task in the system and goes to sleep. */
  lemma DestroySleeps(s: Pool) returns (s': Pool)
    requires Played(s, false) && s.destroyer.DrainCheck? && s.workers == [Gate] && s.total > 0
    ensures Played(s', false) && s' == s.(destroyer := DrainAsleep)
  {
    s' := DestroyMoves(s);
    assert s'.destroyer == DrainSleep;
    s' := DestroyMoves(s');
  }

  /** A waiter and the destroyer sleep while the only task is queued. */
  lemma TwoSleepers() returns (s: Pool)
    ensures Played(s, false)
    ensures s == Init(1, 1, 0, 1).(lanes := [[0], [], []], total := 1, nextId := 1, pushed := [0], returned := {0},
                                   waiters := [WaitAsleep({0})], shutdown := true, destroyer := DrainAsleep)
  {
    s := FirstTask(1, false);
    s := WaiterSleeps(s, 0, false);
    s := DestroyCalled(s);
    s := DestroyWakes(s);
    s := DestroyLocks(s);
    s := DestroySleeps(s);
  }

  /**
   * A wait that sleeps beside destroy can take the only signal: every task has run and no task is
   * stranded, yet destroy never returns unless it wakes for no reason.
   */
  lemma WaitTakesSignal() returns (s: Pool)
    ensures Played(s, false) && Reachable(s) && PastSpin(s.destroyer) && !Stranded(s) && s.executed == [0]
    ensures s.waiters == [WaitLock({0})]
    ensures forall actions :: NoSpurious(actions) ==> !Run(s, actions).destroyer.Gone?
  {
    s := TwoSleepers();
    s := WorkerServes(s, false);
    s := WorkerSignals(s);
    PlayedReachable(s, false);
    ReachableInv(s);
    forall actions | NoSpurious(actions) ensures !Run(s, actions).destroyer.Gone? {
      OverlookedForever(s, actions);
    }
  }
}
