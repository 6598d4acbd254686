/** thread_pool_wait with several sleepers on drain_cond: exactly which steps lose a wakeup. */
module PoolDrain {
  import opened PriorityLanes
  import opened Counting
  import opened ThreadPool
  import opened PoolAccounts
  import opened PoolWakeups
  import opened PoolTheorems
  import opened PoolReplay

  predicate Dozes(x: Waiter)
  {
    x.WaitSleep? || x.WaitAsleep?
  }

  /** Somebody sleeps on drain_cond or is about to. */
  ghost predicate DrainSleeper(s: Pool)
  {
    s.destroyer.DrainSleep? || s.destroyer.DrainAsleep? || exists k :: 0 <= k < |s.waiters| && Dozes(s.waiters[k])
  }

  /** A sleeper on a drained pool has a signal coming. */
  ghost predicate Covered(s: Pool)
  {
    DrainSleeper(s) && s.total <= 0 ==> DrainSignalOwed(s)
  }

  /** The signal of worker w would leave another thread asleep, and no other worker signals. */
  ghost predicate LeavesSleeper(s: Pool, w: nat, wake: nat)
  {
    && (forall v :: 0 <= v < |s.workers| && v != w ==> !s.workers[v].DrainSignal?)
    && if WakesWaiter(s, wake)
       then s.destroyer.DrainAsleep? || exists k :: 0 <= k < |s.waiters| && k != wake && s.waiters[k].WaitAsleep?
       else exists k :: 0 <= k < |s.waiters| && s.waiters[k].WaitAsleep?
  }

  /**
   * The two ways to lose a wakeup: a rollback that empties the pool without a signal, and the last
   * signal on an empty pool that wakes one of several sleepers.
   */
  ghost predicate LosesWakeup(s: Pool, a: Action)
  {
    match a
    case Submit(i, _, _) =>
      i < |s.submitters| && s.submitters[i].Rollback? && s.total == 1 && DrainSleeper(s) && !DrainSignalOwed(s)
    case Work(w, wake) =>
      && w < |s.workers| && s.workers[w].DrainSignal? && s.total <= 0
      && DrainFree(s) && LegalDrainWake(s, wake) && LeavesSleeper(s, w, wake)
    case _ => false
  }

  lemma SubmitCovers(s: Pool, i: nat, p: Priority, wake: nat)
    requires AccountInv(s) && Covered(s) && i < |s.submitters|
    ensures Covered(SubmitStep(s, i, p, wake)) <==> !LosesWakeup(s, Submit(i, p, wake))
  {
    var s' := SubmitStep(s, i, p, wake);
    if DrainSignalOwed(s) {
      OtherKeepsSignal(s, Submit(i, p, wake));
    }
    if DrainSignalOwed(s') {
      var v :| 0 <= v < |s'.workers| && s'.workers[v].DrainSignal?;
      assert s.workers[v].DrainSignal?;
    }
    if s.submitters[i].Rollback? {
      CountPositive(Entered, s.submitters, i);
    }
    assert DrainSleeper(s') == DrainSleeper(s);
  }

  /** A worker step other than the signal itself leaves the sleepers alone. */
  lemma QuietWorkCovers(s: Pool, w: nat, wake: nat)
    requires AccountInv(s) && Covered(s) && w < |s.workers| && WorkNext(s, w, wake) != s.workers[w]
    requires !s.workers[w].DrainSignal?
    ensures Covered(WorkStep(s, w, wake))
  {
    var s' := WorkStep(s, w, wake);
    if DrainSignalOwed(s) {
      var v :| 0 <= v < |s.workers| && s.workers[v].DrainSignal?;
      assert s'.workers[v].DrainSignal?;
    }
    if s.workers[w].Finish? {
      CountPositive(HoldsTask, s.workers, w);
      if s'.total <= 0 {
        assert s'.workers[w].DrainSignal?;
      }
    }
  }

  lemma SignalCovers(s: Pool, w: nat, wake: nat)
    requires AccountInv(s) && Covered(s) && w < |s.workers| && s.workers[w].DrainSignal?
    requires DrainFree(s) && LegalDrainWake(s, wake)
    ensures Covered(WorkStep(s, w, wake)) <==> !LosesWakeup(s, Work(w, wake))
  {
    var s' := WorkStep(s, w, wake);
    if v :| 0 <= v < |s.workers| && v != w && s.workers[v].DrainSignal? {
      assert s'.workers[v].DrainSignal?;
    } else {
      assert !DrainSignalOwed(s');
      SleepersAfterSignal(s, w, wake);
    }
  }

  lemma SleepersAfterSignal(s: Pool, w: nat, wake: nat)
    requires |s.workers| == |s.busy| && w < |s.workers| && s.workers[w].DrainSignal?
    requires DrainFree(s) && LegalDrainWake(s, wake)
    requires forall v :: 0 <= v < |s.workers| && v != w ==> !s.workers[v].DrainSignal?
    ensures DrainSleeper(WorkStep(s, w, wake)) <==> LeavesSleeper(s, w, wake)
  {
    var s' := WorkStep(s, w, wake);
    if DrainSleeper(s') {
      if k :| 0 <= k < |s'.waiters| && Dozes(s'.waiters[k]) {
        assert s.waiters[k].WaitAsleep?;
      }
    }
    if k :| 0 <= k < |s.waiters| && s.waiters[k].WaitAsleep? && !(WakesWaiter(s, wake) && k == wake) {
      assert Dozes(s'.waiters[k]);
    }
  }

  /** On a drained pool nobody starts to doze. */
  lemma OtherKeepsAwake(s: Pool, a: Action)
    requires |s.workers| == |s.busy| && !DrainSleeper(s) && s.total <= 0 && !a.Submit? && !a.Work?
    ensures !DrainSleeper(Step(s, a))
  {
    if a.Wait? && a.k < |s.waiters| {
      assert !Dozes(s.waiters[a.k]) && !Dozes(WaitNext(s, a.k));
    }
  }

  lemma OtherCovers(s: Pool, a: Action)
    requires AccountInv(s) && Covered(s) && !a.Submit? && !a.Work?
    ensures Covered(Step(s, a))
  {
    if DrainSignalOwed(s) {
      OtherKeepsSignal(s, a);
    } else if s.total <= 0 {
      OtherKeepsAwake(s, a);
    } else {
      OtherKeepsTotal(s, a);
    }
  }

  lemma OtherKeepsTotal(s: Pool, a: Action)
    requires |s.workers| == |s.busy| && !a.Submit? && !a.Work?
    ensures Step(s, a).total == s.total
  {
  }

  /** A step keeps every sleeper covered exactly when it is not one of the two losing steps. */
  lemma DrainCoveredIff(s: Pool, a: Action)
    requires Reachable(s) && Covered(s)
    ensures Covered(Step(s, a)) <==> !LosesWakeup(s, a)
  {
    ReachableInv(s);
    match a
    case Submit(i, p, wake) => if i < |s.submitters| { SubmitCovers(s, i, p, wake); }
    case Work(w, wake) =>
      if w < |s.workers| {
        if WorkNext(s, w, wake) == s.workers[w] {
          WorkIdle(s, w, wake);
        } else if s.workers[w].DrainSignal? {
          SignalCovers(s, w, wake);
        } else {
          QuietWorkCovers(s, w, wake);
        }
      }
    case _ => OtherCovers(s, a);
  }

  lemma WorkIdle(s: Pool, w: nat, wake: nat)
    requires |s.workers| == |s.busy| && w < |s.workers| && WorkNext(s, w, wake) == s.workers[w]
    ensures WorkStep(s, w, wake) == s
  {
    assert s.workers[w := s.workers[w]] == s.workers;
  }

  // ---------- one waiter, no capacity ----------

  /** At most one thread may wait, the queue is unbounded and destroy was not called. */
  ghost predicate SoleWaiter(s: Pool)
  {
    && |s.waiters| <= 1 && s.cap == 0 && s.destroyer.NotCalled?
    && forall i :: 0 <= i < |s.submitters| ==> !s.submitters[i].Rollback?
  }

  predicate Unbounded(actions: seq<Action>)
  {
    forall m :: 0 <= m < |actions| ==> !actions[m].Destroy? && (actions[m].Happen? ==> !actions[m].event.SetCap?)
  }

  lemma SoleWaiterStep(s: Pool, a: Action)
    requires |s.workers| == |s.busy| && SoleWaiter(s) && !a.Destroy? && (a.Happen? ==> !a.event.SetCap?)
    ensures SoleWaiter(Step(s, a)) && !LosesWakeup(s, a)
  {
    if a.Work? && a.w < |s.workers| && LegalDrainWake(s, a.wake) {
      assert AsleepOnDrain(s) <==> |s.waiters| == 1 && s.waiters[0].WaitAsleep?;
    }
  }

  /** With one waiter and no capacity, no run loses the wakeup of thread_pool_wait. */
  lemma {:induction false} SoleWaiterIsWoken(submitters: nat, workers: nat, pausers: nat, waiters: nat,
                                             actions: seq<Action>)
    requires waiters <= 1 && Unbounded(actions)
    ensures var s := Run(Init(submitters, workers, pausers, waiters), actions);
            SoleWaiter(s) && Reachable(s) && Covered(s)
  {
    var init := Init(submitters, workers, pausers, waiters);
    assert Run(init, []) == init;
    if actions != [] {
      var last := |actions| - 1;
      var s := Run(init, actions[..last]);
      SoleWaiterIsWoken(submitters, workers, pausers, waiters, actions[..last]);
      SoleWaiterStep(s, actions[last]);
      DrainCoveredIff(s, actions[last]);
      ReachableStep(s, actions[last]);
    }
  }

  // ---------- two waiters ----------

  /** The pool is drained and idle, no signal is coming, and waiter k sleeps. */
  ghost predicate Forgotten(s: Pool, k: nat)
  {
    && |s.workers| == |s.busy| && k < |s.waiters| && s.waiters[k].WaitAsleep? && s.total == 0 && Size(s.lanes) == 0
    && s.destroyer.NotCalled?
    && (forall w :: 0 <= w < |s.workers| ==> !HoldsTask(s.workers[w]) && !s.workers[w].DrainSignal?)
  }

  /** No submit, no destroy and no spurious wakeup. */
  predicate Undisturbed(actions: seq<Action>)
  {
    forall m :: 0 <= m < |actions| ==> !actions[m].Submit? && !actions[m].Destroy? && !Spurious(actions[m])
  }

  lemma IdleBroadcasts(ws: seq<Worker>)
    requires forall w :: 0 <= w < |ws| ==> !HoldsTask(ws[w]) && !ws[w].DrainSignal?
    ensures forall w :: 0 <= w < |ws| ==> !HoldsTask(BroadcastPause(ws)[w]) && !BroadcastPause(ws)[w].DrainSignal?
    ensures forall w :: 0 <= w < |ws| ==> !HoldsTask(BroadcastQueue(ws)[w]) && !BroadcastQueue(ws)[w].DrainSignal?
  {
  }

  lemma ForgottenWork(s: Pool, w: nat, wake: nat, k: nat)
    requires Forgotten(s, k) && w < |s.workers|
    ensures Forgotten(WorkStep(s, w, wake), k)
  {
    assert !HoldsTask(s.workers[w]) && !s.workers[w].DrainSignal?;
    assert WorkStep(s, w, wake).waiters == s.waiters;
  }

  lemma ForgottenAge(s: Pool, n: nat, k: nat)
    requires Forgotten(s, k)
    ensures Forgotten(AgeStep(s, n), k)
  {
    IdleBroadcasts(s.workers);
    if s.ager.AgeMove? && s.ager.src < HIGH {
      PromoteKeepsSize(s.lanes, s.ager.src, Promotable(s));
    }
  }

  lemma ForgottenCall(s: Pool, a: Action, k: nat)
    requires Forgotten(s, k) && (a.Control? || a.Wait? || (a.Happen? && !Spurious(a)))
    ensures Forgotten(Step(s, a), k)
  {
    IdleBroadcasts(s.workers);
  }

  lemma ForgottenStep(s: Pool, a: Action, k: nat)
    requires Forgotten(s, k) && !a.Submit? && !a.Destroy? && !Spurious(a)
    ensures Forgotten(Step(s, a), k)
  {
    match a
    case Work(w, wake) => if w < |s.workers| { ForgottenWork(s, w, wake, k); }
    case Age(n) => ForgottenAge(s, n, k);
    case _ => ForgottenCall(s, a, k);
  }

  lemma {:induction false} ForgottenRun(s: Pool, actions: seq<Action>, k: nat)
    requires Forgotten(s, k) && Undisturbed(actions)
    ensures Forgotten(Run(s, actions), k)
  {
    if actions != [] {
      var last := |actions| - 1;
      ForgottenRun(s, actions[..last], k);
      ForgottenStep(Run(s, actions[..last]), actions[last], k);
    }
  }

  lemma ForgottenSleepsOn(s: Pool, k: nat)
    requires Forgotten(s, k)
    ensures !Covered(s)
    ensures forall actions :: Undisturbed(actions) ==> Run(s, actions).waiters[k].WaitAsleep?
  {
    forall actions | Undisturbed(actions) ensures Run(s, actions).waiters[k].WaitAsleep? {
      ForgottenRun(s, actions, k);
    }
  }

  /**
   * Two concurrent waits can lose a wakeup: the only task has run and the total is zero, yet the
   * second waiter sleeps on until somebody submits again or it wakes for no reason.
   */
  lemma SecondWaiterForgotten() returns (s: Pool)
    ensures Played(s, false) && Reachable(s) && Forgotten(s, 1)
    ensures s.executed == [0] && s.waiters == [WaitLock({0}), WaitAsleep({0})]
    ensures forall actions :: Undisturbed(actions) ==> Run(s, actions).waiters[1].WaitAsleep?
  {
    s := BothWaitersSleep();
    s := WorkerServes(s, false);
    s := WorkerSignals(s);
    PlayedReachable(s, false);
    ForgottenSleepsOn(s, 1);
  }

  lemma BothWaitersSleep() returns (s: Pool)
    ensures Played(s, false)
    ensures s == Init(1, 1, 0, 2).(lanes := [[0], [], []], total := 1, nextId := 1, pushed := [0], returned := {0},
                                   waiters := [WaitAsleep({0}), WaitAsleep({0})])
  {
    s := FirstTask(2, false);
    s := WaiterSleeps(s, 0, false);
    s := WaiterSleeps(s, 1, false);
  }

  /** The worker's signal wakes the first of the sleeping waiters. */
  lemma WorkerSignals(s: Pool) returns (s': Pool)
    requires Played(s, false) && s.workers == [DrainSignal] && DrainFree(s) && WakesWaiter(s, 0)
    ensures Played(s', false)
    ensures s' == s.(workers := [Gate], waiters := s.waiters[0 := WaitLock(s.waiters[0].promise)])
  {
    GoWork(s, false);
    s' := WorkStep(s, 0, 0);
  }

  // ---------- a refused submit ----------

  /** Task 0 is queued, and a second submit is refused by a capacity that was set meanwhile. */
  lemma RefusedSubmit() returns (s: Pool)
    ensures Played(s, true)
    ensures s == Init(1, 1, 0, 1).(lanes := [[0], [], []], total := 2, nextId := 2, pushed := [0], returned := {0},
                                   submitters := [Rollback], inFlight := 1, cap := 1)
  {
    s := FirstTask(1, true);
    s := SubmitStarts(s, true);
    s := SubmitEnters(s, true);
    s := CapacityRefuses(s);
  }

  lemma CapacityRefuses(s: Pool) returns (s': Pool)
    requires Played(s, true) && s.submitters == [TryPush(LOW, 1)] && QueueFree(s) && Size(s.lanes) == 1
    ensures Played(s', true) && s' == s.(cap := 1, submitters := [Rollback])
  {
    GoCap(s, 1);
    var s1 := s.(cap := 1);
    GoSubmit(s1, true);
    s' := SubmitStep(s1, 0, LOW, 0);
  }

  /**
   * One wait and one refused submit can lose a wakeup as well: the worker finishes the last task while
   * the refused one is still counted, and the rollback that takes the total to zero does not signal.
   */
  lemma RollbackForgets() returns (s: Pool)
    ensures Played(s, true) && Reachable(s) && |s.waiters| == 1 && s.submitters == [Rollback] && s.executed == [0]
    ensures LosesWakeup(s, Submit(0, LOW, 0)) && Forgotten(SubmitStep(s, 0, LOW, 0), 0)
    ensures forall actions :: Undisturbed(actions) ==> Run(SubmitStep(s, 0, LOW, 0), actions).waiters[0].WaitAsleep?
  {
    s := RefusedSubmit();
    s := WaiterSleeps(s, 0, true);
    s := WorkerServes(s, true);
    PlayedReachable(s, true);
    assert Dozes(s.waiters[0]);
    ForgottenSleepsOn(SubmitStep(s, 0, LOW, 0), 0);
  }
}
