/** When destroy can finish: exactly when no task was stranded behind the last worker's exit. */
module PoolShutdown {
  import opened PriorityLanes
  import opened Counting
  import opened ThreadPool
  import opened PoolAccounts
  import opened PoolWakeups
  import opened PoolTheorems
  import opened PoolReplay

  /** Every worker has exited and a task is still queued. */
  ghost predicate Stranded(s: Pool)
  {
    Size(s.lanes) > 0 && forall w :: 0 <= w < |s.workers| ==> s.workers[w].Exited?
  }

  // ---------- a stranded task is never run ----------

  lemma StrandedCall(s: Pool, a: Action)
    requires |s.workers| == |s.busy| && Stranded(s) && (a.Control? || a.Wait? || a.Happen?)
    ensures Stranded(Step(s, a))
  {
  }

  lemma StrandedAge(s: Pool, n: nat)
    requires Stranded(s)
    ensures Stranded(AgeStep(s, n))
  {
    if s.ager.AgeMove? && s.ager.src < HIGH {
      PromoteKeepsSize(s.lanes, s.ager.src, Promotable(s));
    }
  }

  lemma StrandedDestroy(s: Pool)
    requires AccountInv(s) && Stranded(s)
    ensures Stranded(DestroyStep(s))
  {
    if s.destroyer.Free? {
      NothingLeft(s);
    }
  }

  lemma StrandedStep(s: Pool, a: Action)
    requires Sane(s) && PastSpin(s.destroyer) && Stranded(s)
    ensures Stranded(Step(s, a))
  {
    SaneAccounts(s);
    match a
    case Submit(i, p, wake) => if i < |s.submitters| { SubmitAfterSpin(s, i, p, wake); }
    case Work(w, wake) => if w < |s.workers| { assert WorkStep(s, w, wake).workers == s.workers; }
    case Age(n) => StrandedAge(s, n);
    case Destroy => StrandedDestroy(s);
    case _ => StrandedCall(s, a);
  }

  lemma {:induction false} StrandedForever(s: Pool, actions: seq<Action>)
    requires Sane(s) && PastSpin(s.destroyer) && Stranded(s)
    ensures Stranded(Run(s, actions)) && PastSpin(Run(s, actions).destroyer)
  {
    if actions != [] {
      var last := |actions| - 1;
      var e := Run(s, actions[..last]);
      StrandedForever(s, actions[..last]);
      SaneRun(s, actions[..last]);
      SaneAccounts(e);
      StepAfterSpin(e, actions[last]);
      StrandedStep(e, actions[last]);
    }
  }

  /** A queue left without workers keeps destroy in its drain loop. */
  lemma StrandedNeverEnds(s: Pool, actions: seq<Action>)
    requires Sane(s) && PastSpin(s.destroyer) && Stranded(s)
    ensures Stranded(Run(s, actions)) && !PastDrain(Run(s, actions).destroyer)
  {
    var e := Run(s, actions);
    StrandedForever(s, actions);
    SaneRun(s, actions);
    SaneAccounts(e);
    if PastDrain(e.destroyer) {
      NothingLeft(e);
    }
  }

  lemma WorkKeepsWorker(s: Pool, v: nat, wake: nat, w: nat)
    requires v < |s.workers| == |s.busy| && HeldIsEmpty(s) && Size(s.lanes) > 0
    requires w < |s.workers| && !s.workers[w].Exited?
    ensures !WorkStep(s, v, wake).workers[w].Exited?
  {
    assert !HoldsQueue(s.workers[v]);
  }

  lemma WorkerStays(s: Pool, a: Action, w: nat)
    requires |s.workers| == |s.busy| && HeldIsEmpty(s) && Size(s.lanes) > 0
    requires w < |s.workers| && !s.workers[w].Exited?
    ensures !Step(s, a).workers[w].Exited?
  {
    if a.Work? && a.w < |s.workers| {
      WorkKeepsWorker(s, a.w, a.wake, w);
    }
  }

  lemma QueueShrinks(s: Pool, a: Action)
    requires AccountInv(s) && PastSpin(s.destroyer)
    ensures Size(Step(s, a).lanes) <= Size(s.lanes)
  {
    match a
    case Submit(i, p, wake) => if i < |s.submitters| { SubmitAfterSpin(s, i, p, wake); }
    case Work(_, _) => if Size(s.lanes) > 0 { PopServesInOrder(s.lanes); }
    case Age(_) =>
      if s.ager.AgeMove? && s.ager.src < HIGH {
        PromoteKeepsSize(s.lanes, s.ager.src, Promotable(s));
      }
    case _ =>
  }

  /** Past the spin a worker exits only when the queue is empty, and it stays empty. */
  lemma UnstrandedStep(s: Pool, a: Action)
    requires Sane(s) && PastSpin(s.destroyer) && !Stranded(s)
    ensures !Stranded(Step(s, a))
  {
    SaneAccounts(s);
    SaneHeld(s);
    QueueShrinks(s, a);
    if Size(s.lanes) > 0 {
      var w: nat :| w < |s.workers| && !s.workers[w].Exited?;
      WorkerStays(s, a, w);
    }
  }

  // ---------- the distance to the end of destroy ----------

  function WorkerRank(w: Worker): nat
  {
    match w
    case Exited => 0
    case PopShutdown => 1
    case PopLock => 2
    case PopAsleep => 3
    case PopSleep => 4
    case Gate => 3
    case PauseCheck => 3
    case PauseLock => 4
    case PauseAsleep => 5
    case PauseSleep => 6
    case DrainSignal => 7
    case Finish => 8
    case ClearBusy => 9
    case Running(_) => 10
    case SetBusy(_) => 11
  }

  function AgerRank(x: Ager): nat
  {
    match x
    case AgeOff => 0
    case AgeTop => 1
    case AgeBetween => 2
    case AgeCast(_) => 3
    case AgeMove(_, _) => 4
    case AgeRead(_, _) => 5
    case AgeClock(_) => 6
    case AgeCheck => 7
  }

  function DestroyerRank(d: Destroyer, n: nat): nat
  {
    match d
    case NotCalled => n + 19
    case ClearPause => n + 18
    case Spin => n + 17
    case WakeQueueAll => n + 16
    case WakePausedAll => n + 15
    case StopAging => n + 14
    case ClearAging => n + 13
    case WakeAging => n + 12
    case JoinAging => n + 11
    case DrainLock => n + 10
    case DrainCheck => n + 9
    case DrainSleep => n + 8
    case DrainAsleep => n + 7
    case DrainUnlock => n + 6
    case Join(k) => if k <= n then n - k + 3 else 2
    case Free => 1
    case Gone => 0
  }

  predicate OwesResume(x: Pauser)
  {
    x.WakePaused?
  }

  function WaiterRank(x: Waiter): nat
  {
    match x
    case WaitCheck(_) => 2
    case WaitSleep(_) => 1
    case WaitUnlock(_) => 1
    case WaitWake(_) => 1
    case _ => 0
  }

  /** What is left for the workers, and for the waiters that block them. */
  function WorkLeft(s: Pool): nat
  {
    10 * Size(s.lanes) + Sum(WorkerRank, s.workers) + Sum(WaiterRank, s.waiters)
  }

  function Distance(s: Pool): nat
  {
    WorkLeft(s) + AgerRank(s.ager) + DestroyerRank(s.destroyer, |s.workers|) + Count(OwesResume, s.pausers)
  }

  /** Past the spin, with nothing stranded and no lost wakeup. */
  ghost predicate Finishing(s: Pool)
  {
    Sane(s) && PastSpin(s.destroyer) && !Stranded(s) && DrainNotLost(s)
  }

  lemma WakesLower(ws: seq<Worker>)
    ensures Sum(WorkerRank, BroadcastQueue(ws)) <= Sum(WorkerRank, ws)
    ensures Sum(WorkerRank, BroadcastPause(ws)) <= Sum(WorkerRank, ws)
  {
    SumMonotone(WorkerRank, BroadcastQueue(ws), ws);
    SumMonotone(WorkerRank, BroadcastPause(ws), ws);
  }

  predicate Asleep(w: Worker)
  {
    w.PopAsleep? || w.PauseAsleep?
  }

  /** Worker w can take its next step. */
  ghost predicate Unblocked(s: Pool, w: nat)
    requires w < |s.workers|
  {
    var x := s.workers[w];
    && !x.Exited? && !Asleep(x)
    && (x.PauseLock? ==> PauseFree(s))
    && (x.PopLock? ==> QueueFree(s))
    && (x.DrainSignal? ==> DrainFree(s))
  }

  /** A legal choice for a signal of drain_cond that prefers the destroyer. */
  ghost function DrainChoice(s: Pool): (wake: nat)
    ensures LegalDrainWake(s, wake) && (s.destroyer.DrainAsleep? ==> !WakesWaiter(s, wake))
  {
    if s.destroyer.DrainAsleep? then |s.waiters|
    else if k: nat :| k < |s.waiters| && s.waiters[k].WaitAsleep? then k
    else 0
  }

  lemma SignalLowers(s: Pool, w: nat, wake: nat)
    requires w < |s.workers| == |s.busy| && s.workers[w].DrainSignal? && DrainFree(s) && LegalDrainWake(s, wake)
    ensures WorkLeft(WorkStep(s, w, wake)) + 4 <= WorkLeft(s)
  {
    SumUpdate(WorkerRank, s.workers, w, Gate);
    if WakesWaiter(s, wake) {
      SumUpdate(WaiterRank, s.waiters, wake, WaitLock(s.waiters[wake].promise));
    }
  }

  lemma WorkLowers(s: Pool, w: nat, wake: nat)
    requires |s.workers| == |s.busy| && s.shutdown && !s.paused
    requires w < |s.workers| && Unblocked(s, w) && !s.workers[w].DrainSignal?
    ensures WorkLeft(WorkStep(s, w, wake)) < WorkLeft(s)
  {
    SumUpdate(WorkerRank, s.workers, w, WorkNext(s, w, wake));
    if s.workers[w].PopLock? && Size(s.lanes) > 0 {
      PopServesInOrder(s.lanes);
    }
  }

  /** The next step of an unblocked worker. */
  lemma WorkAdvances(s: Pool, w: nat)
    requires |s.workers| == |s.busy| && s.shutdown && !s.paused
    requires w < |s.workers| && Unblocked(s, w)
    ensures Distance(WorkStep(s, w, DrainChoice(s))) < Distance(s)
  {
    if s.workers[w].DrainSignal? {
      SignalLowers(s, w, DrainChoice(s));
    } else {
      WorkLowers(s, w, DrainChoice(s));
    }
  }

  /** A waiter that holds the drain mutex, or is about to broadcast, takes its next step. */
  lemma WaitLowers(s: Pool, k: nat)
    requires k < |s.waiters| && !s.paused
    requires HoldsDrain(s.waiters[k]) || (s.waiters[k].WaitWake? && PauseFree(s))
    ensures WorkLeft(WaitStep(s, k)) < WorkLeft(s)
  {
    SumUpdate(WaiterRank, s.waiters, k, WaitNext(s, k));
    WakesLower(s.workers);
  }

  /** The destroyer can take its next step. */
  ghost predicate DestroyerUnblocked(s: Pool)
  {
    match s.destroyer
    case WakeQueueAll => QueueFree(s)
    case WakePausedAll => PauseFree(s)
    case WakeAging => PauseFree(s)
    case JoinAging => s.ager.AgeOff?
    case DrainLock => DrainFree(s)
    case DrainAsleep => false
    case Join(k) => k >= |s.workers| || s.workers[k].Exited?
    case Gone => false
    case _ => true
  }

  lemma DestroyAdvances(s: Pool)
    requires PastSpin(s.destroyer) && DestroyerUnblocked(s)
    requires s.destroyer.Free? ==> Size(s.lanes) == 0
    ensures Distance(DestroyStep(s)) < Distance(s)
  {
    DestroyerDescends(s);
    WakesLower(s.workers);
    assert DestroyStep(s).ager == s.ager && DestroyStep(s).pausers == s.pausers;
  }

  lemma DestroyerDescends(s: Pool)
    requires PastSpin(s.destroyer) && DestroyerUnblocked(s)
    ensures DestroyerRank(DestroyNext(s), |s.workers|) < DestroyerRank(s.destroyer, |s.workers|)
  {
  }

  lemma AgeDescends(s: Pool, n: nat)
    requires s.shutdown
    ensures AgeNext(s, n) == s.ager || AgerRank(AgeNext(s, n)) < AgerRank(s.ager)
  {
  }

  lemma AgeKeepsSize(s: Pool, n: nat)
    ensures Size(AgeStep(s, n).lanes) == Size(s.lanes)
    ensures AgeNext(s, n) == s.ager ==> AgeStep(s, n).lanes == s.lanes && AgeStep(s, n).workers == s.workers
  {
    if s.ager.AgeMove? && s.ager.src < HIGH {
      PromoteKeepsSize(s.lanes, s.ager.src, Promotable(s));
    }
  }

  lemma AgeAdvances(s: Pool)
    requires s.shutdown && QueueFree(s) && !s.ager.AgeOff?
    ensures Distance(AgeStep(s, 0)) < Distance(s)
  {
    var s' := AgeStep(s, 0);
    AgeDescends(s, 0);
    assert AgeNext(s, 0) != s.ager;
    AgeKeepsSize(s, 0);
    WakesLower(s.workers);
    assert s'.ager == AgeNext(s, 0);
  }

  lemma ResumeAdvances(s: Pool, k: nat)
    requires PauseFree(s) && k < |s.pausers| && s.pausers[k].WakePaused?
    ensures Distance(PauseStep(s, k, Resume)) < Distance(s)
  {
    WakesLower(s.workers);
    CountUpdate(OwesResume, s.pausers, k, Ready);
  }

  /** The action brings the end of destroy closer; it is no spurious wakeup and diverts no signal. */
  ghost predicate Helps(s: Pool, a: Action)
    requires |s.workers| == |s.busy|
  {
    Distance(Step(s, a)) < Distance(s) && !a.Happen? && !DivertsSignal(s, a)
  }

  lemma DestroyHelps(s: Pool)
    requires Finishing(s) && DestroyerUnblocked(s)
    ensures Helps(s, Destroy)
  {
    SaneAccounts(s);
    if s.destroyer.Free? {
      NothingLeft(s);
    }
    DestroyAdvances(s);
  }

  /** If some worker is neither asleep nor gone, a worker, a waiter or the destroyer can move. */
  lemma SomeWorkerAwake(s: Pool, w: nat) returns (a: Action)
    requires Finishing(s) && w < |s.workers| && !s.workers[w].Exited? && !Asleep(s.workers[w])
    ensures Helps(s, a)
  {
    SaneFlags(s);
    if v: nat :| v < |s.workers| && (HoldsQueue(s.workers[v]) || HoldsPause(s.workers[v])) {
      a := Work(v, DrainChoice(s));
      WorkAdvances(s, v);
    } else if k: nat :| s.workers[w].DrainSignal? && k < |s.waiters| && HoldsDrain(s.waiters[k]) {
      a := Wait(k);
      WaitLowers(s, k);
    } else if s.workers[w].DrainSignal? && !DrainFree(s) {
      a := Destroy;
      DestroyHelps(s);
    } else {
      a := Work(w, DrainChoice(s));
      WorkAdvances(s, w);
    }
  }

  lemma WaitHelps(s: Pool, k: nat)
    requires |s.workers| == |s.busy| && k < |s.waiters| && !s.paused
    requires HoldsDrain(s.waiters[k]) || (s.waiters[k].WaitWake? && PauseFree(s))
    ensures Helps(s, Wait(k))
  {
    WaitLowers(s, k);
  }

  lemma ResumeHelps(s: Pool, k: nat)
    requires |s.workers| == |s.busy| && PauseFree(s) && k < |s.pausers| && s.pausers[k].WakePaused?
    ensures Helps(s, Control(k, Resume))
  {
    ResumeAdvances(s, k);
  }

  /** If every worker sleeps or has exited, another thread can move. */
  lemma NoWorkerAwake(s: Pool) returns (a: Action)
    requires Finishing(s) && !s.destroyer.Gone?
    requires forall w :: 0 <= w < |s.workers| ==> s.workers[w].Exited? || Asleep(s.workers[w])
    ensures Helps(s, a)
  {
    SaneFlags(s);
    if DestroyerUnblocked(s) {
      a := Destroy;
      DestroyHelps(s);
    } else if s.destroyer.JoinAging? {
      a := Age(0);
      AgeAdvances(s);
    } else if k: nat :| s.destroyer.DrainLock? && k < |s.waiters| && HoldsDrain(s.waiters[k]) {
      a := Wait(k);
      WaitHelps(s, k);
    } else {
      a := BroadcastOwed(s);
    }
  }

  /** A destroyer blocked behind sleeping workers means that a pauser or a waiter owes a broadcast. */
  lemma BroadcastOwed(s: Pool) returns (a: Action)
    requires Finishing(s) && (s.destroyer.DrainAsleep? || s.destroyer.Join?) && !DestroyerUnblocked(s)
    requires forall w :: 0 <= w < |s.workers| ==> s.workers[w].Exited? || Asleep(s.workers[w])
    ensures Helps(s, a)
  {
    var w := SleeperLeft(s);
    SaneResume(s, w);
    if k: nat :| k < |s.pausers| && s.pausers[k].WakePaused? {
      a := Control(k, Resume);
      ResumeHelps(s, k);
    } else {
      var k: nat :| k < |s.waiters| && s.waiters[k].WaitWake?;
      a := Wait(k);
      WaitHelps(s, k);
    }
  }

  lemma SleeperLeft(s: Pool) returns (w: nat)
    requires Finishing(s) && (s.destroyer.DrainAsleep? || s.destroyer.Join?) && !DestroyerUnblocked(s)
    requires forall w :: 0 <= w < |s.workers| ==> s.workers[w].Exited? || Asleep(s.workers[w])
    ensures w < |s.workers| && s.workers[w].PauseAsleep? && !s.paused
  {
    SaneFlags(s);
    SaneNoneDozes(s);
    SomeWorkerLeft(s);
    w :| w < |s.workers| && !s.workers[w].Exited?;
  }

  lemma SomeWorkerLeft(s: Pool)
    requires Finishing(s) && (s.destroyer.DrainAsleep? || s.destroyer.Join?) && !DestroyerUnblocked(s)
    ensures exists w: nat :: w < |s.workers| && !s.workers[w].Exited?
  {
    if forall w :: 0 <= w < |s.workers| ==> s.workers[w].Exited? {
      SaneAccounts(s);
      CountZero(HoldsTask, s.workers);
      CountZero(Entered, s.submitters);
      assert false;
    }
  }

  lemma Advance(s: Pool) returns (a: Action)
    requires Finishing(s) && !s.destroyer.Gone?
    ensures Helps(s, a)
  {
    if w: nat :| w < |s.workers| && !s.workers[w].Exited? && !Asleep(s.workers[w]) {
      a := SomeWorkerAwake(s, w);
    } else {
      a := NoWorkerAwake(s);
    }
  }

  lemma FinishingStep(s: Pool, a: Action)
    requires Finishing(s) && !DivertsSignal(s, a)
    ensures Finishing(Step(s, a))
  {
    SaneStep(s, a);
    SaneAccounts(s);
    StepAfterSpin(s, a);
    UnstrandedStep(s, a);
    StepKeepsDrain(s, a);
  }

  /** From a finishing state some run without spurious wakeups ends destroy. */
  lemma {:induction false} Complete(s: Pool) returns (actions: seq<Action>)
    requires Finishing(s)
    ensures Run(s, actions).destroyer.Gone? && NoSpurious(actions)
    decreases Distance(s)
  {
    if s.destroyer.Gone? {
      actions := [];
    } else {
      var a := Advance(s);
      FinishingStep(s, a);
      var rest := Complete(Step(s, a));
      RunAppend(s, a, rest);
      actions := [a] + rest;
    }
  }

  // ---------- a destroyer whose wakeup was lost ----------

  /** The destroyer sleeps on a drained pool and no worker owes a signal. */
  ghost predicate Overlooked(s: Pool)
  {
    PastSpin(s.destroyer) && !DrainNotLost(s)
  }

  lemma OverlookedStep(s: Pool, a: Action)
    requires Sane(s) && Overlooked(s) && !Spurious(a)
    ensures Overlooked(Step(s, a))
  {
    SaneAccounts(s);
    StepAfterSpin(s, a);
    if a.Work? && a.w < |s.workers| && s.workers[a.w].Finish? {
      CountPositive(HoldsTask, s.workers, a.w);
      assert false;
    }
    assert forall v :: 0 <= v < |s.workers| ==> !s.workers[v].DrainSignal?;
    assert forall v :: 0 <= v < |s.workers| ==> !Step(s, a).workers[v].DrainSignal?;
  }

  lemma {:induction false} OverlookedForever(s: Pool, actions: seq<Action>)
    requires Sane(s) && Overlooked(s) && NoSpurious(actions)
    ensures Overlooked(Run(s, actions))
  {
    if actions != [] {
      var last := |actions| - 1;
      OverlookedForever(s, actions[..last]);
      SaneRun(s, actions[..last]);
      OverlookedStep(Run(s, actions[..last]), actions[last]);
    }
  }

  /** One spurious wakeup repairs a lost one. */
  lemma WakeDestroyerUp(s: Pool)
    requires Sane(s) && PastSpin(s.destroyer) && !Stranded(s) && s.destroyer.DrainAsleep?
    ensures Finishing(Step(s, Happen(SpuriousDestroyer)))
  {
    SaneStep(s, Happen(SpuriousDestroyer));
  }

  lemma {:induction false} CompleteFromAny(s: Pool) returns (actions: seq<Action>)
    requires Sane(s) && PastSpin(s.destroyer) && !Stranded(s)
    ensures Run(s, actions).destroyer.Gone?
    decreases s.destroyer.DrainSleep?
  {
    if DrainNotLost(s) {
      actions := Complete(s);
    } else if s.destroyer.DrainAsleep? {
      WakeDestroyerUp(s);
      var rest := Complete(Step(s, Happen(SpuriousDestroyer)));
      RunAppend(s, Happen(SpuriousDestroyer), rest);
      actions := [Happen(SpuriousDestroyer)] + rest;
    } else {
      SaneStep(s, Destroy);
      UnstrandedStep(s, Destroy);
      var rest := CompleteFromAny(Step(s, Destroy));
      RunAppend(s, Destroy, rest);
      actions := [Destroy] + rest;
    }
  }

  /**
   * Past its spin, destroy can still finish exactly when the queue is empty or some worker has not
   * exited.
   */
  lemma DestroyFinishesIff(s: Pool)
    requires Reachable(s) && PastSpin(s.destroyer)
    ensures (exists actions :: Run(s, actions).destroyer.Gone?) <==>
            Size(s.lanes) == 0 || exists w :: 0 <= w < |s.workers| && !s.workers[w].Exited?
  {
    ReachableSane(s);
    if Stranded(s) {
      forall actions ensures !Run(s, actions).destroyer.Gone? {
        StrandedNeverEnds(s, actions);
      }
    } else {
      var actions := CompleteFromAny(s);
    }
  }

  /**
   * Without spurious wakeups it can finish exactly when, besides, it does not sleep on a drained pool
   * to which no worker owes a signal.
   */
  lemma DestroyFinishesQuietlyIff(s: Pool)
    requires Reachable(s) && PastSpin(s.destroyer)
    ensures (exists actions :: NoSpurious(actions) && Run(s, actions).destroyer.Gone?) <==>
            && (Size(s.lanes) == 0 || exists w :: 0 <= w < |s.workers| && !s.workers[w].Exited?)
            && (DestroyerDozes(s.destroyer) && s.total <= 0 ==>
                  exists w :: 0 <= w < |s.workers| && s.workers[w].DrainSignal?)
  {
    ReachableSane(s);
    if Stranded(s) {
      forall actions ensures !Run(s, actions).destroyer.Gone? {
        StrandedNeverEnds(s, actions);
      }
    } else if Overlooked(s) {
      forall actions | NoSpurious(actions) ensures !Run(s, actions).destroyer.Gone? {
        OverlookedForever(s, actions);
      }
    } else {
      var actions := Complete(s);
    }
  }

  /**
   * The ordinary end of a pool: once every wait has returned and none follows, destroy can finish
   * without spurious wakeups from wherever it has got to, unless a task is stranded.
   */
  lemma DestroyFinishesAfterWaits(s: Pool, before: seq<Action>)
    requires Reachable(s) && !DestroyerDozes(s.destroyer) && WaitsOver(s) && NoWait(before)
    requires PastSpin(Run(s, before).destroyer)
    ensures var e := Run(s, before);
            (exists actions :: NoSpurious(actions) && Run(e, actions).destroyer.Gone?) <==>
            Size(e.lanes) == 0 || exists w :: 0 <= w < |e.workers| && !e.workers[w].Exited?
  {
    NoLostDrainAfterWaits(s, before);
    ReachableRun(s, before);
    DestroyFinishesQuietlyIff(Run(s, before));
  }

  // ---------- a stranded task exists ----------

  /** A submit passes the shutdown check just before destroy raises the flag; the worker exits. */
  lemma WorkerGoneFirst() returns (s: Pool)
    ensures Played(s, false)
    ensures s == Init(1, 1, 0, 0).(submitters := [ReadCap(LOW)], inFlight := 1, workers := [Exited],
                                   shutdown := true, destroyer := ClearPause)
  {
    s := Init(1, 1, 0, 0);
    PlayBegins(0, false);
    s := SubmitStarts(s, false);
    GoDestroy(s, false);
    s := DestroyStep(s);
    s := WorkerFindsNothing(s, false);
    s := WorkerMoves(s, false);
  }

  /** The submit then completes and the spin ends. */
  lemma TaskLeftBehind() returns (s: Pool)
    ensures Played(s, false) && s.destroyer == WakeQueueAll && s.workers == [Exited]
    ensures s.lanes == [[0], [], []] && s.executed == [] && s.returned == {0}
  {
    s := WorkerGoneFirst();
    s := SubmitEnters(s, false);
    s := SubmitPushes(s, false);
    s := SubmitReturns(s, false);
    s := SpinEnds(s);
  }

  /**
   * The pool can strand a task: with one worker, a submit that raced with destroy returns an id
   * whose task no continuation ever executes, and destroy never returns.
   */
  lemma DestroyCanHang() returns (s: Pool)
    ensures Played(s, false) && Reachable(s) && PastSpin(s.destroyer) && Stranded(s) && s.returned == {0}
    ensures forall actions :: 0 !in Run(s, actions).executed && !Run(s, actions).destroyer.Gone?
  {
    s := TaskLeftBehind();
    PlayedReachable(s, false);
    ReachableSane(s);
    forall actions ensures 0 !in Run(s, actions).executed && !Run(s, actions).destroyer.Gone? {
      StrandedNeverEnds(s, actions);
      StrandedNeverRuns(s, actions);
    }
  }

  lemma SpinEnds(s: Pool) returns (s': Pool)
    requires Played(s, false) && s.destroyer == ClearPause && s.inFlight == 0
    ensures Played(s', false) && s' == s.(destroyer := WakeQueueAll, paused := false)
  {
    GoDestroy(s, false);
    var s1 := DestroyStep(s);
    GoDestroy(s1, false);
    s' := DestroyStep(s1);
  }

  lemma {:induction false} StrandedNeverRuns(s: Pool, actions: seq<Action>)
    requires Sane(s) && PastSpin(s.destroyer) && Stranded(s)
    ensures Run(s, actions).executed == s.executed
  {
    if actions != [] {
      var last := |actions| - 1;
      StrandedNeverRuns(s, actions[..last]);
      StrandedForever(s, actions[..last]);
      ExitedRunNothing(Run(s, actions[..last]), actions[last]);
    }
  }

  lemma ExitedRunNothing(s: Pool, a: Action)
    requires |s.workers| == |s.busy| && forall w :: 0 <= w < |s.workers| ==> s.workers[w].Exited?
    ensures Step(s, a).executed == s.executed
  {
  }
}
