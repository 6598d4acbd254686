/** Which calls of destroy can strand a task when no worker ever wakes without a signal. */
module PoolQuietStranding {
  import opened PriorityLanes
  import opened Counting
  import opened ThreadPool
  import opened PoolAccounts
  import opened PoolStamps
  import opened PoolWakeups
  import opened PoolTheorems
  import opened PoolShutdown
  import opened PoolStranding
  import opened PoolReplay

  /** A task that the aging thread promotes is queued in its lane. */
  ghost predicate DueQueued(s: Pool)
    requires s.ager.AgeMove?
  {
    exists k :: 0 <= k < |s.lanes[s.ager.src]| && s.lanes[s.ager.src][k] in DueIds(s, s.ager.due)
  }

  ghost predicate DueTask(s: Pool, x: Submitter)
    requires s.ager.AgeMove?
  {
    x.TryPush? && x.p == s.ager.src && x.id in DueIds(s, s.ager.due)
  }

  /** Such a task is about to be pushed into that lane. */
  ghost predicate DueInWindow(s: Pool)
    requires s.ager.AgeMove?
  {
    exists i :: 0 <= i < |s.submitters| && DueTask(s, s.submitters[i])
  }

  /**
   * A broadcast of not_empty that can still come while a submit is in its window: from a pause that
   * has not woken the queue yet, or from an aging pass that is past its reading of shutdown.  The pass
   * broadcasts if a task that was old enough when it read the clock is in its lane, or gets there
   * and leaves another submit in its window.
   */
  ghost predicate BroadcastComing(s: Pool)
  {
    || (exists k :: 0 <= k < |s.pausers| && s.pausers[k].WakeQueue?)
    || s.ager.AgeCast?
    || (s.ager.AgeMove? && s.ager.src < HIGH &&
        (DueQueued(s) || (Count(InWindow, s.submitters) >= 2 && DueInWindow(s))))
  }

  // ---------- enough sleepers guard the queue ----------

  ghost predicate Guarded(s: Pool)
  {
    && s.shutdown
    && (Count(InWindow, s.submitters) > 0 ==> !SignalsSuffice(s) && !BroadcastComing(s))
    && (Size(s.lanes) > 0 ==> exists w :: 0 <= w < |s.workers| && !s.workers[w].Exited?)
  }

  lemma SubmitKeepsSignals(s: Pool, i: nat, p: Priority, wake: nat)
    requires i < |s.submitters| && s.shutdown && !SignalsSuffice(s)
    ensures !SignalsSuffice(SubmitStep(s, i, p, wake))
    ensures Count(InWindow, SubmitStep(s, i, p, wake).submitters) ==
            Count(InWindow, s.submitters) -
            (if InWindow(s.submitters[i]) && !InWindow(SubmitNext(s, i, p, wake)) then 1 else 0)
  {
    var x' := SubmitNext(s, i, p, wake);
    CountUpdate(InWindow, s.submitters, i, x');
    CountUpdate(OwesSignal, s.submitters, i, x');
    if s.submitters[i].Signal? && Sleeps(s.workers, wake) {
      CountUpdate(Dozing, s.workers, wake, PopLock);
    }
  }

  /** The due tasks of a pass are fixed when it has read the clock. */
  lemma SubmitKeepsDue(s: Pool, i: nat, p: Priority, wake: nat)
    requires i < |s.submitters| && StampSound(s) && s.ager.AgeMove?
    ensures var s' := SubmitStep(s, i, p, wake);
            && s'.ager == s.ager && DueIds(s', s.ager.due) == DueIds(s, s.ager.due)
            && (DueTask(s', s'.submitters[i]) ==> s'.submitters[i] == s.submitters[i])
  {
  }

  lemma SubmitKeepsDueQueued(s: Pool, i: nat, p: Priority, wake: nat)
    requires i < |s.submitters| && StampSound(s) && s.ager.AgeMove? && !DueQueued(s) && !DueTask(s, s.submitters[i])
    ensures !DueQueued(SubmitStep(s, i, p, wake))
  {
    SubmitKeepsDue(s, i, p, wake);
    var s' := SubmitStep(s, i, p, wake);
    var lane, lane' := s.lanes[s.ager.src], s'.lanes[s.ager.src];
    assert forall k :: 0 <= k < |lane| ==> lane[k] !in DueIds(s, s.ager.due) && lane'[k] == lane[k];
  }

  lemma SubmitKeepsDueWindow(s: Pool, i: nat, p: Priority, wake: nat)
    requires i < |s.submitters| && StampSound(s) && s.ager.AgeMove? && !DueInWindow(s)
    ensures !DueInWindow(SubmitStep(s, i, p, wake))
  {
    SubmitKeepsDue(s, i, p, wake);
    var s' := SubmitStep(s, i, p, wake);
    forall j | 0 <= j < |s.submitters| ensures !DueTask(s', s'.submitters[j]) {
      assert !DueTask(s, s.submitters[j]);
    }
  }

  lemma SubmitKeepsSleepers(s: Pool, i: nat, p: Priority, wake: nat)
    requires Sane(s) && Guarded(s) && i < |s.submitters| && Count(InWindow, s.submitters) > 0
    ensures var s' := SubmitStep(s, i, p, wake);
            Count(InWindow, s'.submitters) > 0 ==> !SignalsSuffice(s') && !BroadcastComing(s')
  {
    var s' := SubmitStep(s, i, p, wake);
    SaneStamps(s);
    SubmitKeepsSignals(s, i, p, wake);
    if s.ager.AgeMove? && s.ager.src < HIGH && Count(InWindow, s'.submitters) > 0 {
      if Count(InWindow, s.submitters) >= 2 {
        assert !DueTask(s, s.submitters[i]);
        SubmitKeepsDueWindow(s, i, p, wake);
        SubmitKeepsDueQueued(s, i, p, wake);
      } else {
        SubmitKeepsDue(s, i, p, wake);
        LaneKept(s, i, p, wake);
      }
    }
  }

  /** A submit that stays in its window pushes nothing. */
  lemma LaneKept(s: Pool, i: nat, p: Priority, wake: nat)
    requires i < |s.submitters| && StampSound(s) && s.ager.AgeMove? && !DueQueued(s)
    requires InWindow(s.submitters[i]) ==> InWindow(SubmitNext(s, i, p, wake))
    ensures !DueQueued(SubmitStep(s, i, p, wake))
  {
    SubmitKeepsDue(s, i, p, wake);
    assert SubmitStep(s, i, p, wake).lanes == s.lanes;
  }

  lemma RestHolds(q: Lanes<nat>, src: Priority, k: nat)
    requires Size(q) > 0 && k < |Rest(q)[src]|
    ensures Rest(q)[src][k] in q[src]
  {
  }

  lemma WorkKeepsSleepers(s: Pool, w: nat, wake: nat)
    requires Sane(s) && Guarded(s) && w < |s.workers| && Count(InWindow, s.submitters) > 0
    ensures var s' := WorkStep(s, w, wake); !SignalsSuffice(s') && !BroadcastComing(s')
  {
    var s' := WorkStep(s, w, wake);
    WorkKeepsDozing(s, w, wake);
    if s.ager.AgeMove? && DueQueued(s') {
      var k: nat :| k < |s'.lanes[s.ager.src]| && s'.lanes[s.ager.src][k] in DueIds(s, s.ager.due);
      if s'.lanes != s.lanes {
        RestHolds(s.lanes, s.ager.src, k);
      }
      assert DueQueued(s);
    }
  }

  /** The destroyer stays in its spin as long as a window is open. */
  lemma DestroyKeepsSleepers(s: Pool)
    requires Sane(s) && Guarded(s) && Count(InWindow, s.submitters) > 0
    ensures !SignalsSuffice(DestroyStep(s)) && !BroadcastComing(DestroyStep(s))
  {
    CountZero(InWindow, s.submitters);
    var i: nat :| i < |s.submitters| && InWindow(s.submitters[i]);
    SaneAccounts(s);
    CountPositive(Registered, s.submitters, i);
    assert !Outside(s.submitters[i]);
    assert DestroyStep(s).workers == s.workers;
  }

  lemma AgeKeepsSleepers(s: Pool, n: nat)
    requires Sane(s) && Guarded(s) && Count(InWindow, s.submitters) > 0
    ensures !SignalsSuffice(AgeStep(s, n)) && !BroadcastComing(AgeStep(s, n))
  {
    if s.ager.AgeMove? && s.ager.src < HIGH && Promotable(s) > 0 {
      assert s.lanes[s.ager.src][0] in DueIds(s, s.ager.due);
      assert DueQueued(s);
    }
    assert AgeStep(s, n).workers == s.workers;
  }

  lemma EventKeepsSleepers(s: Pool, e: Event)
    requires Sane(s) && Guarded(s) && Count(InWindow, s.submitters) > 0 && !Spurious(Happen(e))
    ensures !SignalsSuffice(EventStep(s, e)) && !BroadcastComing(EventStep(s, e))
  {
    BroadcastsKeepDozing(s.workers);
  }

  lemma OtherKeepsSleepers(s: Pool, a: Action)
    requires Sane(s) && Guarded(s) && Count(InWindow, s.submitters) > 0
    requires a.Control? || a.Wait?
    ensures !SignalsSuffice(Step(s, a)) && !BroadcastComing(Step(s, a))
  {
    SaneFlags(s);
    BroadcastsKeepDozing(s.workers);
  }

  lemma GuardedKeepsSleepers(s: Pool, a: Action)
    requires Sane(s) && Guarded(s) && !Spurious(a)
    ensures var s' := Step(s, a);
            Count(InWindow, s'.submitters) > 0 ==> !SignalsSuffice(s') && !BroadcastComing(s')
  {
    if Count(InWindow, s.submitters) == 0 {
      WindowCounted(s);
      WindowStaysClosed(s, a);
      WindowCounted(Step(s, a));
    } else {
      match a
      case Submit(i, p, wake) => if i < |s.submitters| { SubmitKeepsSleepers(s, i, p, wake); }
      case Work(w, wake) => if w < |s.workers| { WorkKeepsSleepers(s, w, wake); }
      case Age(n) => AgeKeepsSleepers(s, n);
      case Destroy => DestroyKeepsSleepers(s);
      case Happen(e) => EventKeepsSleepers(s, e);
      case _ => OtherKeepsSleepers(s, a);
    }
  }

  lemma GuardedKeepsWorker(s: Pool, a: Action)
    requires Sane(s) && Guarded(s) && !Spurious(a)
    ensures var s' := Step(s, a);
            Size(s'.lanes) > 0 ==> exists w :: 0 <= w < |s'.workers| && !s'.workers[w].Exited?
  {
    var s' := Step(s, a);
    SaneHeld(s);
    if Size(s.lanes) > 0 {
      var w: nat :| w < |s.workers| && !s.workers[w].Exited?;
      WorkerStays(s, a, w);
    } else if Size(s'.lanes) > 0 {
      OnlyPushFills(s, a);
      CountPositive(InWindow, s.submitters, a.i);
      CountZero(Dozing, s.workers);
      var w: nat :| w < |s.workers| && Dozing(s.workers[w]);
      assert !s'.workers[w].Exited?;
    }
  }

  /** Only a submit that pushes makes an empty queue non-empty. */
  lemma OnlyPushFills(s: Pool, a: Action)
    requires Sane(s) && Size(s.lanes) == 0 && Size(Step(s, a).lanes) > 0
    ensures a.Submit? && a.i < |s.submitters| && s.submitters[a.i].TryPush?
  {
  }

  lemma GuardedStep(s: Pool, a: Action)
    requires Sane(s) && Guarded(s) && !Spurious(a)
    ensures Guarded(Step(s, a))
  {
    SaneFlags(s);
    SaneStep(s, a);
    SaneFlags(Step(s, a));
    StaysCalled(s, a);
    GuardedKeepsSleepers(s, a);
    GuardedKeepsWorker(s, a);
  }

  lemma StaysCalled(s: Pool, a: Action)
    requires |s.workers| == |s.busy| && !s.destroyer.NotCalled?
    ensures !Step(s, a).destroyer.NotCalled?
  {
  }

  lemma {:induction false} GuardedRun(s: Pool, actions: seq<Action>)
    requires Sane(s) && Guarded(s) && NoSpurious(actions)
    ensures Guarded(Run(s, actions))
  {
    if actions != [] {
      var last := |actions| - 1;
      var e := Run(s, actions[..last]);
      GuardedRun(s, actions[..last]);
      SaneRun(s, actions[..last]);
      GuardedStep(e, actions[last]);
    }
  }

  lemma GuardedAtCall(s: Pool)
    requires Reachable(s) && s.destroyer.NotCalled? && |s.workers| > 0
    requires WindowOpen(s) ==> !SignalsSuffice(s) && !BroadcastComing(s)
    ensures !CanStrandQuietly(DestroyStep(s))
  {
    ReachableSane(s);
    SaneFlags(s);
    SaneExits(s);
    var s' := DestroyStep(s);
    assert s' == Step(s, Destroy);
    SaneStep(s, Destroy);
    WindowCounted(s);
    assert !s'.workers[0].Exited?;
    assert Guarded(s');
    forall actions | NoSpurious(actions) ensures !Stranded(Run(s', actions)) {
      GuardedRun(s', actions);
    }
  }

  // ---------- a broadcast wakes all sleepers ----------

  /** The worker that holds the queue mutex, if any, lets go of it. */
  lemma FreeQueue(s: Pool) returns (actions: seq<Action>)
    requires Spinning(s)
    ensures NoSpurious(actions)
    ensures var e := Run(s, actions);
            && Spinning(e) && QueueFree(e) && e.submitters == s.submitters && e.lanes == s.lanes
            && e.ager == s.ager && e.pausers == s.pausers
  {
    if w: nat :| w < |s.workers| && HoldsQueue(s.workers[w]) {
      var a := Work(w, 0);
      assert Step(s, a) == s.(workers := s.workers[w := WorkNext(s, w, 0)]);
      SaneStep(s, a);
      SaneMutexes(s);
      forall v: nat | v < |s.workers| ensures !HoldsQueue(Step(s, a).workers[v]) {
        assert WorkersApart(s, v, w);
      }
      actions := [a] + [];
      RunAppend(s, a, []);
    } else {
      actions := [];
    }
  }

  /** After a broadcast with the mutex free nobody dozes. */
  lemma NobodyDozes(s: Pool)
    requires Spinning(s) && QueueFree(s)
    ensures Count(Dozing, BroadcastQueue(s.workers)) == 0
  {
    CountZero(Dozing, BroadcastQueue(s.workers));
  }

  lemma BroadcastStrands(s: Pool, a: Action)
    requires Spinning(s) && QueueFree(s) && Spinning(Step(s, a)) && !a.Happen?
    requires Step(s, a).workers == BroadcastQueue(s.workers)
    ensures CanStrandQuietly(s)
  {
    var s' := Step(s, a);
    NobodyDozes(s);
    WindowCounted(s');
    OpenWindowStrands(s');
    RunAppend(s, a, []);
    assert Run(s, [a] + []) == s';
    StrandsLater(s, [a] + []);
  }

  lemma PauserStrands(s: Pool, k: nat)
    requires Spinning(s) && k < |s.pausers| && s.pausers[k].WakeQueue?
    ensures CanStrandQuietly(s)
  {
    var free := FreeQueue(s);
    var s1 := Run(s, free);
    SaneStep(s1, Control(k, Resume));
    BroadcastStrands(s1, Control(k, Resume));
    StrandsLater(s, free);
  }

  lemma CastStrands(s: Pool)
    requires Spinning(s) && s.ager.AgeCast?
    ensures CanStrandQuietly(s)
  {
    var free := FreeQueue(s);
    var s1 := Run(s, free);
    SaneStep(s1, Age(0));
    BroadcastStrands(s1, Age(0));
    StrandsLater(s, free);
  }

  lemma MoveStrands(s: Pool)
    requires Spinning(s) && s.ager.AgeMove? && s.ager.src < HIGH && |s.lanes[s.ager.src]| > 0
    requires s.lanes[s.ager.src][0] in DueIds(s, s.ager.due)
    ensures CanStrandQuietly(s)
  {
    assert QueueFree(s) by {
      SaneHeld(s);
      assert Size(s.lanes) > 0;
    }
    SaneStep(s, Age(0));
    CastStrands(Step(s, Age(0)));
    RunAppend(s, Age(0), []);
    assert Run(s, [Age(0)] + []) == Step(s, Age(0));
    StrandsLater(s, [Age(0)] + []);
  }

  lemma AllExitedStrands(s: Pool)
    requires Spinning(s) && Settled(s) && !AsleepOnQueue(s.workers)
    ensures CanStrandQuietly(s)
  {
    AbandonedStrands(s);
  }

  /** A due task behind others stays in its lane until it is at the head. */
  lemma RestKeepsDue(q: Lanes<nat>, src: Priority, due: seq<nat>, k: nat)
    requires Size(q) > 0 && k < |q[src]| && q[src][k] in due && q[src][0] !in due
    ensures exists j :: 0 <= j < |Rest(q)[src]| && Rest(q)[src][j] in due
  {
    if Top(q) == src {
      assert Rest(q)[src][k - 1] == q[src][k];
    } else {
      assert Rest(q)[src][k] == q[src][k];
    }
  }

  /** Workers take the tasks ahead of a due one until the pass finds it at the head. */
  lemma {:induction false} DueQueuedStrands(s: Pool)
    requires Spinning(s) && s.ager.AgeMove? && s.ager.src < HIGH && DueQueued(s)
    ensures CanStrandQuietly(s)
    decreases WorkLeft(s), PauserStage(s)
  {
    if s.lanes[s.ager.src][0] in DueIds(s, s.ager.due) {
      MoveStrands(s);
    } else if !Settled(s) {
      var a := SettleStep(s);
      SettlesSpinning(s, a);
      DueStays(s, a);
      DueQueuedStrands(Step(s, a));
      RunAppend(s, a, []);
      assert Run(s, [a] + []) == Step(s, a);
      StrandsLater(s, [a] + []);
    } else if AsleepOnQueue(s.workers) {
      SettledIsDeserted(s);
      assert false;
    } else {
      AllExitedStrands(s);
    }
  }

  lemma DueStays(s: Pool, a: Action)
    requires Spinning(s) && s.ager.AgeMove? && DueQueued(s) && s.lanes[s.ager.src][0] !in DueIds(s, s.ager.due)
    requires Settles(s, a)
    ensures Step(s, a).ager == s.ager && DueQueued(Step(s, a))
  {
    var k: nat :| k < |s.lanes[s.ager.src]| && s.lanes[s.ager.src][k] in DueIds(s, s.ager.due);
    if Step(s, a).lanes != s.lanes {
      RestKeepsDue(s.lanes, s.ager.src, DueIds(s, s.ager.due), k);
    }
  }

  /** One submit puts its due task into the lane of the pass. */
  lemma PushDue(s: Pool, i: nat)
    requires Spinning(s) && s.ager.AgeMove? && Deserted(s) && Count(InWindow, s.submitters) >= 2
    requires i < |s.submitters| && DueTask(s, s.submitters[i])
    ensures var s' := SubmitStep(s, i, LOW, 0);
            Spinning(s') && s'.ager == s.ager && DueQueued(s')
  {
    var s' := SubmitStep(s, i, LOW, 0);
    SaneCaps(s);
    SaneStep(s, Submit(i, LOW, 0));
    WindowStep(s, i);
    PushCounts(s, s', i);
    WindowCounted(s');
    var lane := s'.lanes[s.ager.src];
    assert lane[|lane| - 1] == s.submitters[i].id;
  }

  /** With two windows one of them gives the aging pass a task to promote. */
  lemma FeedAgingStrands(s: Pool)
    requires Spinning(s) && s.ager.AgeMove? && s.ager.src < HIGH && Count(InWindow, s.submitters) >= 2
    requires DueInWindow(s)
    ensures CanStrandQuietly(s)
  {
    var i: nat :| i < |s.submitters| && DueTask(s, s.submitters[i]);
    var settle := Settle(s);
    var s1 := Run(s, settle);
    assert s1.submitters[i] == s.submitters[i];
    if AsleepOnQueue(s1.workers) {
      FeedSettledStrands(s1, i);
    } else {
      AllExitedStrands(s1);
    }
    StrandsLater(s, settle);
  }

  lemma FeedSettledStrands(s: Pool, i: nat)
    requires Spinning(s) && Settled(s) && AsleepOnQueue(s.workers) && Count(InWindow, s.submitters) >= 2
    requires s.ager.AgeMove? && s.ager.src < HIGH && i < |s.submitters| && DueTask(s, s.submitters[i])
    ensures CanStrandQuietly(s)
  {
    SettledIsDeserted(s);
    PushDue(s, i);
    var a := Submit(i, LOW, 0);
    assert Step(s, a) == SubmitStep(s, i, LOW, 0);
    DueQueuedStrands(Step(s, a));
    RunAppend(s, a, []);
    assert Run(s, [a] + []) == Step(s, a);
    StrandsLater(s, [a] + []);
  }

  lemma ComingStrands(s: Pool)
    requires Spinning(s) && (SignalsSuffice(s) || BroadcastComing(s))
    ensures CanStrandQuietly(s)
  {
    if SignalsSuffice(s) {
      OpenWindowStrands(s);
    } else if k: nat :| k < |s.pausers| && s.pausers[k].WakeQueue? {
      PauserStrands(s, k);
    } else if s.ager.AgeCast? {
      CastStrands(s);
    } else if DueQueued(s) {
      DueQueuedStrands(s);
    } else {
      FeedAgingStrands(s);
    }
  }

  /**
   * Without spurious wakeups a call of destroy on a pool with a worker can strand a task exactly when
   * some submit is in its window, and either fewer workers doze on not_empty than there are submits
   * in the window or owing their signal, or a broadcast is still to come.
   */
  lemma DestroyStrandsQuietlyIff(s: Pool)
    requires Reachable(s) && s.destroyer.NotCalled? && |s.workers| > 0
    ensures CanStrandQuietly(DestroyStep(s)) <==>
            && WindowOpen(s)
            && (|| Count(Dozing, s.workers) < Count(InWindow, s.submitters) + Count(OwesSignal, s.submitters)
                || BroadcastComing(s))
  {
    if WindowOpen(s) && (SignalsSuffice(s) || BroadcastComing(s)) {
      SpinBegins(s);
      ComingStrands(Run(DestroyStep(s), [Destroy]));
      StrandsLater(DestroyStep(s), [Destroy]);
    } else {
      GuardedAtCall(s);
    }
  }

  /** The only worker falls asleep, and a submit passes the shutdown check. */
  lemma SleeperAndWindow() returns (s: Pool)
    ensures Played(s, false)
    ensures s == Init(1, 1, 0, 0).(workers := [PopAsleep], inFlight := 1, submitters := [ReadCap(LOW)])
  {
    s := Init(1, 1, 0, 0);
    PlayBegins(0, false);
    s := SubmitStarts(s, false);
    s := WorkerFindsNothing(s, false);
    s := WorkerFallsAsleep(s);
  }

  lemma WorkerFallsAsleep(s: Pool) returns (s': Pool)
    requires Played(s, false) && s.workers == [PopShutdown] && !s.shutdown
    ensures Played(s', false) && s' == s.(workers := [PopAsleep])
  {
    s' := WorkerMoves(s, false);
    assert s'.workers == [PopSleep];
    s' := WorkerMoves(s', false);
  }

  /**
   * The two conditions differ: a call of destroy that catches one submit in its window while the only
   * worker sleeps can strand the task, but only if the worker wakes for no reason.
   */
  lemma SleeperSavesTask() returns (s: Pool)
    ensures Reachable(s) && s.destroyer.NotCalled? && |s.workers| > 0
    ensures CanStrand(DestroyStep(s)) && !CanStrandQuietly(DestroyStep(s))
  {
    s := SleeperAndWindow();
    PlayedReachable(s, false);
    assert InWindow(s.submitters[0]);
    DestroyStrandsIff(s);
    DestroyStrandsQuietlyIff(s);
    CountPositive(Dozing, s.workers, 0);
    CountZero(OwesSignal, s.submitters);
  }
}
