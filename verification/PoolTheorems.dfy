/** What holds of every run of the pool, from any number of threads of each kind. */
module PoolTheorems {
  import opened PriorityLanes
  import opened Counting
  import opened ThreadPool
  import opened PoolAccounts
  import opened PoolTasks
  import opened PoolStamps
  import opened PoolWakeups
  import opened WorkerCount

  /** Two workers do not hold the queue mutex together, nor the pause mutex. */
  ghost predicate WorkersApart(s: Pool, v: nat, w: nat)
    requires v < |s.workers| && w < |s.workers|
  {
    v != w ==> !(HoldsQueue(s.workers[v]) && HoldsQueue(s.workers[w])) &&
               !(HoldsPause(s.workers[v]) && HoldsPause(s.workers[w]))
  }

  predicate DestroyerHoldsDrain(d: Destroyer)
  {
    d.DrainCheck? || d.DrainSleep? || d.DrainUnlock?
  }

  /** Two waiters do not hold the drain mutex together, nor a waiter and the destroyer. */
  ghost predicate WaitersApart(s: Pool, j: nat, k: nat)
    requires j < |s.waiters| && k < |s.waiters|
  {
    && (j != k ==> !(HoldsDrain(s.waiters[j]) && HoldsDrain(s.waiters[k])))
    && !(HoldsDrain(s.waiters[j]) && DestroyerHoldsDrain(s.destroyer))
  }

  /** Each mutex has at most one holder. */
  ghost predicate MutexesExclusive(s: Pool)
  {
    && (forall v: nat, w: nat :: v < |s.workers| && w < |s.workers| ==> WorkersApart(s, v, w))
    && (forall j: nat, k: nat :: j < |s.waiters| && k < |s.waiters| ==> WaitersApart(s, j, k))
  }

  /** Destroy has cleared the pause, and nobody pauses the pool again. */
  ghost predicate StaysResumed(s: Pool)
  {
    !s.destroyer.NotCalled? && !s.destroyer.ClearPause? ==> !s.paused
  }

  /** Workers exit only after shutdown was requested. */
  ghost predicate ExitsLate(s: Pool)
  {
    s.shutdown || forall w :: 0 <= w < |s.workers| ==> !s.workers[w].Exited?
  }

  /** A cap that a submit compares with is a real cap. */
  ghost predicate CapsReal(s: Pool)
  {
    forall i :: 0 <= i < |s.submitters| && s.submitters[i].CompareDepth? ==> s.submitters[i].cap > 0
  }

  /** A pool that nobody can pause has no worker asleep at the pause gate. */
  ghost predicate PauseNeedsPauser(s: Pool)
  {
    |s.pausers| == 0 ==> !s.paused && forall w :: 0 <= w < |s.workers| ==> !Paused(s.workers[w])
  }

  ghost predicate PoolInv(s: Pool)
  {
    && TaskInv(s) && WakeInv(s) && BusyExact(s) && MutexesExclusive(s)
    && StaysResumed(s) && ExitsLate(s) && CapsReal(s) && PauseNeedsPauser(s) && StampSound(s)
  }

  lemma StepKeepsCapsReal(s: Pool, a: Action)
    requires |s.workers| == |s.busy| && CapsReal(s)
    ensures CapsReal(Step(s, a))
  {
  }

  lemma StepKeepsPauser(s: Pool, a: Action)
    requires |s.workers| == |s.busy| && PauseNeedsPauser(s)
    ensures PauseNeedsPauser(Step(s, a))
  {
  }

  lemma StepKeepsExitsLate(s: Pool, a: Action)
    requires |s.workers| == |s.busy| && ExitsLate(s)
    ensures ExitsLate(Step(s, a))
  {
  }

  lemma StepKeepsResumed(s: Pool, a: Action)
    requires |s.workers| == |s.busy| && StaysResumed(s)
    ensures StaysResumed(Step(s, a))
  {
  }

  lemma WorkKeepsWorkersApart(s: Pool, u: nat, wake: nat, v: nat, w: nat)
    requires u < |s.workers| == |s.busy| && v < |s.workers| && w < |s.workers| && WorkersApart(s, v, w)
    ensures WorkersApart(WorkStep(s, u, wake), v, w)
  {
  }

  lemma SubmitKeepsWorkersApart(s: Pool, i: nat, p: Priority, wake: nat, v: nat, w: nat)
    requires i < |s.submitters| && v < |s.workers| && w < |s.workers| && WorkersApart(s, v, w)
    ensures WorkersApart(SubmitStep(s, i, p, wake), v, w)
  {
  }

  lemma AgeKeepsWorkersApart(s: Pool, n: nat, v: nat, w: nat)
    requires v < |s.workers| && w < |s.workers| && WorkersApart(s, v, w)
    ensures WorkersApart(AgeStep(s, n), v, w)
  {
  }

  lemma DestroyKeepsWorkersApart(s: Pool, v: nat, w: nat)
    requires v < |s.workers| && w < |s.workers| && WorkersApart(s, v, w)
    ensures WorkersApart(DestroyStep(s), v, w)
  {
  }

  lemma PauseKeepsWorkersApart(s: Pool, k: nat, c: Command, v: nat, w: nat)
    requires k < |s.pausers| && v < |s.workers| && w < |s.workers| && WorkersApart(s, v, w)
    ensures WorkersApart(PauseStep(s, k, c), v, w)
  {
  }

  lemma WaitKeepsWorkersApart(s: Pool, k: nat, v: nat, w: nat)
    requires k < |s.waiters| && v < |s.workers| && w < |s.workers| && WorkersApart(s, v, w)
    ensures WorkersApart(WaitStep(s, k), v, w)
  {
  }

  lemma EventKeepsWorkersApart(s: Pool, e: Event, v: nat, w: nat)
    requires v < |s.workers| && w < |s.workers| && WorkersApart(s, v, w)
    ensures WorkersApart(EventStep(s, e), v, w)
  {
  }

  lemma StepKeepsWorkersApart(s: Pool, a: Action, v: nat, w: nat)
    requires |s.workers| == |s.busy| && v < |s.workers| && w < |s.workers| && WorkersApart(s, v, w)
    ensures WorkersApart(Step(s, a), v, w)
  {
    match a
    case Work(u, wake) => if u < |s.workers| { WorkKeepsWorkersApart(s, u, wake, v, w); }
    case Submit(i, p, wake) => if i < |s.submitters| { SubmitKeepsWorkersApart(s, i, p, wake, v, w); }
    case Age(n) => AgeKeepsWorkersApart(s, n, v, w);
    case Destroy => DestroyKeepsWorkersApart(s, v, w);
    case Control(k, c) => if k < |s.pausers| { PauseKeepsWorkersApart(s, k, c, v, w); }
    case Happen(e) => EventKeepsWorkersApart(s, e, v, w);
    case Wait(k) => if k < |s.waiters| { WaitKeepsWorkersApart(s, k, v, w); }
  }

  lemma WaitKeepsWaitersApart(s: Pool, i: nat, j: nat, k: nat)
    requires i < |s.waiters| && j < |s.waiters| && k < |s.waiters| && WaitersApart(s, j, k)
    ensures WaitersApart(WaitStep(s, i), j, k)
  {
  }

  lemma WorkKeepsWaitersApart(s: Pool, w: nat, wake: nat, j: nat, k: nat)
    requires w < |s.workers| == |s.busy| && j < |s.waiters| && k < |s.waiters| && WaitersApart(s, j, k)
    ensures WaitersApart(WorkStep(s, w, wake), j, k)
  {
  }

  lemma EventKeepsWaitersApart(s: Pool, e: Event, j: nat, k: nat)
    requires j < |s.waiters| && k < |s.waiters| && WaitersApart(s, j, k)
    ensures WaitersApart(EventStep(s, e), j, k)
  {
  }

  lemma StepKeepsWaitersApart(s: Pool, a: Action, j: nat, k: nat)
    requires |s.workers| == |s.busy| && j < |s.waiters| && k < |s.waiters| && WaitersApart(s, j, k)
    ensures WaitersApart(Step(s, a), j, k)
  {
    match a
    case Wait(i) => if i < |s.waiters| { WaitKeepsWaitersApart(s, i, j, k); }
    case Work(w, wake) => if w < |s.workers| { WorkKeepsWaitersApart(s, w, wake, j, k); }
    case Destroy => assert DestroyStep(s).waiters == s.waiters;
    case Happen(e) => EventKeepsWaitersApart(s, e, j, k);
    case Submit(i, p, wake) =>
      if i < |s.submitters| { assert SubmitStep(s, i, p, wake).waiters == s.waiters; }
    case Control(i, c) => if i < |s.pausers| { assert PauseStep(s, i, c).waiters == s.waiters; }
    case Age(n) => assert AgeStep(s, n).waiters == s.waiters;
  }

  lemma StepKeepsMutexes(s: Pool, a: Action)
    requires |s.workers| == |s.busy| && MutexesExclusive(s)
    ensures MutexesExclusive(Step(s, a))
  {
    forall v: nat, w: nat | v < |s.workers| && w < |s.workers| ensures WorkersApart(Step(s, a), v, w) {
      StepKeepsWorkersApart(s, a, v, w);
    }
    forall j: nat, k: nat | j < |s.waiters| && k < |s.waiters| ensures WaitersApart(Step(s, a), j, k) {
      StepKeepsWaitersApart(s, a, j, k);
    }
  }

  lemma StepKeepsPoolInv(s: Pool, a: Action)
    requires PoolInv(s)
    ensures PoolInv(Step(s, a))
  {
    StepKeepsTaskInv(s, a);
    StepKeepsWakeInv(s, a);
    StepKeepsBusy(s, a);
    StepKeepsMutexes(s, a);
    StepKeepsResumed(s, a);
    StepKeepsExitsLate(s, a);
    StepKeepsCapsReal(s, a);
    StepKeepsPauser(s, a);
    StepKeepsStamps(s, a);
  }

  lemma InitPoolInv(submitters: nat, workers: nat, pausers: nat, waiters: nat)
    ensures PoolInv(Init(submitters, workers, pausers, waiters))
  {
    var s := Init(submitters, workers, pausers, waiters);
    InitAccounts(submitters, workers, pausers, waiters);
    forall id: nat ensures TaskConserved(s, id) && IdUnique(s, id) {
      CountZero(InHand(id), s.workers);
      CountZero(Carries(id), s.submitters);
    }
  }

  lemma {:induction false} RunKeepsPoolInv(s: Pool, actions: seq<Action>)
    requires PoolInv(s)
    ensures PoolInv(Run(s, actions))
  {
    if actions != [] {
      var last := |actions| - 1;
      RunKeepsPoolInv(s, actions[..last]);
      StepKeepsPoolInv(Run(s, actions[..last]), actions[last]);
    }
  }

  /** A state that some run from some initial pool reaches. */
  ghost predicate Reachable(s: Pool)
  {
    |s.workers| == |s.busy| &&
    exists submitters: nat, workers: nat, pausers: nat, waiters: nat, actions: seq<Action> ::
      s == Run(Init(submitters, workers, pausers, waiters), actions)
  }

  lemma ReachableInv(s: Pool)
    requires Reachable(s)
    ensures PoolInv(s)
  {
    var submitters: nat, workers: nat, pausers: nat, waiters: nat, actions: seq<Action> :|
      s == Run(Init(submitters, workers, pausers, waiters), actions);
    InitPoolInv(submitters, workers, pausers, waiters);
    RunKeepsPoolInv(Init(submitters, workers, pausers, waiters), actions);
  }

  predicate Key(k: nat)
  {
    true
  }

  /** The invariant in a form that stays folded until Open takes it out. */
  ghost predicate Sane(s: Pool)
  {
    |s.workers| == |s.busy| && forall k: nat :: Key(k) ==> PoolInv(s)
  }

  lemma Open(s: Pool)
    requires Sane(s)
    ensures PoolInv(s)
  {
    assert Key(0);
  }

  lemma SaneAccounts(s: Pool)
    requires Sane(s)
    ensures AccountInv(s)
  {
    Open(s);
  }

  lemma SaneTask(s: Pool, id: nat)
    requires Sane(s)
    ensures TaskConserved(s, id) && IdUnique(s, id)
  {
    Open(s);
  }

  lemma SaneReturned(s: Pool)
    requires Sane(s)
    ensures ReturnedPushed(s)
  {
    Open(s);
  }

  lemma SaneHeld(s: Pool)
    requires Sane(s)
    ensures HeldIsEmpty(s)
  {
    Open(s);
  }

  lemma SaneAttended(s: Pool)
    requires Sane(s)
    ensures TasksAttended(s)
  {
    Open(s);
  }

  lemma SaneNoneDozes(s: Pool)
    requires Sane(s)
    ensures NoneDozes(s)
  {
    Open(s);
  }

  lemma SaneCaps(s: Pool)
    requires Sane(s)
    ensures CapsReal(s)
  {
    Open(s);
  }

  lemma SaneStamps(s: Pool)
    requires Sane(s)
    ensures StampSound(s)
  {
    Open(s);
  }

  lemma SanePauser(s: Pool)
    requires Sane(s)
    ensures PauseNeedsPauser(s)
  {
    Open(s);
  }

  lemma SaneMutexes(s: Pool)
    requires Sane(s)
    ensures MutexesExclusive(s)
  {
    Open(s);
  }

  lemma SaneExits(s: Pool)
    requires Sane(s)
    ensures ExitsLate(s)
  {
    Open(s);
  }

  lemma SaneResume(s: Pool, w: nat)
    requires Sane(s) && w < |s.workers|
    ensures ResumeNotLost(s, w)
  {
    Open(s);
  }

  lemma SaneFlags(s: Pool)
    requires Sane(s)
    ensures s.shutdown <==> !s.destroyer.NotCalled?
    ensures StaysResumed(s)
  {
    Open(s);
  }

  lemma SaneStep(s: Pool, a: Action)
    requires Sane(s)
    ensures Sane(Step(s, a))
  {
    Open(s);
    StepKeepsPoolInv(s, a);
  }

  lemma SaneRun(s: Pool, actions: seq<Action>)
    requires Sane(s)
    ensures Sane(Run(s, actions))
  {
    Open(s);
    RunKeepsPoolInv(s, actions);
  }

  lemma InitSane(submitters: nat, workers: nat, pausers: nat, waiters: nat)
    ensures Sane(Init(submitters, workers, pausers, waiters))
  {
    InitPoolInv(submitters, workers, pausers, waiters);
  }

  lemma ReachableSane(s: Pool)
    requires Reachable(s)
    ensures Sane(s)
  {
    ReachableInv(s);
  }

  lemma ReachableStep(s: Pool, a: Action)
    requires Reachable(s)
    ensures Reachable(Step(s, a))
  {
    var submitters: nat, workers: nat, pausers: nat, waiters: nat, actions: seq<Action> :|
      s == Run(Init(submitters, workers, pausers, waiters), actions);
    assert (actions + [a])[..|actions|] == actions;
    assert Step(s, a) == Run(Init(submitters, workers, pausers, waiters), actions + [a]);
  }

  lemma {:induction false} ReachableRun(s: Pool, actions: seq<Action>)
    requires Reachable(s)
    ensures Reachable(Run(s, actions))
  {
    if actions != [] {
      var last := |actions| - 1;
      ReachableRun(s, actions[..last]);
      ReachableStep(Run(s, actions[..last]), actions[last]);
    }
  }

  // ---------- conservation ----------

  /** The total is the queued tasks, plus those in workers' hands, plus submits that entered but did not push. */
  lemma Conservation(s: Pool)
    requires Reachable(s)
    ensures s.total == Size(s.lanes) + Count(HoldsTask, s.workers) + Count(Entered, s.submitters)
    ensures s.inFlight == Count(Registered, s.submitters)
    ensures Size(s.lanes) <= QueueDepth(s.total, CountedBusy(s))
                          <= Size(s.lanes) + |s.workers| + Count(Entered, s.submitters)
    ensures |s.workers| < UINT16 ==>
              && CountedBusy(s) == Count(Working, s.workers)
              && QueueDepth(s.total, CountedBusy(s)) ==
                 Size(s.lanes) + Count(Entered, s.submitters) + Count(Idling, s.workers)
  {
    ReachableInv(s);
    DepthEstimate(s);
    DepthExact(s);
    BusyCountExact(s);
    if |s.workers| < UINT16 {
      Truncated(|s.workers|);
      assert Counted(s.workers) == s.workers;
    }
  }

  // ---------- shutdown handshake ----------

  lemma {:induction false} NoPushAfterSpin(s: Pool, actions: seq<Action>)
    requires PoolInv(s) && PastSpin(s.destroyer)
    ensures PastSpin(Run(s, actions).destroyer)
    ensures Run(s, actions).pushed == s.pushed
  {
    if actions != [] {
      var last := |actions| - 1;
      var mid := Run(s, actions[..last]);
      NoPushAfterSpin(s, actions[..last]);
      RunKeepsPoolInv(s, actions[..last]);
      StepAfterSpin(mid, actions[last]);
    }
  }

  lemma SubmitAfterSpin(s: Pool, i: nat, p: Priority, wake: nat)
    requires AccountInv(s) && PastSpin(s.destroyer) && i < |s.submitters|
    ensures var s' := SubmitStep(s, i, p, wake);
            s'.pushed == s.pushed && s'.lanes == s.lanes && s'.workers == s.workers && s'.total == s.total
  {
    assert Outside(s.submitters[i]);
  }

  lemma StepAfterSpin(s: Pool, a: Action)
    requires AccountInv(s) && PastSpin(s.destroyer)
    ensures PastSpin(Step(s, a).destroyer)
    ensures Step(s, a).pushed == s.pushed && Step(s, a).total <= s.total
  {
    if a.Submit? && a.i < |s.submitters| {
      SubmitAfterSpin(s, a.i, a.p, a.wake);
    }
  }

  /**
   * Once destroy has left its spin, no continuation pushes a task.  Once it has left the drain loop,
   * the queue is empty, no worker holds a task, and every id returned by a submit was executed
   * exactly once.
   */
  lemma ShutdownHandshake(s: Pool, actions: seq<Action>)
    requires Reachable(s)
    ensures PastSpin(s.destroyer) ==> Run(s, actions).pushed == s.pushed
    ensures PastDrain(s.destroyer) ==>
              && Size(s.lanes) == 0
              && (forall w :: 0 <= w < |s.workers| ==> !HoldsTask(s.workers[w]))
              && (forall id :: id in s.returned ==> Count(Is(id), s.executed) == 1)
              && (forall id: nat :: Count(Is(id), s.executed) == Count(Is(id), s.pushed))
  {
    ReachableInv(s);
    if PastSpin(s.destroyer) {
      NoPushAfterSpin(s, actions);
    }
    if PastDrain(s.destroyer) {
      NothingLeft(s);
      forall id: nat ensures Count(Is(id), s.executed) == Count(Is(id), s.pushed) {
        ZeroTotalMeansRun(s, id);
      }
      forall id | id in s.returned ensures Count(Is(id), s.executed) == 1 {
        CountIs(id, s.pushed);
        assert IdUnique(s, id);
      }
    }
  }

  // ---------- thread_pool_wait ----------

  /** A waiter that has not returned keeps the promise it started with. */
  lemma {:induction false} PromiseKept(s: Pool, actions: seq<Action>, k: nat)
    requires |s.workers| == |s.busy| && k < |s.waiters| && !s.waiters[k].Out?
    requires forall m :: 0 <= m <= |actions| ==> !Run(s, actions[..m]).waiters[k].Out?
    ensures !Run(s, actions).waiters[k].Out? && Run(s, actions).waiters[k].promise == s.waiters[k].promise
  {
    if actions != [] {
      var last := |actions| - 1;
      var early := actions[..last];
      forall m | 0 <= m <= |early| ensures !Run(s, early[..m]).waiters[k].Out? {
        assert early[..m] == actions[..m];
      }
      PromiseKept(s, early, k);
      assert actions[..|actions|] == actions;
      StepKeepsPromise(Run(s, early), actions[last], k);
    }
  }

  lemma WaitKeepsPromise(s: Pool, j: nat, k: nat)
    requires j < |s.waiters| && k < |s.waiters| && !s.waiters[k].Out? && !WaitStep(s, j).waiters[k].Out?
    ensures WaitStep(s, j).waiters[k].promise == s.waiters[k].promise
  {
  }

  lemma EventKeepsPromise(s: Pool, e: Event, k: nat)
    requires k < |s.waiters| && !s.waiters[k].Out?
    ensures !EventStep(s, e).waiters[k].Out? && EventStep(s, e).waiters[k].promise == s.waiters[k].promise
  {
  }

  lemma WorkKeepsPromise(s: Pool, w: nat, wake: nat, k: nat)
    requires w < |s.workers| == |s.busy| && k < |s.waiters| && !s.waiters[k].Out?
    ensures !WorkStep(s, w, wake).waiters[k].Out?
    ensures WorkStep(s, w, wake).waiters[k].promise == s.waiters[k].promise
  {
  }

  lemma StepKeepsPromise(s: Pool, a: Action, k: nat)
    requires |s.workers| == |s.busy| && k < |s.waiters| && !s.waiters[k].Out? && !Step(s, a).waiters[k].Out?
    ensures Step(s, a).waiters[k].promise == s.waiters[k].promise
  {
    match a
    case Wait(j) => if j < |s.waiters| { WaitKeepsPromise(s, j, k); }
    case Work(w, wake) => if w < |s.workers| { WorkKeepsPromise(s, w, wake, k); }
    case Happen(e) => EventKeepsPromise(s, e, k);
    case Submit(i, p, wake) => if i < |s.submitters| { SubmitKeepsWaiters(s, i, p, wake); }
    case Control(i, c) => if i < |s.pausers| { assert PauseStep(s, i, c).waiters == s.waiters; }
    case Age(n) => assert AgeStep(s, n).waiters == s.waiters;
    case Destroy => assert DestroyStep(s).waiters == s.waiters;
  }

  lemma SubmitKeepsWaiters(s: Pool, i: nat, p: Priority, wake: nat)
    requires i < |s.submitters|
    ensures SubmitStep(s, i, p, wake).waiters == s.waiters
  {
  }

  lemma WaitBegins(s: Pool, k: nat)
    requires PoolInv(s) && k < |s.waiters| && s.waiters[k].Out?
    ensures PoolInv(WaitStep(s, k)) && WaitStep(s, k).waiters[k] == WaitPaused(s.returned)
  {
    StepKeepsPoolInv(s, Wait(k));
    assert Step(s, Wait(k)) == WaitStep(s, k);
  }

  /**
   * When a wait that began in s is about to return, every id that a submit had returned before the
   * wait began has been executed.
   */
  lemma WaitDelivers(s: Pool, actions: seq<Action>, k: nat)
    requires Reachable(s) && k < |s.waiters| && s.waiters[k].Out?
    requires forall m :: 0 <= m <= |actions| ==> !Run(WaitStep(s, k), actions[..m]).waiters[k].Out?
    ensures var s' := Run(WaitStep(s, k), actions);
            s'.waiters[k].WaitUnlock? ==> forall id :: id in s.returned ==> id in s'.executed
  {
    ReachableInv(s);
    WaitBegins(s, k);
    WaitEnds(WaitStep(s, k), actions, k);
  }

  lemma WaitEnds(s: Pool, actions: seq<Action>, k: nat)
    requires PoolInv(s) && k < |s.waiters| && !s.waiters[k].Out?
    requires forall m :: 0 <= m <= |actions| ==> !Run(s, actions[..m]).waiters[k].Out?
    ensures var s' := Run(s, actions);
            s'.waiters[k].WaitUnlock? ==> forall id :: id in s.waiters[k].promise ==> id in s'.executed
  {
    RunKeepsPoolInv(s, actions);
    PromiseKept(s, actions, k);
    assert WaiterSound(Run(s, actions), k);
  }

  // ---------- lost wakeups ----------

  /**
   * While a worker sleeps on not_empty the queued tasks are covered by owed signals and awake
   * workers; so with every worker asleep and a task queued, some pusher owes a signal.  After
   * destroy's broadcast nobody sleeps there.
   */
  lemma NoLostQueueWakeup(s: Pool)
    requires Reachable(s)
    ensures AsleepOnQueue(s.workers) ==>
              Size(s.lanes) <= Count(OwesSignal, s.submitters) + Count(Heading, s.workers)
    ensures |s.workers| > 0 && (forall w :: 0 <= w < |s.workers| ==> s.workers[w].PopAsleep?) && Size(s.lanes) > 0 ==>
              exists i :: 0 <= i < |s.submitters| && s.submitters[i].Signal?
    ensures PastWakeAll(s.destroyer) ==> forall w :: 0 <= w < |s.workers| ==> !s.workers[w].PopAsleep?
  {
    ReachableInv(s);
    if |s.workers| > 0 && (forall w :: 0 <= w < |s.workers| ==> s.workers[w].PopAsleep?) && Size(s.lanes) > 0 {
      assert s.workers[0].PopAsleep?;
      CountZero(Heading, s.workers);
      CountZero(OwesSignal, s.submitters);
    }
  }

  /** A worker asleep at the pause gate of a running pool has a broadcast coming. */
  lemma NoLostResume(s: Pool, w: nat)
    requires Reachable(s) && w < |s.workers|
    ensures s.workers[w].PauseAsleep? && !s.paused ==> ResumeOwed(s)
  {
    ReachableInv(s);
    assert ResumeNotLost(s, w);
  }

  /** No waiter sleeps on drain_cond beside the destroyer. */
  ghost predicate DestroyerAlone(s: Pool)
  {
    s.destroyer.DrainAsleep? ==> forall k :: 0 <= k < |s.waiters| ==> !s.waiters[k].WaitAsleep?
  }

  lemma {:induction false} AloneKeepsDrain(s: Pool, actions: seq<Action>)
    requires Sane(s) && DrainNotLost(s)
    requires forall m :: 0 <= m < |actions| ==> DestroyerAlone(Run(s, actions[..m]))
    ensures DrainNotLost(Run(s, actions))
  {
    if actions != [] {
      var last := |actions| - 1;
      var before := actions[..last];
      assert forall m :: 0 <= m < last ==> before[..m] == actions[..m];
      AloneKeepsDrain(s, before);
      SaneRun(s, before);
      SaneAccounts(Run(s, before));
      StepKeepsDrain(Run(s, before), actions[last]);
    }
  }

  /**
   * Along any run in which the destroyer is the only sleeper on drain_cond whenever it sleeps there,
   * it never sleeps on a drained pool without an owed signal.
   */
  lemma NoLostDrainWakeup(s: Pool, actions: seq<Action>)
    requires Reachable(s) && !DestroyerDozes(s.destroyer)
    requires forall m :: 0 <= m < |actions| ==> DestroyerAlone(Run(s, actions[..m]))
    ensures var e := Run(s, actions);
            (e.destroyer.DrainSleep? || e.destroyer.DrainAsleep?) && e.total <= 0 ==>
              exists w :: 0 <= w < |e.workers| && e.workers[w].DrainSignal?
  {
    ReachableSane(s);
    AloneKeepsDrain(s, actions);
  }

  predicate NoWait(actions: seq<Action>)
  {
    forall m :: 0 <= m < |actions| ==> !actions[m].Wait?
  }

  ghost predicate WaitsOver(s: Pool)
  {
    forall k :: 0 <= k < |s.waiters| ==> s.waiters[k].Out?
  }

  lemma {:induction false} WaitsStayOver(s: Pool, actions: seq<Action>)
    requires |s.workers| == |s.busy| && WaitsOver(s) && NoWait(actions)
    ensures WaitsOver(Run(s, actions))
  {
    if actions != [] {
      var last := |actions| - 1;
      WaitsStayOver(s, actions[..last]);
      WaitsOverStep(Run(s, actions[..last]), actions[last]);
    }
  }

  lemma WaitsOverStep(s: Pool, a: Action)
    requires |s.workers| == |s.busy| && WaitsOver(s) && !a.Wait?
    ensures WaitsOver(Step(s, a))
  {
    match a
    case Submit(i, p, wake) => if i < |s.submitters| { assert SubmitStep(s, i, p, wake).waiters == s.waiters; }
    case Work(w, wake) => if w < |s.workers| { assert WorkStep(s, w, wake).waiters == s.waiters; }
    case Control(i, c) => if i < |s.pausers| { assert PauseStep(s, i, c).waiters == s.waiters; }
    case Age(n) => assert AgeStep(s, n).waiters == s.waiters;
    case Destroy => assert DestroyStep(s).waiters == s.waiters;
    case Happen(e) => assert EventStep(s, e).waiters == s.waiters;
  }

  /** Once every wait has returned and none follows, destroy loses no wakeup. */
  lemma NoLostDrainAfterWaits(s: Pool, actions: seq<Action>)
    requires Reachable(s) && !DestroyerDozes(s.destroyer) && WaitsOver(s) && NoWait(actions)
    ensures var e := Run(s, actions);
            (e.destroyer.DrainSleep? || e.destroyer.DrainAsleep?) && e.total <= 0 ==>
              exists w :: 0 <= w < |e.workers| && e.workers[w].DrainSignal?
  {
    forall m | 0 <= m < |actions| ensures DestroyerAlone(Run(s, actions[..m])) {
      WaitsStayOver(s, actions[..m]);
    }
    NoLostDrainWakeup(s, actions);
  }

  // ---------- pause ----------

  /** A worker between the pause gate and its next pop. */
  predicate PastGate(w: Worker)
  {
    w.PopLock? || w.PopShutdown? || w.PopSleep? || w.PopAsleep?
  }

  /** 1 if the action pops a task. */
  function Popped(s: Pool, a: Action): nat
  {
    if a.Work? && a.w < |s.workers| && WorkNext(s, a.w, a.wake).SetBusy? then 1 else 0
  }

  function PopsIn(s: Pool, actions: seq<Action>): nat
    requires |s.workers| == |s.busy|
  {
    if actions == [] then 0
    else
      var last := |actions| - 1;
      PopsIn(s, actions[..last]) + Popped(Run(s, actions[..last]), actions[last])
  }

  lemma PausedWork(s: Pool, w: nat, wake: nat)
    requires w < |s.workers| == |s.busy| && s.paused
    ensures Popped(s, Work(w, wake)) + Count(PastGate, WorkStep(s, w, wake).workers) <= Count(PastGate, s.workers)
  {
    CountUpdate(PastGate, s.workers, w, WorkNext(s, w, wake));
  }

  lemma WakesKeepPastGate(s: Pool, w: nat)
    ensures Count(PastGate, BroadcastQueue(s.workers)) == Count(PastGate, s.workers)
    ensures Count(PastGate, BroadcastPause(s.workers)) == Count(PastGate, s.workers)
    ensures Sleeps(s.workers, w) ==> Count(PastGate, s.workers[w := PopLock]) == Count(PastGate, s.workers)
    ensures w < |s.workers| ==> Count(PastGate, s.workers[w := WakeFromQueue(WakeFromPause(s.workers[w]))]) ==
                                Count(PastGate, s.workers)
  {
    CountPointwise(PastGate, BroadcastQueue(s.workers), s.workers);
    CountPointwise(PastGate, BroadcastPause(s.workers), s.workers);
    if w < |s.workers| {
      CountUpdate(PastGate, s.workers, w, PopLock);
      CountUpdate(PastGate, s.workers, w, WakeFromQueue(WakeFromPause(s.workers[w])));
    }
  }

  lemma PausedStep(s: Pool, a: Action)
    requires |s.workers| == |s.busy| && s.paused
    ensures Popped(s, a) + Count(PastGate, Step(s, a).workers) <= Count(PastGate, s.workers)
  {
    match a
    case Submit(_, _, wake) => WakesKeepPastGate(s, wake);
    case Work(w, wake) => if w < |s.workers| { PausedWork(s, w, wake); }
    case Happen(e) => WakesKeepPastGate(s, if e.SpuriousWorker? then e.w else 0);
    case _ => WakesKeepPastGate(s, 0);
  }

  /** While the pool stays paused, it pops at most once for each worker that was past the gate. */
  lemma {:induction false} PauseBound(s: Pool, actions: seq<Action>)
    requires |s.workers| == |s.busy|
    requires forall m :: 0 <= m < |actions| ==> Run(s, actions[..m]).paused
    ensures PopsIn(s, actions) + Count(PastGate, Run(s, actions).workers) <= Count(PastGate, s.workers)
    ensures PopsIn(s, actions) <= |s.workers|
  {
    if actions != [] {
      var last := |actions| - 1;
      var early := actions[..last];
      forall m | 0 <= m < |early| ensures Run(s, early[..m]).paused {
        assert early[..m] == actions[..m];
      }
      PauseBound(s, early);
      PausedStep(Run(s, early), actions[last]);
    }
  }
}
