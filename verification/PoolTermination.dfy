/** Destroy ends under every schedule that runs in rounds, once all waits are over and no task is stranded. */
module PoolTermination {
  import opened PriorityLanes
  import opened Counting
  import opened Fairness
  import opened ThreadPool
  import opened PoolAccounts
  import opened PoolWakeups
  import opened PoolTheorems
  import opened PoolShutdown

  /** The distance of workers, aging thread and destroyer to the end. */
  function ToGo(s: Pool): nat
  {
    10 * Size(s.lanes) + Sum(WorkerRank, s.workers) + AgerRank(s.ager) + DestroyerRank(s.destroyer, |s.workers|)
  }

  /** The shape of a pool: workers and pausers. */
  datatype Shape = Shape(workers: nat, pausers: nat)

  /** Workers, destroyer, aging thread and pausers are the threads that matter, in this order. */
  function Threads(x: Shape): nat
  {
    x.workers + 2 + x.pausers
  }

  function Owner(x: Shape): Action -> nat
  {
    (a: Action) =>
      match a
      case Work(w, _) => if w < x.workers then w else Threads(x)
      case Destroy => x.workers
      case Age(_) => x.workers + 1
      case Control(k, _) => if k < x.pausers then x.workers + 2 + k else Threads(x)
      case _ => Threads(x)
  }

  /** Destroy is past its spin, alone on drain_cond, and not at its end. */
  ghost predicate Ending(s: Pool, x: Shape)
  {
    && Finishing(s) && WaitsOver(s) && !s.destroyer.Gone?
    && |s.workers| == x.workers && |s.pausers| == x.pausers
  }

  /** Actions outside the schedules below count as nothing. */
  function Act(s: Pool, a: Action): Pool
  {
    if |s.workers| != |s.busy| || a.Wait? || Spurious(a) then s else Step(s, a)
  }

  /** The own step of thread h, whatever it is, brings the end closer. */
  ghost predicate Able(s: Pool, x: Shape, h: nat)
  {
    if |s.workers| != x.workers || |s.pausers| != x.pausers then false
    else if h < x.workers then Unblocked(s, h)
    else if h == x.workers then DestroyerUnblocked(s)
    else if h == x.workers + 1 then !s.ager.AgeOff? && QueueFree(s)
    else h < Threads(x) && s.pausers[h - x.workers - 2].WakePaused? && PauseFree(s) && SomeoneAtGate(s.workers)
  }

  ghost predicate SomeoneAtGate(ws: seq<Worker>)
  {
    exists w :: 0 <= w < |ws| && ws[w].PauseAsleep?
  }

  // ---------- steps ----------

  /** A step that changes no worker, no lane, not the aging thread and not the destroyer. */
  predicate Neutral(s: Pool, s': Pool)
  {
    s'.lanes == s.lanes && s'.workers == s.workers && s'.ager == s.ager && s'.destroyer == s.destroyer
  }

  /** Either nothing that counts has changed, or the end is closer. */
  ghost predicate Closer(s: Pool, s': Pool)
  {
    Neutral(s, s') || ToGo(s') < ToGo(s)
  }

  lemma BroadcastsCloser(ws: seq<Worker>)
    ensures BroadcastPause(ws) == ws || Sum(WorkerRank, BroadcastPause(ws)) < Sum(WorkerRank, ws)
    ensures BroadcastQueue(ws) == ws || Sum(WorkerRank, BroadcastQueue(ws)) < Sum(WorkerRank, ws)
    ensures SomeoneAtGate(ws) ==> BroadcastPause(ws) != ws
  {
    if BroadcastPause(ws) != ws {
      var w :| 0 <= w < |ws| && BroadcastPause(ws)[w] != ws[w];
      OneLower(BroadcastPause(ws), ws, w);
    }
    if BroadcastQueue(ws) != ws {
      var w :| 0 <= w < |ws| && BroadcastQueue(ws)[w] != ws[w];
      OneLower(BroadcastQueue(ws), ws, w);
    }
  }

  lemma OneLower(after: seq<Worker>, before: seq<Worker>, w: nat)
    requires |after| == |before| && w < |after| && WorkerRank(after[w]) < WorkerRank(before[w])
    requires forall v :: 0 <= v < |after| ==> WorkerRank(after[v]) <= WorkerRank(before[v])
    ensures Sum(WorkerRank, after) < Sum(WorkerRank, before)
  {
    SumUpdate(WorkerRank, before, w, after[w]);
    SumMonotone(WorkerRank, after, before[w := after[w]]);
  }

  /** A pop takes a task from the queue; any other step of a worker falls, with the destroyer it wakes. */
  lemma WorkDescends(s: Pool, w: nat, wake: nat)
    requires w < |s.workers| == |s.busy| && s.shutdown && !s.paused && WaitsOver(s) && Unblocked(s, w)
    ensures var s', n := WorkStep(s, w, wake), |s.workers|;
            var pops := s.workers[w].PopLock? && Size(s.lanes) > 0;
            && s'.lanes == (if pops then Rest(s.lanes) else s.lanes)
            && WorkerRank(WorkNext(s, w, wake)) + DestroyerRank(s'.destroyer, n) <
               WorkerRank(s.workers[w]) + DestroyerRank(s.destroyer, n) + (if pops then 10 else 0)
  {
  }

  lemma WorkMoves(s: Pool, w: nat, wake: nat)
    requires w < |s.workers| == |s.busy| && s.shutdown && !s.paused && WaitsOver(s) && Unblocked(s, w)
    ensures ToGo(WorkStep(s, w, wake)) < ToGo(s)
  {
    WorkDescends(s, w, wake);
    var s' := WorkStep(s, w, wake);
    assert s'.workers == s.workers[w := WorkNext(s, w, wake)] && s'.ager == s.ager;
    SumUpdate(WorkerRank, s.workers, w, WorkNext(s, w, wake));
    if s.workers[w].PopLock? && Size(s.lanes) > 0 {
      PopServesInOrder(s.lanes);
    }
  }

  lemma WorkCloser(s: Pool, w: nat, wake: nat)
    requires w < |s.workers| == |s.busy| && s.shutdown && !s.paused && WaitsOver(s)
    ensures Closer(s, WorkStep(s, w, wake))
  {
    if Unblocked(s, w) {
      WorkMoves(s, w, wake);
    } else {
      assert WorkNext(s, w, wake) == s.workers[w];
      assert s.workers[w := s.workers[w]] == s.workers;
    }
  }

  lemma DestroyMoves(s: Pool)
    requires PastSpin(s.destroyer) && DestroyerUnblocked(s) && (s.destroyer.Free? ==> Size(s.lanes) == 0)
    ensures ToGo(DestroyStep(s)) < ToGo(s)
  {
    BroadcastsCloser(s.workers);
  }

  lemma DestroyCloser(s: Pool)
    requires PastSpin(s.destroyer) && (s.destroyer.Free? ==> Size(s.lanes) == 0)
    ensures Closer(s, DestroyStep(s))
  {
    if DestroyerUnblocked(s) {
      DestroyMoves(s);
    } else {
      assert DestroyNext(s) == s.destroyer;
    }
  }

  lemma AgeMoves(s: Pool, n: nat)
    requires s.shutdown && QueueFree(s) && !s.ager.AgeOff?
    ensures ToGo(AgeStep(s, n)) < ToGo(s)
  {
    assert AgeNext(s, n) != s.ager;
    AgeCloser(s, n);
  }

  lemma AgeCloser(s: Pool, n: nat)
    requires s.shutdown
    ensures Closer(s, AgeStep(s, n))
  {
    var s' := AgeStep(s, n);
    AgeDescends(s, n);
    AgeKeepsSize(s, n);
    WakesLower(s.workers);
    assert Sum(WorkerRank, s'.workers) <= Sum(WorkerRank, s.workers) && s'.destroyer == s.destroyer;
  }

  lemma PauseCloser(s: Pool, k: nat, command: Command)
    requires k < |s.pausers|
    ensures Closer(s, PauseStep(s, k, command))
  {
    BroadcastsCloser(s.workers);
    var s' := PauseStep(s, k, command);
    assert s'.lanes == s.lanes && s'.ager == s.ager && s'.destroyer == s.destroyer;
  }

  lemma EventCloser(s: Pool, e: Event)
    requires !s.destroyer.NotCalled? && !Spurious(Happen(e))
    ensures Closer(s, EventStep(s, e))
  {
    BroadcastsCloser(s.workers);
    var s' := EventStep(s, e);
    assert s'.lanes == s.lanes && s'.ager == s.ager && s'.destroyer == s.destroyer;
  }

  lemma StepCloser(s: Pool, x: Shape, a: Action)
    requires Ending(s, x)
    ensures Closer(s, Act(s, a))
  {
    SaneAccounts(s);
    SaneFlags(s);
    match a
    case Submit(i, p, wake) => if i < |s.submitters| { SubmitAfterSpin(s, i, p, wake); }
    case Work(w, wake) => if w < |s.workers| { WorkCloser(s, w, wake); }
    case Age(n) => AgeCloser(s, n);
    case Destroy =>
      if s.destroyer.Free? {
        NothingLeft(s);
      }
      DestroyCloser(s);
    case Control(k, command) => if k < |s.pausers| { PauseCloser(s, k, command); }
    case Wait(_) =>
    case Happen(e) => if !Spurious(a) { EventCloser(s, e); }
  }

  /** Nobody but the thread itself takes away its ability without bringing the end closer. */
  lemma AbilityStays(s: Pool, x: Shape, a: Action, h: nat)
    requires Ending(s, x) && Able(s, x, h) && Ending(Act(s, a), x) && Owner(x)(a) != h
    requires ToGo(Act(s, a)) == ToGo(s)
    ensures Able(Act(s, a), x, h)
  {
    StepCloser(s, x, a);
    var s' := Act(s, a);
    assert WaitsOver(s');
    if h >= x.workers + 2 {
      PauserStays(s, x, a, h - x.workers - 2);
    }
  }

  lemma PauserStays(s: Pool, x: Shape, a: Action, k: nat)
    requires |s.workers| == x.workers && |s.pausers| == x.pausers && k < x.pausers
    requires Owner(x)(a) != x.workers + 2 + k
    ensures Act(s, a).pausers[k] == s.pausers[k]
  {
  }

  /** The own step of an able thread. */
  lemma OwnStepCloser(s: Pool, x: Shape, a: Action, h: nat)
    requires Ending(s, x) && Able(s, x, h) && Owner(x)(a) == h && h < Threads(x)
    ensures ToGo(Act(s, a)) < ToGo(s)
  {
    SaneAccounts(s);
    SaneFlags(s);
    match a
    case Work(w, wake) => WorkMoves(s, w, wake);
    case Destroy =>
      if s.destroyer.Free? {
        NothingLeft(s);
      }
      DestroyMoves(s);
    case Age(n) => AgeMoves(s, n);
    case Control(k, command) => ResumeMoves(s, k, command);
  }

  lemma ResumeMoves(s: Pool, k: nat, command: Command)
    requires k < |s.pausers| && s.pausers[k].WakePaused? && PauseFree(s) && SomeoneAtGate(s.workers)
    ensures ToGo(PauseStep(s, k, command)) < ToGo(s)
  {
    PauseCloser(s, k, command);
    BroadcastsCloser(s.workers);
    assert PauseStep(s, k, command).workers == BroadcastPause(s.workers);
  }

  // ---------- somebody is able ----------

  lemma SomeoneAble(s: Pool, x: Shape) returns (h: nat)
    requires Ending(s, x)
    ensures h < Threads(x) && Able(s, x, h)
  {
    if v: nat :| v < |s.workers| && (HoldsQueue(s.workers[v]) || HoldsPause(s.workers[v])) {
      h := v;
    } else if w: nat :| w < |s.workers| && !s.workers[w].Exited? && !Asleep(s.workers[w]) {
      h := if Unblocked(s, w) then w else x.workers;
    } else if DestroyerUnblocked(s) {
      h := x.workers;
    } else if s.destroyer.JoinAging? {
      h := x.workers + 1;
    } else {
      var w := SleeperLeft(s);
      SaneResume(s, w);
      var k: nat :| k < |s.pausers| && s.pausers[k].WakePaused?;
      h := x.workers + 2 + k;
    }
  }

  // ---------- every fair schedule ----------

  ghost function Enders(x: Shape): System<Pool, Action>
  {
    System(Threads(x), Owner(x), (s, a) => Act(s, a), s => Ending(s, x), s => ToGo(s), (s, h) => Able(s, x, h),
           (s, h) => 0, 1)
  }

  lemma EndersSound(x: Shape)
    ensures Sound(Enders(x))
  {
    var y := Enders(x);
    forall s, a | y.waiting(s) && y.waiting(y.step(s, a)) ensures y.left(y.step(s, a)) <= y.left(s) {
      StepCloser(s, x, a);
    }
    forall s | y.waiting(s) ensures exists h: nat :: h < y.n && y.helpful(s, h) {
      var h := SomeoneAble(s, x);
      assert y.helpful(s, h);
    }
    forall s, a, h: nat | y.waiting(s) && y.helpful(s, h) ensures Holds(y, s, a, h) {
      if y.waiting(y.step(s, a)) && y.left(y.step(s, a)) == y.left(s) {
        AbleHolds(s, x, a, h);
      }
    }
  }

  lemma AbleHolds(s: Pool, x: Shape, a: Action, h: nat)
    requires Ending(s, x) && Able(s, x, h) && Ending(Act(s, a), x) && ToGo(Act(s, a)) == ToGo(s)
    ensures Able(Act(s, a), x, h) && Owner(x)(a) != h
  {
    if Owner(x)(a) == h {
      OwnStepCloser(s, x, a, h);
    } else {
      AbilityStays(s, x, a, h);
    }
  }

  /** Until destroy is over it goes on ending. */
  lemma {:induction false} EndsOn(s: Pool, x: Shape, schedule: seq<Action>)
    requires Ending(s, x) && NoWait(schedule) && NoSpurious(schedule)
    requires forall m :: 0 <= m <= |schedule| ==> !Run(s, schedule[..m]).destroyer.Gone?
    ensures Ending(Run(s, schedule), x) && Follow(Enders(x).step, s, schedule) == Run(s, schedule)
  {
    if schedule != [] {
      var last := |schedule| - 1;
      var early := schedule[..last];
      assert forall m :: 0 <= m <= |early| ==> early[..m] == schedule[..m];
      EndsOn(s, x, early);
      WaitsStayOver(s, schedule);
      FinishingStep(Run(s, early), schedule[last]);
      assert schedule[..|schedule|] == schedule;
    }
  }

  lemma EndsThroughout(s: Pool, x: Shape, schedule: seq<Action>)
    requires Ending(s, x) && NoWait(schedule) && NoSpurious(schedule)
    requires forall m :: 0 <= m <= |schedule| ==> !Run(s, schedule[..m]).destroyer.Gone?
    ensures StaysWaiting(Enders(x), s, schedule)
  {
    forall m | 0 <= m <= |schedule| ensures Enders(x).waiting(Follow(Enders(x).step, s, schedule[..m])) {
      assert forall l :: 0 <= l <= m ==> schedule[..m][..l] == schedule[..l];
      EndsOn(s, x, schedule[..m]);
    }
  }

  lemma {:induction false} GoneStays(s: Pool, actions: seq<Action>)
    requires |s.workers| == |s.busy| && s.destroyer.Gone?
    ensures Run(s, actions).destroyer.Gone?
  {
    if actions != [] {
      GoneStays(s, actions[..|actions| - 1]);
      GoneStep(Run(s, actions[..|actions| - 1]), actions[|actions| - 1]);
    }
  }

  lemma GoneStep(s: Pool, a: Action)
    requires |s.workers| == |s.busy| && s.destroyer.Gone?
    ensures Step(s, a).destroyer.Gone?
  {
  }

  /**
   * Destroy terminates: past its spin, with all waits over, no task stranded and no wakeup lost, every
   * schedule in which each worker, the aging thread, each pauser and the destroyer take a step in
   * each of enough rounds ends it; submits, resumes and changes of settings may mix in.
   */
  lemma DestroyTerminates(s: Pool, rounds: seq<seq<Action>>)
    requires Reachable(s) && PastSpin(s.destroyer) && WaitsOver(s) && DrainNotLost(s) && !Stranded(s)
    requires NoWait(Flat(rounds)) && NoSpurious(Flat(rounds))
    requires var x := Shape(|s.workers|, |s.pausers|); AllStep(Threads(x), Owner(x), rounds)
    requires |rounds| > ToGo(s)
    ensures Run(s, Flat(rounds)).destroyer.Gone?
  {
    var x := Shape(|s.workers|, |s.pausers|);
    ReachableSane(s);
    if m :| 0 <= m <= |Flat(rounds)| && Run(s, Flat(rounds)[..m]).destroyer.Gone? {
      assert Flat(rounds)[..m] + Flat(rounds)[m..] == Flat(rounds);
      RunConcat(s, Flat(rounds)[..m], Flat(rounds)[m..]);
      GoneStays(Run(s, Flat(rounds)[..m]), Flat(rounds)[m..]);
    } else {
      assert Run(s, []) == s && Flat(rounds)[..0] == [];
      EndsThroughout(s, x, Flat(rounds));
      EndersSound(x);
      WaitingEnds(Enders(x), s, rounds);
      assert false;
    }
  }
}
