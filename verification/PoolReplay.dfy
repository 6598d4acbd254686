/** Short runs of a pool with one submitter and one worker, for the counterexamples. */
module PoolReplay {
  import opened PriorityLanes
  import opened ThreadPool
  import opened PoolTheorems

  /** A step of the submitter, the worker, a waiter or the destroyer; or a change of the capacity. */
  predicate Plays(a: Action, waiters: nat, caps: bool)
  {
    match a
    case Submit(i, _, _) => i == 0
    case Work(w, _) => w == 0
    case Wait(k) => k < waiters
    case Destroy => true
    case Happen(e) => caps && e.SetCap?
    case _ => false
  }

  predicate AllPlay(actions: seq<Action>, waiters: nat, caps: bool)
  {
    forall m :: 0 <= m < |actions| ==> Plays(actions[m], waiters, caps)
  }

  /** Reached from a pool with one submitter and one worker, without spurious wakeups. */
  ghost predicate Played(s: Pool, caps: bool)
  {
    && |s.workers| == |s.busy| == |s.submitters| == 1 && |s.pausers| == 0
    && exists actions :: AllPlay(actions, |s.waiters|, caps) && s == Run(Init(1, 1, 0, |s.waiters|), actions)
  }

  lemma PlayBegins(waiters: nat, caps: bool)
    ensures Played(Init(1, 1, 0, waiters), caps)
  {
    var s := Init(1, 1, 0, waiters);
    assert AllPlay([], waiters, caps) && s == Run(s, []);
  }

  lemma PlayedReachable(s: Pool, caps: bool)
    requires Played(s, caps)
    ensures Reachable(s)
  {
  }

  lemma PlayedStep(s: Pool, a: Action, caps: bool)
    requires Played(s, caps) && Plays(a, |s.waiters|, caps)
    ensures Played(Step(s, a), caps)
  {
    var init := Init(1, 1, 0, |s.waiters|);
    var actions :| AllPlay(actions, |s.waiters|, caps) && s == Run(init, actions);
    assert (actions + [a])[..|actions|] == actions;
    assert AllPlay(actions + [a], |s.waiters|, caps) && Step(s, a) == Run(init, actions + [a]);
  }

  lemma GoSubmit(s: Pool, caps: bool)
    requires Played(s, caps)
    ensures Played(SubmitStep(s, 0, LOW, 0), caps)
  {
    PlayedStep(s, Submit(0, LOW, 0), caps);
  }

  lemma GoCap(s: Pool, cap: nat)
    requires Played(s, true)
    ensures Played(s.(cap := cap), true)
  {
    PlayedStep(s, Happen(SetCap(cap)), true);
    assert EventStep(s, SetCap(cap)) == s.(cap := cap);
  }

  lemma GoWork(s: Pool, caps: bool)
    requires Played(s, caps)
    ensures Played(WorkStep(s, 0, 0), caps)
  {
    PlayedStep(s, Work(0, 0), caps);
  }

  lemma GoWait(s: Pool, k: nat, caps: bool)
    requires Played(s, caps) && k < |s.waiters|
    ensures Played(WaitStep(s, k), caps)
  {
    PlayedStep(s, Wait(k), caps);
  }

  lemma GoDestroy(s: Pool, caps: bool)
    requires Played(s, caps)
    ensures Played(DestroyStep(s), caps)
  {
    PlayedStep(s, Destroy, caps);
  }

  // ---------- the submitter ----------

  /** A submit registers and passes the shutdown check. */
  lemma SubmitStarts(s: Pool, caps: bool) returns (s': Pool)
    requires Played(s, caps) && s.submitters == [Idle] && !s.shutdown && s.inFlight == 0
    ensures Played(s', caps) && s' == s.(inFlight := 1, submitters := [ReadCap(LOW)])
  {
    GoSubmit(s, caps);
    var s1 := SubmitStep(s, 0, LOW, 0);
    assert s1 == s.(inFlight := 1, submitters := [CheckShutdown(LOW)]);
    GoSubmit(s1, caps);
    s' := SubmitStep(s1, 0, LOW, 0);
  }

  /** The submit finds no capacity and creates its task. */
  lemma SubmitCreates(s: Pool, caps: bool) returns (s': Pool)
    requires Played(s, caps) && s.submitters == [ReadCap(LOW)] && s.cap == 0
    ensures Played(s', caps) && s' == s.(submitters := [Enter(LOW, s.nextId)], nextId := s.nextId + 1)
  {
    GoSubmit(s, caps);
    var s1 := SubmitStep(s, 0, LOW, 0);
    assert s1 == s.(submitters := [Create(LOW)]);
    GoSubmit(s1, caps);
    s' := SubmitStep(s1, 0, LOW, 0);
  }

  /** It enters the task into the total; aging is off, so it is not stamped. */
  lemma SubmitEnters(s: Pool, caps: bool) returns (s': Pool)
    requires Played(s, caps) && s.submitters == [ReadCap(LOW)] && s.cap == 0 && !s.agingEnabled
    ensures Played(s', caps)
    ensures s' == s.(submitters := [TryPush(LOW, s.nextId)], nextId := s.nextId + 1, total := s.total + 1)
  {
    var s1 := SubmitCreates(s, caps);
    GoSubmit(s1, caps);
    var s2 := SubmitStep(s1, 0, LOW, 0);
    assert s2 == s1.(submitters := [CheckAging(LOW, s.nextId)], total := s.total + 1);
    GoSubmit(s2, caps);
    s' := SubmitStep(s2, 0, LOW, 0);
  }

  /** It pushes task 0 into LOW. */
  lemma SubmitPushes(s: Pool, caps: bool) returns (s': Pool)
    requires Played(s, caps) && s.submitters == [TryPush(LOW, 0)] && s.cap == 0 && QueueFree(s)
    requires s.lanes == Empty() && s.pushed == []
    ensures Played(s', caps)
    ensures s' == s.(submitters := [Signal(0)], lanes := [[0], [], []], pushed := [0])
  {
    GoSubmit(s, caps);
    assert Empty<nat>()[LOW] + [0] == [0];
    s' := SubmitStep(s, 0, LOW, 0);
  }

  lemma SubmitSignals(s: Pool, caps: bool) returns (s': Pool)
    requires Played(s, caps) && s.submitters == [Signal(0)] && !s.workers[0].PopAsleep?
    ensures Played(s', caps) && s' == s.(submitters := [Leave(Some(0))])
  {
    GoSubmit(s, caps);
    assert !AsleepOnQueue(s.workers);
    s' := SubmitStep(s, 0, LOW, 0);
  }

  /** Its signal finds no sleeper, and it returns the id to its caller. */
  lemma SubmitReturns(s: Pool, caps: bool) returns (s': Pool)
    requires Played(s, caps) && s.submitters == [Signal(0)] && !s.workers[0].PopAsleep?
    requires s.inFlight == 1 && s.returned == {}
    ensures Played(s', caps) && s' == s.(submitters := [Idle], inFlight := 0, returned := {0})
  {
    var s1 := SubmitSignals(s, caps);
    GoSubmit(s1, caps);
    s' := SubmitStep(s1, 0, LOW, 0);
  }

  /** A fresh pool takes its first task. */
  lemma FirstTask(waiters: nat, caps: bool) returns (s: Pool)
    ensures Played(s, caps)
    ensures s == Init(1, 1, 0, waiters).(lanes := [[0], [], []], total := 1, nextId := 1, pushed := [0],
                                         returned := {0})
  {
    s := Init(1, 1, 0, waiters);
    PlayBegins(waiters, caps);
    s := SubmitStarts(s, caps);
    s := SubmitEnters(s, caps);
    s := SubmitPushes(s, caps);
    s := SubmitReturns(s, caps);
  }

  // ---------- the worker ----------

  lemma RestOfOne()
    ensures var q: Lanes<nat> := [[0], [], []]; Size(q) == 1 && Head(q) == 0 && Rest(q) == Empty()
  {
    var q: Lanes<nat> := [[0], [], []];
    assert q[LOW][1..] == [];
  }

  /** A step that moves the worker only. */
  lemma WorkerMoves(s: Pool, caps: bool) returns (s': Pool)
    requires Played(s, caps) && (s.workers[0].Gate? || HoldsQueue(s.workers[0]))
    ensures Played(s', caps) && s' == s.(workers := [WorkNext(s, 0, 0)])
  {
    GoWork(s, caps);
    s' := WorkStep(s, 0, 0);
    assert s'.workers == [WorkNext(s, 0, 0)];
  }

  /** The worker locks the queue and pops task 0. */
  lemma WorkerTakes(s: Pool, caps: bool) returns (s': Pool)
    requires Played(s, caps) && s.workers == [PopLock] && s.lanes == [[0], [], []]
    ensures Played(s', caps) && s' == s.(workers := [SetBusy(0)], lanes := Empty())
  {
    GoWork(s, caps);
    RestOfOne();
    assert QueueFree(s);
    s' := WorkStep(s, 0, 0);
    assert s'.workers == [SetBusy(0)];
  }

  /** The worker passes the pause gate and pops task 0. */
  lemma WorkerPops(s: Pool, caps: bool) returns (s': Pool)
    requires Played(s, caps) && s.workers == [Gate] && !s.paused && s.lanes == [[0], [], []]
    ensures Played(s', caps) && s' == s.(workers := [SetBusy(0)], lanes := Empty())
  {
    s' := WorkerMoves(s, caps);
    s' := WorkerTakes(s', caps);
  }

  lemma WorkerMarks(s: Pool, caps: bool) returns (s': Pool)
    requires Played(s, caps) && s.workers == [SetBusy(0)]
    ensures Played(s', caps) && s' == s.(workers := [Running(0)], busy := [true])
  {
    GoWork(s, caps);
    s' := WorkStep(s, 0, 0);
    assert s'.busy == [true] && s'.workers == [Running(0)];
  }

  lemma WorkerRuns(s: Pool, caps: bool) returns (s': Pool)
    requires Played(s, caps) && s.workers == [Running(0)] && s.executed == []
    ensures Played(s', caps) && s' == s.(workers := [ClearBusy], executed := [0])
  {
    GoWork(s, caps);
    s' := WorkStep(s, 0, 0);
    assert s'.executed == [0] && s'.workers == [ClearBusy];
  }

  lemma WorkerClears(s: Pool, caps: bool) returns (s': Pool)
    requires Played(s, caps) && s.workers == [ClearBusy]
    ensures Played(s', caps) && s' == s.(workers := [Finish], busy := [false])
  {
    GoWork(s, caps);
    s' := WorkStep(s, 0, 0);
    assert s'.busy == [false] && s'.workers == [Finish];
  }

  /** The worker lowers the total, and owes a signal if it is zero now. */
  lemma WorkerFinishes(s: Pool, caps: bool) returns (s': Pool)
    requires Played(s, caps) && s.workers == [Finish]
    ensures Played(s', caps)
    ensures s' == s.(workers := [if s.total == 1 then DrainSignal else Gate], total := s.total - 1)
  {
    GoWork(s, caps);
    s' := WorkStep(s, 0, 0);
  }

  /** The worker pops task 0 and runs it to its end. */
  lemma WorkerServes(s: Pool, caps: bool) returns (s': Pool)
    requires Played(s, caps) && s.workers == [Gate] && s.busy == [false] && !s.paused
    requires s.lanes == [[0], [], []] && s.executed == []
    ensures Played(s', caps)
    ensures s' == s.(workers := [if s.total == 1 then DrainSignal else Gate], total := s.total - 1,
                     lanes := Empty(), executed := [0])
  {
    s' := WorkerPops(s, caps);
    s' := WorkerMarks(s', caps);
    s' := WorkerRuns(s', caps);
    s' := WorkerClears(s', caps);
    s' := WorkerFinishes(s', caps);
  }

  /** The worker finds the queue empty and reads the shutdown flag next. */
  lemma WorkerFindsNothing(s: Pool, caps: bool) returns (s': Pool)
    requires Played(s, caps) && s.workers == [Gate] && Size(s.lanes) == 0 && !s.paused
    ensures Played(s', caps) && s' == s.(workers := [PopShutdown])
  {
    var s1 := WorkerMoves(s, caps);
    GoWork(s1, caps);
    assert QueueFree(s1);
    s' := WorkStep(s1, 0, 0);
    assert s'.workers == [PopShutdown];
  }

  // ---------- a waiter ----------

  /** Waiter k starts while the pool runs. */
  lemma WaiterStarts(s: Pool, k: nat, caps: bool) returns (s': Pool)
    requires Played(s, caps) && k < |s.waiters| && s.waiters[k].Out? && !s.paused && DrainFree(s)
    ensures Played(s', caps) && s' == s.(waiters := s.waiters[k := WaitLock(s.returned)])
  {
    GoWait(s, k, caps);
    var s1 := WaitStep(s, k);
    assert s1.waiters[k] == WaitPaused(s.returned);
    GoWait(s1, k, caps);
    s' := WaitStep(s1, k);
    assert s'.waiters == s.waiters[k := WaitLock(s.returned)];
  }

  /** A waiter with the drain mutex in reach reads a positive total. */
  lemma WaiterChecks(s: Pool, k: nat, caps: bool) returns (s': Pool)
    requires Played(s, caps) && k < |s.waiters| && s.waiters[k].WaitLock? && s.total > 0 && DrainFree(s)
    ensures Played(s', caps) && s' == s.(waiters := s.waiters[k := WaitSleep(s.waiters[k].promise)])
  {
    GoWait(s, k, caps);
    var s1 := WaitStep(s, k);
    assert s1.waiters[k] == WaitCheck(s.waiters[k].promise);
    GoWait(s1, k, caps);
    s' := WaitStep(s1, k);
    assert s'.waiters == s.waiters[k := WaitSleep(s.waiters[k].promise)];
  }

  /** Waiter k goes to sleep while a task is in the system. */
  lemma WaiterSleeps(s: Pool, k: nat, caps: bool) returns (s': Pool)
    requires Played(s, caps) && k < |s.waiters| && s.waiters[k].Out? && s.total > 0 && !s.paused && DrainFree(s)
    ensures Played(s', caps) && s' == s.(waiters := s.waiters[k := WaitAsleep(s.returned)])
  {
    var s1 := WaiterStarts(s, k, caps);
    var s2 := WaiterChecks(s1, k, caps);
    GoWait(s2, k, caps);
    s' := WaitStep(s2, k);
    assert s'.waiters == s.waiters[k := WaitAsleep(s.returned)];
  }
}
