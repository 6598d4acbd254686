/** Where every pushed task is: queued, in a worker's hands, or executed, and exactly once. */
module PoolTasks {
  import opened PriorityLanes
  import opened Counting
  import opened ThreadPool
  import opened PoolAccounts

  /** A worker that popped task id and has not run it yet. */
  function InHand(id: nat): Worker -> bool
  {
    (w: Worker) => (w.SetBusy? || w.Running?) && w.id == id
  }

  /** A submit that created task id and has not pushed it yet. */
  function Carries(id: nat): Submitter -> bool
  {
    (x: Submitter) => (x.Enter? || x.CheckAging? || x.Stamp? || x.TryPush?) && x.id == id
  }

  function Queued(q: Lanes<nat>, id: nat): nat
  {
    Count(Is(id), q[LOW]) + Count(Is(id), q[MEDIUM]) + Count(Is(id), q[HIGH])
  }

  /** Task id is queued, in hand or executed as often as it was pushed. */
  ghost predicate TaskConserved(s: Pool, id: nat)
  {
    Queued(s.lanes, id) + Count(InHand(id), s.workers) + Count(Is(id), s.executed) == Count(Is(id), s.pushed)
  }

  /** Id was given out at most once. */
  ghost predicate IdUnique(s: Pool, id: nat)
  {
    var issued := Count(Is(id), s.pushed) + Count(Carries(id), s.submitters);
    issued <= 1 && (issued > 0 ==> id < s.nextId)
  }

  /** An id that a caller has, or is about to get, names a pushed task. */
  ghost predicate ReturnedPushed(s: Pool)
  {
    && (forall id :: id in s.returned ==> id in s.pushed)
    && (forall i :: 0 <= i < |s.submitters| && s.submitters[i].Signal? ==> s.submitters[i].id in s.pushed)
    && (forall i :: 0 <= i < |s.submitters| && s.submitters[i].Leave? && s.submitters[i].result.Some? ==>
          s.submitters[i].result.value in s.pushed)
  }

  /** A waiter's promise is about pushed tasks, and is kept when the waiter has seen a total of zero. */
  ghost predicate WaiterSound(s: Pool, k: nat)
    requires k < |s.waiters|
  {
    var x := s.waiters[k];
    && (!x.Out? ==> forall id :: id in x.promise ==> id in s.pushed)
    && (x.WaitUnlock? ==> forall id :: id in x.promise ==> id in s.executed)
  }

  ghost predicate TaskInv(s: Pool)
  {
    && AccountInv(s)
    && (forall id: nat :: TaskConserved(s, id))
    && (forall id: nat :: IdUnique(s, id))
    && ReturnedPushed(s)
    && (forall k: nat :: k < |s.waiters| ==> WaiterSound(s, k))
  }

  // ---------- conservation of tasks ----------

  lemma BroadcastsKeepInHand(ws: seq<Worker>, id: nat)
    ensures Count(InHand(id), BroadcastQueue(ws)) == Count(InHand(id), ws)
    ensures Count(InHand(id), BroadcastPause(ws)) == Count(InHand(id), ws)
  {
    CountPointwise(InHand(id), BroadcastQueue(ws), ws);
    CountPointwise(InHand(id), BroadcastPause(ws), ws);
  }

  lemma PushQueues(q: Lanes<nat>, p: Priority, t: nat, id: nat)
    ensures Queued(Push(q, p, t), id) == Queued(q, id) + (if t == id then 1 else 0)
  {
    CountConcat(Is(id), q[p], [t]);
  }

  lemma PopUnqueues(q: Lanes<nat>, id: nat)
    requires Size(q) > 0
    ensures Queued(q, id) == Queued(Rest(q), id) + (if Head(q) == id then 1 else 0)
  {
  }

  lemma PromoteKeepsQueued(q: Lanes<nat>, src: Priority, n: nat, id: nat)
    requires src < HIGH && n <= |q[src]|
    ensures Queued(Promote(q, src, n), id) == Queued(q, id)
  {
    assert q[src] == q[src][..n] + q[src][n..];
    CountConcat(Is(id), q[src][..n], q[src][n..]);
    CountConcat(Is(id), q[src][..n], q[src + 1]);
  }

  lemma SubmitKeepsTask(s: Pool, i: nat, p: Priority, wake: nat, id: nat)
    requires i < |s.submitters| && TaskConserved(s, id)
    ensures TaskConserved(SubmitStep(s, i, p, wake), id)
  {
    if Sleeps(s.workers, wake) {
      CountUpdate(InHand(id), s.workers, wake, PopLock);
    }
    PushedGrows(s, i, p, wake, id);
    if s.submitters[i].TryPush? {
      PushQueues(s.lanes, s.submitters[i].p, s.submitters[i].id, id);
    }
  }

  lemma PopKeepsTask(s: Pool, w: nat, wake: nat, id: nat)
    requires w < |s.workers| == |s.busy| && s.workers[w].PopLock? && TaskConserved(s, id)
    ensures TaskConserved(WorkStep(s, w, wake), id)
  {
    CountUpdate(InHand(id), s.workers, w, WorkNext(s, w, wake));
    if Size(s.lanes) > 0 {
      PopUnqueues(s.lanes, id);
    }
  }

  lemma RunKeepsTask(s: Pool, w: nat, wake: nat, id: nat)
    requires w < |s.workers| == |s.busy| && !s.workers[w].PopLock? && TaskConserved(s, id)
    ensures TaskConserved(WorkStep(s, w, wake), id)
  {
    var x, x' := s.workers[w], WorkNext(s, w, wake);
    CountUpdate(InHand(id), s.workers, w, x');
    assert !x'.SetBusy?;
    assert WorkStep(s, w, wake).lanes == s.lanes && WorkStep(s, w, wake).pushed == s.pushed;
    if x.Running? {
      CountConcat(Is(id), s.executed, [x.id]);
    }
  }

  lemma WorkKeepsTask(s: Pool, w: nat, wake: nat, id: nat)
    requires w < |s.workers| == |s.busy| && TaskConserved(s, id)
    ensures TaskConserved(WorkStep(s, w, wake), id)
  {
    var x := s.workers[w];
    if x.PopLock? {
      PopKeepsTask(s, w, wake, id);
    } else {
      RunKeepsTask(s, w, wake, id);
    }
  }

  lemma AgeKeepsTask(s: Pool, n: nat, id: nat)
    requires TaskConserved(s, id)
    ensures TaskConserved(AgeStep(s, n), id)
  {
    BroadcastsKeepInHand(s.workers, id);
    if s.ager.AgeMove? && s.ager.src < HIGH {
      PromoteKeepsQueued(s.lanes, s.ager.src, Promotable(s), id);
    }
  }

  lemma DestroyKeepsTask(s: Pool, id: nat)
    requires AccountInv(s) && TaskConserved(s, id)
    ensures TaskConserved(DestroyStep(s), id)
  {
    BroadcastsKeepInHand(s.workers, id);
    if s.destroyer.Free? {
      NothingLeft(s);
    }
  }

  lemma EventKeepsTask(s: Pool, e: Event, id: nat)
    requires TaskConserved(s, id)
    ensures TaskConserved(EventStep(s, e), id)
  {
    BroadcastsKeepInHand(s.workers, id);
    if e.SpuriousWorker? && e.w < |s.workers| {
      CountUpdate(InHand(id), s.workers, e.w, WakeFromQueue(WakeFromPause(s.workers[e.w])));
    }
  }

  lemma CallerKeepsTask(s: Pool, a: Action, id: nat)
    requires |s.workers| == |s.busy| && TaskConserved(s, id) && (a.Control? || a.Wait?)
    ensures TaskConserved(Step(s, a), id)
  {
    BroadcastsKeepInHand(s.workers, id);
  }

  lemma StepKeepsTask(s: Pool, a: Action, id: nat)
    requires AccountInv(s) && TaskConserved(s, id)
    ensures TaskConserved(Step(s, a), id)
  {
    match a
    case Submit(i, p, wake) => if i < |s.submitters| { SubmitKeepsTask(s, i, p, wake, id); }
    case Work(w, wake) => if w < |s.workers| { WorkKeepsTask(s, w, wake, id); }
    case Age(n) => AgeKeepsTask(s, n, id);
    case Destroy => DestroyKeepsTask(s, id);
    case Happen(e) => EventKeepsTask(s, e, id);
    case _ => CallerKeepsTask(s, a, id);
  }

  // ---------- ids ----------

  lemma SubmitKeepsId(s: Pool, i: nat, p: Priority, wake: nat, id: nat)
    requires i < |s.submitters| && IdUnique(s, id) && IdUnique(s, s.nextId)
    ensures IdUnique(SubmitStep(s, i, p, wake), id)
  {
    CountUpdate(Carries(id), s.submitters, i, SubmitNext(s, i, p, wake));
    PushedGrows(s, i, p, wake, id);
  }

  lemma PushedGrows(s: Pool, i: nat, p: Priority, wake: nat, id: nat)
    requires i < |s.submitters|
    ensures var x := s.submitters[i];
            Count(Is(id), SubmitStep(s, i, p, wake).pushed) ==
            Count(Is(id), s.pushed) + (if x.TryPush? && SubmitNext(s, i, p, wake).Signal? && x.id == id then 1 else 0)
  {
    if s.submitters[i].TryPush? {
      CountConcat(Is(id), s.pushed, [s.submitters[i].id]);
    }
  }

  lemma StepKeepsId(s: Pool, a: Action, id: nat)
    requires |s.workers| == |s.busy| && IdUnique(s, id) && IdUnique(s, s.nextId)
    ensures IdUnique(Step(s, a), id)
  {
    match a
    case Submit(i, p, wake) => if i < |s.submitters| { SubmitKeepsId(s, i, p, wake, id); }
    case Work(w, wake) => if w < |s.workers| { assert WorkStep(s, w, wake).pushed == s.pushed; }
    case _ => OtherHistory(s, a);
  }

  lemma SubmitKeepsReturned(s: Pool, i: nat, p: Priority, wake: nat)
    requires i < |s.submitters| && ReturnedPushed(s)
    ensures ReturnedPushed(SubmitStep(s, i, p, wake))
  {
  }

  lemma StepKeepsReturned(s: Pool, a: Action)
    requires |s.workers| == |s.busy| && ReturnedPushed(s)
    ensures ReturnedPushed(Step(s, a))
  {
    match a
    case Submit(i, p, wake) => if i < |s.submitters| { SubmitKeepsReturned(s, i, p, wake); }
    case Work(w, wake) => if w < |s.workers| { WorkHistory(s, w, wake); }
    case _ => OtherHistory(s, a);
  }

  // ---------- thread_pool_wait ----------

  /** With a total of zero every pushed task has run as often as it was pushed. */
  lemma ZeroTotalMeansRun(s: Pool, id: nat)
    requires AccountInv(s) && TaskConserved(s, id) && s.total <= 0
    ensures Count(Is(id), s.executed) == Count(Is(id), s.pushed)
    ensures id in s.pushed ==> id in s.executed
  {
    CountZero(HoldsTask, s.workers);
    CountZero(InHand(id), s.workers);
    CountIs(id, s.pushed);
    CountIs(id, s.executed);
  }

  /** History only grows. */
  lemma HistoryGrows(s: Pool, a: Action)
    requires |s.workers| == |s.busy|
    ensures s.pushed <= Step(s, a).pushed && s.executed <= Step(s, a).executed && s.returned <= Step(s, a).returned
  {
    match a
    case Submit(i, p, wake) => if i < |s.submitters| { SubmitHistory(s, i, p, wake); }
    case Work(w, wake) => if w < |s.workers| { WorkHistory(s, w, wake); }
    case _ => OtherHistory(s, a);
  }

  lemma SubmitHistory(s: Pool, i: nat, p: Priority, wake: nat)
    requires i < |s.submitters|
    ensures var s' := SubmitStep(s, i, p, wake);
            s.pushed <= s'.pushed && s.executed == s'.executed && s.returned <= s'.returned
  {
  }

  lemma WorkHistory(s: Pool, w: nat, wake: nat)
    requires w < |s.workers| == |s.busy|
    ensures var s' := WorkStep(s, w, wake);
            && s.pushed == s'.pushed && s.executed <= s'.executed && s.returned == s'.returned
            && s.submitters == s'.submitters
  {
  }

  lemma OtherHistory(s: Pool, a: Action)
    requires |s.workers| == |s.busy| && !a.Submit? && !a.Work?
    ensures var s' := Step(s, a);
            && s.pushed == s'.pushed && s.executed == s'.executed && s.returned == s'.returned
            && s.submitters == s'.submitters && s.nextId == s'.nextId && s.stamped == s'.stamped
  {
    match a
    case Control(k, c) => if k < |s.pausers| { assert PauseStep(s, k, c).submitters == s.submitters; }
    case Wait(k) => if k < |s.waiters| { assert WaitStep(s, k).submitters == s.submitters; }
    case Age(n) => assert AgeStep(s, n).submitters == s.submitters;
    case Destroy => assert DestroyStep(s).submitters == s.submitters;
    case Happen(e) => assert EventStep(s, e).submitters == s.submitters;
  }

  lemma WaitKeepsWaiter(s: Pool, j: nat, k: nat)
    requires TaskInv(s) && k < |s.waiters| && j < |s.waiters|
    ensures WaiterSound(WaitStep(s, j), k)
  {
    assert WaiterSound(s, k);
    if s.total <= 0 {
      forall id | id in s.pushed ensures id in s.executed {
        assert TaskConserved(s, id);
        ZeroTotalMeansRun(s, id);
      }
    }
  }

  lemma OtherKeepsWaiter(s: Pool, a: Action, k: nat)
    requires TaskInv(s) && k < |s.waiters| && !a.Wait?
    ensures WaiterSound(Step(s, a), k)
  {
    assert WaiterSound(s, k);
    HistoryGrows(s, a);
    var x, x' := s.waiters[k], Step(s, a).waiters[k];
    assert x' == x || (x.WaitAsleep? && x' == WaitLock(x.promise));
  }

  lemma StepKeepsTaskInv(s: Pool, a: Action)
    requires TaskInv(s)
    ensures TaskInv(Step(s, a))
  {
    StepKeepsAccounts(s, a);
    forall id: nat ensures TaskConserved(Step(s, a), id) {
      StepKeepsTask(s, a, id);
    }
    forall id: nat ensures IdUnique(Step(s, a), id) {
      StepKeepsId(s, a, id);
    }
    StepKeepsReturned(s, a);
    forall k: nat | k < |s.waiters| ensures WaiterSound(Step(s, a), k) {
      if a.Wait? {
        if a.k < |s.waiters| { WaitKeepsWaiter(s, a.k, k); } else { assert WaiterSound(s, k); }
      } else {
        OtherKeepsWaiter(s, a, k);
      }
    }
  }
}
