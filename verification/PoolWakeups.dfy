/** No lost wakeups: who still owes a signal while a thread sleeps. */
module PoolWakeups {
  import opened PriorityLanes
  import opened Counting
  import opened ThreadPool
  import opened PoolAccounts

  // ---------- not_empty ----------

  predicate OwesSignal(x: Submitter)
  {
    x.Signal?
  }

  /** Awake and on the way to the queue lock, where it takes a task if there is one. */
  predicate Heading(w: Worker)
  {
    w.PopLock?
  }

  /** A worker that holds the queue mutex across steps found the queue empty. */
  ghost predicate HeldIsEmpty(s: Pool)
  {
    forall w :: 0 <= w < |s.workers| && HoldsQueue(s.workers[w]) ==> Size(s.lanes) == 0
  }

  /** While some worker sleeps, every queued task has its own owed signal or awake worker. */
  ghost predicate TasksAttended(s: Pool)
  {
    AsleepOnQueue(s.workers) ==>
      Size(s.lanes) <= Count(OwesSignal, s.submitters) + Count(Heading, s.workers)
  }

  predicate PastWakeAll(d: Destroyer)
  {
    PastSpin(d) && !d.WakeQueueAll?
  }

  predicate Dozing(w: Worker)
  {
    w.PopSleep? || w.PopAsleep?
  }

  /** Once destroy has broadcast, no worker sleeps on not_empty or is about to. */
  ghost predicate NoneDozes(s: Pool)
  {
    PastWakeAll(s.destroyer) ==> forall w :: 0 <= w < |s.workers| ==> !Dozing(s.workers[w])
  }

  lemma WorkKeepsHeldIsEmpty(s: Pool, w: nat, wake: nat)
    requires w < |s.workers| == |s.busy| && HeldIsEmpty(s)
    ensures HeldIsEmpty(WorkStep(s, w, wake))
  {
  }

  lemma SubmitKeepsHeldIsEmpty(s: Pool, i: nat, p: Priority, wake: nat)
    requires i < |s.submitters| && HeldIsEmpty(s)
    ensures HeldIsEmpty(SubmitStep(s, i, p, wake))
  {
  }

  lemma AgeKeepsHeldIsEmpty(s: Pool, n: nat)
    requires HeldIsEmpty(s)
    ensures HeldIsEmpty(AgeStep(s, n))
  {
  }

  lemma DestroyKeepsHeldIsEmpty(s: Pool)
    requires HeldIsEmpty(s)
    ensures HeldIsEmpty(DestroyStep(s))
  {
  }

  lemma CallKeepsHeldIsEmpty(s: Pool, a: Action)
    requires |s.workers| == |s.busy| && HeldIsEmpty(s) && (a.Control? || a.Wait? || a.Happen?)
    ensures HeldIsEmpty(Step(s, a))
  {
  }

  lemma StepKeepsHeldIsEmpty(s: Pool, a: Action)
    requires |s.workers| == |s.busy| && HeldIsEmpty(s)
    ensures HeldIsEmpty(Step(s, a))
  {
    match a
    case Submit(i, p, wake) => if i < |s.submitters| { SubmitKeepsHeldIsEmpty(s, i, p, wake); }
    case Work(w, wake) => if w < |s.workers| { WorkKeepsHeldIsEmpty(s, w, wake); }
    case Age(n) => AgeKeepsHeldIsEmpty(s, n);
    case Destroy => DestroyKeepsHeldIsEmpty(s);
    case _ => CallKeepsHeldIsEmpty(s, a);
  }

  lemma WorkKeepsNoneDozes(s: Pool, w: nat, wake: nat)
    requires w < |s.workers| == |s.busy| && Phases(s) && NoneDozes(s)
    ensures NoneDozes(WorkStep(s, w, wake))
  {
  }

  lemma DestroyKeepsNoneDozes(s: Pool)
    requires NoneDozes(s)
    ensures NoneDozes(DestroyStep(s))
  {
  }

  lemma SubmitKeepsNoneDozes(s: Pool, i: nat, p: Priority, wake: nat)
    requires i < |s.submitters| && NoneDozes(s)
    ensures NoneDozes(SubmitStep(s, i, p, wake))
  {
  }

  lemma AgeKeepsNoneDozes(s: Pool, n: nat)
    requires NoneDozes(s)
    ensures NoneDozes(AgeStep(s, n))
  {
  }

  lemma CallKeepsNoneDozes(s: Pool, a: Action)
    requires |s.workers| == |s.busy| && NoneDozes(s) && (a.Control? || a.Wait? || a.Happen?)
    ensures NoneDozes(Step(s, a))
  {
  }

  lemma StepKeepsNoneDozes(s: Pool, a: Action)
    requires AccountInv(s) && NoneDozes(s)
    ensures NoneDozes(Step(s, a))
  {
    match a
    case Work(w, wake) => if w < |s.workers| { WorkKeepsNoneDozes(s, w, wake); }
    case Destroy => DestroyKeepsNoneDozes(s);
    case Submit(i, p, wake) => if i < |s.submitters| { SubmitKeepsNoneDozes(s, i, p, wake); }
    case Age(n) => AgeKeepsNoneDozes(s, n);
    case _ => CallKeepsNoneDozes(s, a);
  }

  lemma SubmitKeepsAttended(s: Pool, i: nat, p: Priority, wake: nat)
    requires i < |s.submitters| && TasksAttended(s)
    ensures TasksAttended(SubmitStep(s, i, p, wake))
  {
    CountUpdate(OwesSignal, s.submitters, i, SubmitNext(s, i, p, wake));
    if Sleeps(s.workers, wake) {
      CountUpdate(Heading, s.workers, wake, PopLock);
    }
    if s.submitters[i].TryPush? {
      PushIntoOrder(s.lanes, s.submitters[i].p, s.submitters[i].id);
    }
  }

  lemma WorkKeepsAttended(s: Pool, w: nat, wake: nat)
    requires w < |s.workers| == |s.busy| && TasksAttended(s) && HeldIsEmpty(s)
    ensures TasksAttended(WorkStep(s, w, wake))
  {
    if s.workers[w].PopLock? {
      PopKeepsAttended(s, w, wake);
    } else {
      CountUpdate(Heading, s.workers, w, WorkNext(s, w, wake));
      assert WorkStep(s, w, wake).lanes == s.lanes;
    }
  }

  lemma PopKeepsAttended(s: Pool, w: nat, wake: nat)
    requires w < |s.workers| == |s.busy| && s.workers[w].PopLock? && TasksAttended(s) && HeldIsEmpty(s)
    ensures TasksAttended(WorkStep(s, w, wake))
  {
    var x' := WorkNext(s, w, wake);
    CountUpdate(Heading, s.workers, w, x');
    if x'.SetBusy? {
      PopServesInOrder(s.lanes);
    }
  }

  lemma BroadcastPauseKeepsHeading(ws: seq<Worker>)
    ensures Count(Heading, BroadcastPause(ws)) == Count(Heading, ws)
    ensures AsleepOnQueue(BroadcastPause(ws)) <==> AsleepOnQueue(ws)
    ensures !AsleepOnQueue(BroadcastQueue(ws))
  {
    CountPointwise(Heading, BroadcastPause(ws), ws);
    if AsleepOnQueue(ws) {
      var w :| 0 <= w < |ws| && ws[w].PopAsleep?;
      assert BroadcastPause(ws)[w].PopAsleep?;
    }
  }

  lemma AgeKeepsAttended(s: Pool, n: nat)
    requires TasksAttended(s)
    ensures TasksAttended(AgeStep(s, n))
  {
    BroadcastPauseKeepsHeading(s.workers);
    if s.ager.AgeMove? && s.ager.src < HIGH {
      PromoteKeepsSize(s.lanes, s.ager.src, Promotable(s));
    }
  }

  lemma EventKeepsAttended(s: Pool, e: Event)
    requires TasksAttended(s)
    ensures TasksAttended(EventStep(s, e))
  {
    BroadcastPauseKeepsHeading(s.workers);
    if e.SpuriousWorker? && e.w < |s.workers| {
      CountUpdate(Heading, s.workers, e.w, WakeFromQueue(WakeFromPause(s.workers[e.w])));
      if Sleeps(s.workers, e.w) {
        assert AsleepOnQueue(s.workers);
      }
    }
  }

  lemma StepKeepsAttended(s: Pool, a: Action)
    requires |s.workers| == |s.busy| && TasksAttended(s) && HeldIsEmpty(s)
    ensures TasksAttended(Step(s, a))
  {
    BroadcastPauseKeepsHeading(s.workers);
    match a
    case Submit(i, p, wake) => if i < |s.submitters| { SubmitKeepsAttended(s, i, p, wake); }
    case Work(w, wake) => if w < |s.workers| { WorkKeepsAttended(s, w, wake); }
    case Age(n) => AgeKeepsAttended(s, n);
    case Happen(e) => EventKeepsAttended(s, e);
    case _ =>
  }

  // ---------- pause_cond ----------

  /** Somebody cleared `paused` and has not yet broadcast. */
  ghost predicate ResumeOwed(s: Pool)
  {
    || (exists k :: 0 <= k < |s.pausers| && s.pausers[k].WakePaused?)
    || (exists k :: 0 <= k < |s.waiters| && s.waiters[k].WaitWake?)
    || s.destroyer.Spin? || s.destroyer.WakeQueueAll? || s.destroyer.WakePausedAll?
  }

  predicate Paused(w: Worker)
  {
    w.PauseSleep? || w.PauseAsleep?
  }

  /** A worker that sleeps on pause_cond, or is about to, in an unpaused pool will be woken. */
  ghost predicate ResumeNotLost(s: Pool, w: nat)
    requires w < |s.workers|
  {
    !s.paused && Paused(s.workers[w]) ==> ResumeOwed(s)
  }

  lemma WorkKeepsResume(s: Pool, v: nat, wake: nat, w: nat)
    requires v < |s.workers| == |s.busy| && w < |s.workers| && ResumeNotLost(s, w)
    ensures ResumeNotLost(WorkStep(s, v, wake), w)
  {
    var s' := WorkStep(s, v, wake);
    if k :| 0 <= k < |s.waiters| && s.waiters[k].WaitWake? {
      assert s'.waiters[k].WaitWake?;
    }
  }

  lemma PauseKeepsResume(s: Pool, j: nat, command: Command, w: nat)
    requires j < |s.pausers| && w < |s.workers| && ResumeNotLost(s, w)
    ensures ResumeNotLost(PauseStep(s, j, command), w)
  {
    var s' := PauseStep(s, j, command);
    if s'.pausers[j].WakePaused? {
      assert ResumeOwed(s');
    } else if k :| 0 <= k < |s.pausers| && s.pausers[k].WakePaused? && k != j {
      assert s'.pausers[k].WakePaused?;
    }
  }

  lemma WaitKeepsResume(s: Pool, j: nat, w: nat)
    requires j < |s.waiters| && w < |s.workers| && ResumeNotLost(s, w)
    ensures ResumeNotLost(WaitStep(s, j), w)
  {
    var s' := WaitStep(s, j);
    if s'.waiters[j].WaitWake? {
      assert ResumeOwed(s');
    } else if k :| 0 <= k < |s.waiters| && s.waiters[k].WaitWake? && k != j {
      assert s'.waiters[k].WaitWake?;
    }
  }

  lemma EventKeepsResume(s: Pool, e: Event, w: nat)
    requires w < |s.workers| && ResumeNotLost(s, w)
    ensures ResumeNotLost(EventStep(s, e), w)
  {
    var s' := EventStep(s, e);
    if k :| 0 <= k < |s.waiters| && s.waiters[k].WaitWake? {
      assert s'.waiters[k].WaitWake?;
    }
  }

  lemma StepKeepsResume(s: Pool, a: Action, w: nat)
    requires |s.workers| == |s.busy| && w < |s.workers| && ResumeNotLost(s, w)
    ensures ResumeNotLost(Step(s, a), w)
  {
    match a
    case Work(v, wake) => if v < |s.workers| { WorkKeepsResume(s, v, wake, w); }
    case Control(k, command) => if k < |s.pausers| { PauseKeepsResume(s, k, command, w); }
    case Wait(k) => if k < |s.waiters| { WaitKeepsResume(s, k, w); }
    case Happen(e) => EventKeepsResume(s, e, w);
    case _ =>
  }

  // ---------- drain_cond ----------

  ghost predicate DrainSignalOwed(s: Pool)
  {
    exists w :: 0 <= w < |s.workers| && s.workers[w].DrainSignal?
  }

  predicate DestroyerDozes(d: Destroyer)
  {
    d.DrainSleep? || d.DrainAsleep?
  }

  /** The destroyer sleeps at a total of zero only while a worker owes the signal. */
  ghost predicate DrainNotLost(s: Pool)
  {
    DestroyerDozes(s.destroyer) && s.total <= 0 ==> DrainSignalOwed(s)
  }

  /** A signal of drain_cond that goes to a waiter while the destroyer sleeps there too. */
  predicate DivertsSignal(s: Pool, a: Action)
  {
    && a.Work? && a.w < |s.workers| && s.workers[a.w].DrainSignal?
    && s.destroyer.DrainAsleep? && WakesWaiter(s, a.wake)
  }

  lemma WorkKeepsDrain(s: Pool, w: nat, wake: nat)
    requires w < |s.workers| && AccountInv(s) && DrainNotLost(s) && !DivertsSignal(s, Work(w, wake))
    ensures DrainNotLost(WorkStep(s, w, wake))
  {
    var s' := WorkStep(s, w, wake);
    if s.workers[w].Finish? {
      CountPositive(HoldsTask, s.workers, w);
      if s'.total <= 0 {
        assert s'.workers[w].DrainSignal?;
      }
    } else if s'.workers[w].DrainSignal? {
      assert DrainSignalOwed(s');
    } else if v :| 0 <= v < |s.workers| && s.workers[v].DrainSignal? && v != w {
      assert s'.workers[v].DrainSignal?;
    }
  }

  lemma SubmitKeepsDrain(s: Pool, i: nat, p: Priority, wake: nat)
    requires i < |s.submitters| && AccountInv(s) && DrainNotLost(s)
    ensures DrainNotLost(SubmitStep(s, i, p, wake))
  {
    var s' := SubmitStep(s, i, p, wake);
    if v :| 0 <= v < |s.workers| && s.workers[v].DrainSignal? {
      assert s'.workers[v].DrainSignal?;
    }
  }

  /** Only a worker's own step takes away its owed signal. */
  lemma OtherKeepsSignal(s: Pool, a: Action)
    requires |s.workers| == |s.busy| && DrainSignalOwed(s) && !a.Work?
    ensures DrainSignalOwed(Step(s, a))
  {
    var v :| 0 <= v < |s.workers| && s.workers[v].DrainSignal?;
    assert Step(s, a).workers[v].DrainSignal?;
  }

  lemma OtherKeepsDrain(s: Pool, a: Action)
    requires DrainNotLost(s) && |s.workers| == |s.busy| && !a.Submit? && !a.Work?
    ensures DrainNotLost(Step(s, a))
  {
    if DrainSignalOwed(s) {
      OtherKeepsSignal(s, a);
    }
  }

  /** The destroyer's wakeup is kept by every step but a signal diverted to a waiter. */
  lemma StepKeepsDrain(s: Pool, a: Action)
    requires AccountInv(s) && DrainNotLost(s) && !DivertsSignal(s, a)
    ensures DrainNotLost(Step(s, a))
  {
    match a
    case Submit(i, p, wake) => if i < |s.submitters| { SubmitKeepsDrain(s, i, p, wake); }
    case Work(w, wake) => if w < |s.workers| { WorkKeepsDrain(s, w, wake); }
    case _ => OtherKeepsDrain(s, a);
  }

  ghost predicate WakeInv(s: Pool)
  {
    AccountInv(s) && HeldIsEmpty(s) && TasksAttended(s) && NoneDozes(s) &&
    forall w: nat :: w < |s.workers| ==> ResumeNotLost(s, w)
  }

  lemma StepKeepsWakeInv(s: Pool, a: Action)
    requires WakeInv(s)
    ensures WakeInv(Step(s, a))
  {
    StepKeepsAccounts(s, a);
    StepKeepsHeldIsEmpty(s, a);
    StepKeepsAttended(s, a);
    StepKeepsNoneDozes(s, a);
    forall w: nat | w < |s.workers| ensures ResumeNotLost(Step(s, a), w) {
      StepKeepsResume(s, a, w);
    }
  }
}
