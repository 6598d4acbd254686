/** What the pool's counters count: submits in flight, and tasks in the system. */
module PoolAccounts {
  import opened PriorityLanes
  import opened Counting
  import opened ThreadPool

  /** A submit call between its registration and its return. */
  predicate Registered(x: Submitter)
  {
    !x.Idle?
  }

  /** A submit between its increment of the total and its push or rollback. */
  predicate Entered(x: Submitter)
  {
    x.CheckAging? || x.Stamp? || x.TryPush? || x.Rollback?
  }

  /** A worker between its pop and its decrement of the total. */
  predicate HoldsTask(w: Worker)
  {
    w.SetBusy? || w.Running? || w.ClearBusy? || w.Finish?
  }

  /** A submit call that can no longer push: it has not passed the shutdown check, or is rejected. */
  predicate Outside(x: Submitter)
  {
    x.Idle? || x.CheckShutdown? || x == Leave(None)
  }

  predicate PastSpin(d: Destroyer)
  {
    !d.NotCalled? && !d.ClearPause? && !d.Spin?
  }

  predicate PastDrain(d: Destroyer)
  {
    d.DrainUnlock? || d.Join? || d.Free? || d.Gone?
  }

  ghost predicate FlightExact(s: Pool)
  {
    s.inFlight == Count(Registered, s.submitters)
  }

  ghost predicate TotalExact(s: Pool)
  {
    s.total == Size(s.lanes) + Count(HoldsTask, s.workers) + Count(Entered, s.submitters)
  }

  ghost predicate Phases(s: Pool)
  {
    && (s.shutdown <==> !s.destroyer.NotCalled?)
    && (PastSpin(s.destroyer) ==> forall i :: 0 <= i < |s.submitters| ==> Outside(s.submitters[i]))
    && (PastDrain(s.destroyer) ==> s.total == 0)
  }

  ghost predicate AccountInv(s: Pool)
  {
    |s.workers| == |s.busy| && FlightExact(s) && TotalExact(s) && Phases(s)
  }

  // ---------- in_flight_submits ----------

  lemma SubmitKeepsFlight(s: Pool, i: nat, p: Priority, wake: nat)
    requires i < |s.submitters| && FlightExact(s)
    ensures FlightExact(SubmitStep(s, i, p, wake))
  {
    CountUpdate(Registered, s.submitters, i, SubmitNext(s, i, p, wake));
  }

  lemma StepKeepsFlight(s: Pool, a: Action)
    requires |s.workers| == |s.busy| && FlightExact(s)
    ensures FlightExact(Step(s, a))
  {
    if a.Submit? && a.i < |s.submitters| {
      SubmitKeepsFlight(s, a.i, a.p, a.wake);
    }
  }

  // ---------- total_task_in_system ----------

  lemma BroadcastsKeepHolders(ws: seq<Worker>)
    ensures Count(HoldsTask, BroadcastQueue(ws)) == Count(HoldsTask, ws)
    ensures Count(HoldsTask, BroadcastPause(ws)) == Count(HoldsTask, ws)
  {
    CountPointwise(HoldsTask, BroadcastQueue(ws), ws);
    CountPointwise(HoldsTask, BroadcastPause(ws), ws);
  }

  lemma SubmitKeepsTotal(s: Pool, i: nat, p: Priority, wake: nat)
    requires i < |s.submitters| && TotalExact(s)
    ensures TotalExact(SubmitStep(s, i, p, wake))
  {
    CountUpdate(Entered, s.submitters, i, SubmitNext(s, i, p, wake));
    SubmitKeepsHolders(s, i, p, wake);
    SubmitGrows(s, i, p, wake);
  }

  lemma SubmitKeepsHolders(s: Pool, i: nat, p: Priority, wake: nat)
    requires i < |s.submitters|
    ensures Count(HoldsTask, SubmitStep(s, i, p, wake).workers) == Count(HoldsTask, s.workers)
  {
    if Sleeps(s.workers, wake) {
      CountUpdate(HoldsTask, s.workers, wake, PopLock);
    }
  }

  /** A submit adds a task to the queue exactly when it gets to owe its signal. */
  lemma SubmitGrows(s: Pool, i: nat, p: Priority, wake: nat)
    requires i < |s.submitters|
    ensures Size(SubmitStep(s, i, p, wake).lanes) ==
            Size(s.lanes) + (if s.submitters[i].TryPush? && SubmitNext(s, i, p, wake).Signal? then 1 else 0)
  {
    if s.submitters[i].TryPush? {
      PushIntoOrder(s.lanes, s.submitters[i].p, s.submitters[i].id);
    }
  }

  lemma WorkKeepsTotal(s: Pool, w: nat, wake: nat)
    requires w < |s.workers| == |s.busy| && TotalExact(s)
    ensures TotalExact(WorkStep(s, w, wake))
  {
    var x' := WorkNext(s, w, wake);
    CountUpdate(HoldsTask, s.workers, w, x');
    if x'.SetBusy? {
      PopServesInOrder(s.lanes);
    }
  }

  lemma AgeKeepsTotal(s: Pool, n: nat)
    requires TotalExact(s)
    ensures TotalExact(AgeStep(s, n))
  {
    BroadcastsKeepHolders(s.workers);
    if s.ager.AgeMove? && s.ager.src < HIGH {
      PromoteKeepsSize(s.lanes, s.ager.src, Promotable(s));
    }
  }

  lemma EventKeepsTotal(s: Pool, e: Event)
    requires TotalExact(s)
    ensures TotalExact(EventStep(s, e))
  {
    BroadcastsKeepHolders(s.workers);
    if e.SpuriousWorker? && e.w < |s.workers| {
      CountUpdate(HoldsTask, s.workers, e.w, WakeFromQueue(WakeFromPause(s.workers[e.w])));
    }
  }

  lemma StepKeepsTotal(s: Pool, a: Action)
    requires AccountInv(s)
    ensures TotalExact(Step(s, a))
  {
    BroadcastsKeepHolders(s.workers);
    match a
    case Submit(i, p, wake) => if i < |s.submitters| { SubmitKeepsTotal(s, i, p, wake); }
    case Work(w, wake) => if w < |s.workers| { WorkKeepsTotal(s, w, wake); }
    case Age(n) => AgeKeepsTotal(s, n);
    case Happen(e) => EventKeepsTotal(s, e);
    case _ =>
  }

  // ---------- the phases of destroy ----------

  /** Past the drain the queue is empty and no worker holds a task. */
  lemma NothingLeft(s: Pool)
    requires AccountInv(s) && PastDrain(s.destroyer)
    ensures Size(s.lanes) == 0
    ensures forall w :: 0 <= w < |s.workers| ==> !HoldsTask(s.workers[w])
  {
    CountZero(HoldsTask, s.workers);
  }

  lemma SubmitKeepsPhases(s: Pool, i: nat, p: Priority, wake: nat)
    requires i < |s.submitters| && Phases(s)
    ensures Phases(SubmitStep(s, i, p, wake))
  {
  }

  lemma WorkKeepsPhases(s: Pool, w: nat, wake: nat)
    requires w < |s.workers| && AccountInv(s)
    ensures Phases(WorkStep(s, w, wake))
  {
    if PastDrain(s.destroyer) {
      NothingLeft(s);
    }
  }

  lemma DestroyKeepsPhases(s: Pool)
    requires AccountInv(s)
    ensures Phases(DestroyStep(s))
  {
    if s.destroyer.Spin? && s.inFlight <= 0 {
      CountZero(Registered, s.submitters);
    }
  }

  lemma OtherKeepsPhases(s: Pool, a: Action)
    requires |s.workers| == |s.busy| && Phases(s) && !a.Submit? && !a.Work? && !a.Destroy?
    ensures Phases(Step(s, a))
  {
    assert Step(s, a).submitters == s.submitters && Step(s, a).total == s.total;
  }

  lemma StepKeepsPhases(s: Pool, a: Action)
    requires AccountInv(s)
    ensures Phases(Step(s, a))
  {
    match a
    case Submit(i, p, wake) => if i < |s.submitters| { SubmitKeepsPhases(s, i, p, wake); }
    case Work(w, wake) => if w < |s.workers| { WorkKeepsPhases(s, w, wake); }
    case Destroy => DestroyKeepsPhases(s);
    case _ => OtherKeepsPhases(s, a);
  }

  lemma StepKeepsAccounts(s: Pool, a: Action)
    requires AccountInv(s)
    ensures AccountInv(Step(s, a))
  {
    StepKeepsFlight(s, a);
    StepKeepsTotal(s, a);
    StepKeepsPhases(s, a);
  }

  lemma InitAccounts(submitters: nat, workers: nat, pausers: nat, waiters: nat)
    ensures AccountInv(Init(submitters, workers, pausers, waiters))
  {
    var s := Init(submitters, workers, pausers, waiters);
    CountZero(Registered, s.submitters);
    CountZero(Entered, s.submitters);
    CountZero(HoldsTask, s.workers);
  }

  lemma {:induction false} RunKeepsAccounts(s: Pool, actions: seq<Action>)
    requires AccountInv(s)
    ensures AccountInv(Run(s, actions))
  {
    if actions != [] {
      var last := |actions| - 1;
      RunKeepsAccounts(s, actions[..last]);
      StepKeepsAccounts(Run(s, actions[..last]), actions[last]);
    }
  }
}
