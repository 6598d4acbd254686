/** Destroy frees the pool only after its workers and its aging thread have ended. */
module PoolJoin {
  import opened ThreadPool
  import opened PoolTheorems

  // ---------- the workers ----------

  /** Destroy has joined worker w. */
  predicate Joined(d: Destroyer, w: nat)
  {
    d.Free? || d.Gone? || (d.Join? && w < d.k)
  }

  ghost predicate JoinSound(s: Pool)
  {
    forall w :: 0 <= w < |s.workers| && Joined(s.destroyer, w) ==> s.workers[w].Exited?
  }

  /** An ended worker never moves again. */
  lemma ExitedStays(s: Pool, a: Action, w: nat)
    requires |s.workers| == |s.busy| && w < |s.workers| && s.workers[w].Exited?
    ensures Step(s, a).workers[w].Exited?
  {
  }

  lemma OthersKeepJoin(s: Pool, a: Action, w: nat)
    requires |s.workers| == |s.busy| && !a.Destroy?
    ensures Joined(Step(s, a).destroyer, w) ==> Joined(s.destroyer, w)
  {
  }

  lemma StepKeepsJoin(s: Pool, a: Action)
    requires |s.workers| == |s.busy| && JoinSound(s)
    ensures JoinSound(Step(s, a))
  {
    forall w | 0 <= w < |s.workers| && Joined(Step(s, a).destroyer, w) ensures Step(s, a).workers[w].Exited? {
      if a.Destroy? {
        assert DestroyNext(s) == DestroyStep(s).destroyer;
        assert s.workers[w].Exited?;
      } else {
        OthersKeepJoin(s, a, w);
      }
      ExitedStays(s, a, w);
    }
  }

  lemma {:induction false} RunKeepsJoin(s: Pool, actions: seq<Action>)
    requires |s.workers| == |s.busy| && JoinSound(s)
    ensures JoinSound(Run(s, actions))
  {
    if actions != [] {
      var last := |actions| - 1;
      RunKeepsJoin(s, actions[..last]);
      StepKeepsJoin(Run(s, actions[..last]), actions[last]);
    }
  }

  /** In every reachable state, destroy is about to free the pool, or has, only if every worker has ended. */
  lemma FreedAfterJoin(s: Pool)
    requires Reachable(s) && (s.destroyer.Free? || s.destroyer.Gone?)
    ensures forall w :: 0 <= w < |s.workers| ==> s.workers[w].Exited?
  {
    var submitters: nat, workers: nat, pausers: nat, waiters: nat, actions: seq<Action> :|
      s == Run(Init(submitters, workers, pausers, waiters), actions);
    RunKeepsJoin(Init(submitters, workers, pausers, waiters), actions);
  }

  // ---------- the aging thread ----------

  /** Destroy has cleared the aging flag. */
  predicate PastClear(d: Destroyer)
  {
    d.WakeAging? || d.JoinAging? || PastAging(d)
  }

  /** Destroy is done with the aging thread. */
  predicate PastAging(d: Destroyer)
  {
    || d.DrainLock? || d.DrainCheck? || d.DrainSleep? || d.DrainAsleep? || d.DrainUnlock?
    || d.Join? || d.Free? || d.Gone?
  }

  /** The aging thread runs only while the flag is up, or while destroy waits for it. */
  ghost predicate AgerSound(s: Pool)
  {
    && (s.ager.AgeOff? || s.agingEnabled || s.destroyer.WakeAging? || s.destroyer.JoinAging?)
    && (PastAging(s.destroyer) ==> s.ager.AgeOff?)
    && (PastClear(s.destroyer) ==> !s.agingEnabled)
  }

  predicate KeepsAging(a: Action)
  {
    a != Happen(DisableAging)
  }

  lemma StepKeepsAger(s: Pool, a: Action)
    requires |s.workers| == |s.busy| && AgerSound(s) && KeepsAging(a)
    ensures AgerSound(Step(s, a))
  {
    match a
    case Destroy => DestroyKeepsAger(s);
    case Age(n) => assert AgeStep(s, n).destroyer == s.destroyer;
    case Work(w, wake) => if w < |s.workers| { WorkKeepsAger(s, w, wake); }
    case Submit(i, p, wake) => if i < |s.submitters| { assert SubmitStep(s, i, p, wake).ager == s.ager; }
    case _ =>
  }

  lemma DestroyKeepsAger(s: Pool)
    requires AgerSound(s)
    ensures AgerSound(DestroyStep(s))
  {
  }

  lemma WorkKeepsAger(s: Pool, w: nat, wake: nat)
    requires w < |s.workers| == |s.busy| && AgerSound(s)
    ensures AgerSound(WorkStep(s, w, wake))
  {
  }

  lemma {:induction false} RunKeepsAger(s: Pool, actions: seq<Action>)
    requires |s.workers| == |s.busy| && AgerSound(s)
    requires forall m :: 0 <= m < |actions| ==> KeepsAging(actions[m])
    ensures AgerSound(Run(s, actions))
  {
    if actions != [] {
      var last := |actions| - 1;
      RunKeepsAger(s, actions[..last]);
      StepKeepsAger(Run(s, actions[..last]), actions[last]);
    }
  }

  /**
   * From any state before destroy in which the aging thread is enabled or gone, over any run in which no client
   * disables it beside destroy: past its call of disable_aging, destroy finds the flag down and the thread gone.
   */
  lemma DestroyJoinsAging(s: Pool, actions: seq<Action>)
    requires |s.workers| == |s.busy| && s.destroyer.NotCalled? && (s.ager.AgeOff? || s.agingEnabled)
    requires forall m :: 0 <= m < |actions| ==> KeepsAging(actions[m])
    ensures var e := Run(s, actions); PastAging(e.destroyer) ==> e.ager.AgeOff? && !e.agingEnabled
  {
    RunKeepsAger(s, actions);
  }
}
