/** Which calls of destroy can strand a task: exactly those that catch a submit inside its window. */
module PoolStranding {
  import opened PriorityLanes
  import opened Counting
  import opened ThreadPool
  import opened PoolAccounts
  import opened PoolWakeups
  import opened PoolTheorems
  import opened PoolShutdown

  /** A submit that has passed the shutdown check and has not pushed yet. */
  predicate InWindow(x: Submitter)
  {
    x.ReadCap? || x.CompareDepth? || x.Create? || x.Enter? || x.CheckAging? || x.Stamp? || x.TryPush?
  }

  ghost predicate WindowOpen(s: Pool)
  {
    exists i :: 0 <= i < |s.submitters| && InWindow(s.submitters[i])
  }

  // ---------- a closed window strands nothing ----------

  /** Shutdown is requested, no submit can push, and workers exit only behind an empty queue. */
  ghost predicate Quiet(s: Pool)
  {
    s.shutdown && !WindowOpen(s) && (Size(s.lanes) > 0 ==> forall w :: 0 <= w < |s.workers| ==> !s.workers[w].Exited?)
  }

  lemma WindowStaysClosed(s: Pool, a: Action)
    requires |s.workers| == |s.busy| && s.shutdown && !WindowOpen(s)
    ensures !WindowOpen(Step(s, a)) && Step(s, a).shutdown
  {
  }

  lemma QuietShrinks(s: Pool, a: Action)
    requires |s.workers| == |s.busy| && Quiet(s)
    ensures Size(Step(s, a).lanes) <= Size(s.lanes)
  {
    match a
    case Submit(i, _, _) => if i < |s.submitters| { assert !InWindow(s.submitters[i]); }
    case Work(_, _) => if Size(s.lanes) > 0 { PopServesInOrder(s.lanes); }
    case Age(_) =>
      if s.ager.AgeMove? && s.ager.src < HIGH {
        PromoteKeepsSize(s.lanes, s.ager.src, Promotable(s));
      }
    case _ =>
  }

  lemma QuietStep(s: Pool, a: Action)
    requires Sane(s) && Quiet(s)
    ensures Quiet(Step(s, a))
  {
    var s' := Step(s, a);
    WindowStaysClosed(s, a);
    QuietShrinks(s, a);
    SaneHeld(s);
    if Size(s'.lanes) > 0 {
      forall w: nat | w < |s.workers| ensures !s'.workers[w].Exited? {
        WorkerStays(s, a, w);
      }
    }
  }

  lemma {:induction false} QuietRun(s: Pool, actions: seq<Action>)
    requires Sane(s) && Quiet(s)
    ensures Quiet(Run(s, actions))
  {
    if actions != [] {
      var last := |actions| - 1;
      QuietRun(s, actions[..last]);
      SaneRun(s, actions[..last]);
      QuietStep(Run(s, actions[..last]), actions[last]);
    }
  }

  lemma QuietUnstranded(s: Pool)
    requires Quiet(s) && |s.workers| > 0
    ensures !Stranded(s)
  {
    if Size(s.lanes) > 0 {
      assert !s.workers[0].Exited?;
    }
  }

  // ---------- workers leave while the destroyer spins ----------

  predicate AtSpin(s: Pool)
  {
    |s.workers| == |s.busy| && s.destroyer.Spin? && s.shutdown && !s.paused
  }

  /** The destroyer spins, the pool is unpaused, and a submit is in its window. */
  ghost predicate Spinning(s: Pool)
  {
    Sane(s) && AtSpin(s) && WindowOpen(s)
  }

  /** More signals are owed or may still be sent than workers doze, one submit not counted. */
  ghost predicate SignalsSuffice(s: Pool)
  {
    Count(Dozing, s.workers) < Count(InWindow, s.submitters) + Count(OwesSignal, s.submitters)
  }

  /** Every worker has exited or sleeps on not_empty, and no owed signal would find a sleeper. */
  ghost predicate Settled(s: Pool)
  {
    && (forall w :: 0 <= w < |s.workers| ==> s.workers[w].Exited? || s.workers[w].PopAsleep?)
    && (AsleepOnQueue(s.workers) ==> Count(OwesSignal, s.submitters) == 0)
  }

  function PauserStage(s: Pool): nat
  {
    if |s.pausers| == 0 || s.pausers[0].WakePaused? then 0 else if s.pausers[0].Ready? then 1 else 2
  }

  /** A step towards a settled pool: the windows and the aging thread stay as they are. */
  ghost predicate Settles(s: Pool, a: Action)
    requires |s.workers| == |s.busy|
  {
    var s' := Step(s, a);
    && !a.Happen? && s'.destroyer.Spin? && !s'.paused && s'.ager == s.ager && s'.stamped == s.stamped
    && (s'.lanes == s.lanes || (Size(s.lanes) > 0 && s'.lanes == Rest(s.lanes)))
    && (forall i :: 0 <= i < |s.submitters| && InWindow(s.submitters[i]) ==> s'.submitters[i] == s.submitters[i])
    && Count(InWindow, s'.submitters) == Count(InWindow, s.submitters)
    && (SignalsSuffice(s) ==> SignalsSuffice(s'))
    && (WorkLeft(s') < WorkLeft(s) || (WorkLeft(s') == WorkLeft(s) && PauserStage(s') < PauserStage(s)))
  }

  lemma WorkKeepsDozing(s: Pool, w: nat, wake: nat)
    requires w < |s.workers| == |s.busy| && s.shutdown
    ensures Count(Dozing, WorkStep(s, w, wake).workers) == Count(Dozing, s.workers)
  {
    CountUpdate(Dozing, s.workers, w, WorkNext(s, w, wake));
  }

  lemma WorkSettles(s: Pool, w: nat)
    requires AtSpin(s) && w < |s.workers| && Unblocked(s, w)
    ensures Settles(s, Work(w, DrainChoice(s)))
  {
    var wake := DrainChoice(s);
    WorkKeepsDozing(s, w, wake);
    if s.workers[w].DrainSignal? {
      SignalLowers(s, w, wake);
    } else {
      WorkLowers(s, w, wake);
    }
    assert Step(s, Work(w, wake)) == WorkStep(s, w, wake);
  }

  lemma WaitSettles(s: Pool, k: nat)
    requires AtSpin(s) && k < |s.waiters| && HoldsDrain(s.waiters[k])
    ensures Settles(s, Wait(k))
  {
    WaitLowers(s, k);
  }

  lemma SignalSettles(s: Pool, i: nat, wake: nat)
    requires AtSpin(s) && i < |s.submitters| && s.submitters[i].Signal? && Sleeps(s.workers, wake)
    ensures Settles(s, Submit(i, LOW, wake))
  {
    assert SubmitNext(s, i, LOW, wake) == Leave(Some(s.submitters[i].id));
    SignalCounts(s, i, wake);
    SumUpdate(WorkerRank, s.workers, wake, PopLock);
  }

  lemma SignalCounts(s: Pool, i: nat, wake: nat)
    requires i < |s.submitters| && s.submitters[i].Signal? && Sleeps(s.workers, wake)
    ensures var s' := SubmitStep(s, i, LOW, wake);
            && Count(InWindow, s'.submitters) == Count(InWindow, s.submitters)
            && Count(OwesSignal, s'.submitters) == Count(OwesSignal, s.submitters) - 1
            && Count(Dozing, s'.workers) == Count(Dozing, s.workers) - 1
  {
    var x' := SubmitNext(s, i, LOW, wake);
    CountUpdate(InWindow, s.submitters, i, x');
    CountUpdate(OwesSignal, s.submitters, i, x');
    CountUpdate(Dozing, s.workers, wake, PopLock);
  }

  lemma BroadcastsKeepDozing(ws: seq<Worker>)
    ensures Count(Dozing, BroadcastPause(ws)) == Count(Dozing, ws)
    ensures Count(Dozing, BroadcastQueue(ws)) <= Count(Dozing, ws)
  {
    CountPointwise(Dozing, BroadcastPause(ws), ws);
    FewerDoze(BroadcastQueue(ws), ws);
  }

  lemma ResumeLowers(ws: seq<Worker>, w: nat)
    requires w < |ws| && ws[w].PauseAsleep?
    ensures Sum(WorkerRank, BroadcastPause(ws)) < Sum(WorkerRank, ws)
  {
    SumUpdate(WorkerRank, ws, w, PauseLock);
    var woken := ws[w := PauseLock];
    forall v | 0 <= v < |ws| ensures WorkerRank(BroadcastPause(ws)[v]) <= WorkerRank(woken[v]) {
      assert BroadcastPause(ws)[v] == WakeFromPause(ws[v]);
    }
    SumMonotone(WorkerRank, BroadcastPause(ws), woken);
  }

  lemma {:induction false} FewerDoze(a: seq<Worker>, b: seq<Worker>)
    requires |a| == |b| && forall w :: 0 <= w < |a| && Dozing(a[w]) ==> Dozing(b[w])
    ensures Count(Dozing, a) <= Count(Dozing, b)
  {
    if a != [] {
      assert forall w :: 0 <= w < |a[1..]| ==> a[1..][w] == a[w + 1] && b[1..][w] == b[w + 1];
      FewerDoze(a[1..], b[1..]);
    }
  }

  /** A worker asleep at the pause gate is woken by a resume. */
  lemma ResumeSettles(s: Pool, w: nat)
    requires AtSpin(s) && |s.pausers| > 0 && QueueFree(s) && PauseFree(s)
    requires w < |s.workers| && s.workers[w].PauseAsleep?
    ensures Settles(s, Control(0, Resume))
  {
    BroadcastsKeepDozing(s.workers);
    ResumeLowers(s.workers, w);
    WakesLower(s.workers);
  }

  /** As long as the pool is not settled, some step without a spurious wakeup brings it closer. */
  lemma SettleStep(s: Pool) returns (a: Action)
    requires Spinning(s) && !Settled(s)
    ensures Settles(s, a)
  {
    if w: nat :| w < |s.workers| && !s.workers[w].Exited? && !Asleep(s.workers[w]) {
      a := AwakeSettles(s, w);
    } else if w: nat :| w < |s.workers| && s.workers[w].PauseAsleep? {
      SanePauser(s);
      assert Paused(s.workers[w]);
      a := Control(0, Resume);
      ResumeSettles(s, w);
    } else {
      CountZero(OwesSignal, s.submitters);
      var i: nat :| i < |s.submitters| && s.submitters[i].Signal?;
      var wake: nat :| wake < |s.workers| && s.workers[wake].PopAsleep?;
      a := Submit(i, LOW, wake);
      SignalSettles(s, i, wake);
    }
  }

  lemma AwakeSettles(s: Pool, w: nat) returns (a: Action)
    requires AtSpin(s) && w < |s.workers| && !s.workers[w].Exited? && !Asleep(s.workers[w])
    ensures Settles(s, a)
  {
    if v: nat :| v < |s.workers| && (HoldsQueue(s.workers[v]) || HoldsPause(s.workers[v])) {
      a := Work(v, DrainChoice(s));
      WorkSettles(s, v);
    } else if k: nat :| s.workers[w].DrainSignal? && k < |s.waiters| && HoldsDrain(s.waiters[k]) {
      a := Wait(k);
      WaitSettles(s, k);
    } else {
      a := Work(w, DrainChoice(s));
      WorkSettles(s, w);
    }
  }

  lemma WindowCounted(s: Pool)
    ensures WindowOpen(s) <==> Count(InWindow, s.submitters) > 0
  {
    CountZero(InWindow, s.submitters);
  }

  /** The windows, the stamps and the aging thread of s are those of e, and signals suffice in e if they do in s. */
  ghost predicate Kept(s: Pool, e: Pool)
  {
    && e.ager == s.ager && e.stamped == s.stamped && |e.submitters| == |s.submitters|
    && (forall i :: 0 <= i < |s.submitters| && InWindow(s.submitters[i]) ==> e.submitters[i] == s.submitters[i])
    && Count(InWindow, e.submitters) == Count(InWindow, s.submitters)
    && (SignalsSuffice(s) ==> SignalsSuffice(e))
  }

  lemma SettlesSpinning(s: Pool, a: Action)
    requires Spinning(s) && Settles(s, a)
    ensures Spinning(Step(s, a)) && Kept(s, Step(s, a))
  {
    SaneStep(s, a);
    SaneFlags(Step(s, a));
    WindowCounted(s);
    WindowCounted(Step(s, a));
  }

  lemma {:induction false} Settle(s: Pool) returns (actions: seq<Action>)
    requires Spinning(s)
    ensures NoSpurious(actions)
    ensures Spinning(Run(s, actions)) && Settled(Run(s, actions)) && Kept(s, Run(s, actions))
    decreases WorkLeft(s), PauserStage(s)
  {
    if Settled(s) {
      actions := [];
    } else {
      var a := SettleStep(s);
      SettlesSpinning(s, a);
      var rest := Settle(Step(s, a));
      RunAppend(s, a, rest);
      actions := [a] + rest;
    }
  }

  function SubmitRank(x: Submitter): nat
  {
    match x
    case Idle => 0
    case Leave(_) => 1
    case Signal(_) => 2
    case Rollback => 2
    case TryPush(_, _) => 3
    case Stamp(_, _) => 4
    case CheckAging(_, _) => 5
    case Enter(_, _) => 6
    case Create(_) => 7
    case CompareDepth(_, _) => 8
    case ReadCap(_) => 9
    case CheckShutdown(_) => 10
  }

  // ---------- a submit of the window pushes and signals ----------

  /** The queue is empty and nobody is left to take from it. */
  ghost predicate Deserted(s: Pool)
  {
    Sane(s) && s.destroyer.Spin? && Size(s.lanes) == 0 && QueueFree(s)
  }

  /** Submitter i is one step closer to its signal and the other threads have not moved. */
  ghost predicate WindowMoves(s: Pool, s': Pool, i: nat)
    requires i < |s.submitters| == |s'.submitters|
  {
    && s'.destroyer == s.destroyer && s'.paused == s.paused && s'.shutdown == s.shutdown
    && s'.workers == s.workers && s'.busy == s.busy && s'.ager == s.ager
    && s'.submitters == s.submitters[i := s'.submitters[i]]
    && SubmitRank(s'.submitters[i]) < SubmitRank(s.submitters[i])
    && if s.submitters[i].TryPush? then s'.submitters[i].Signal?
       else InWindow(s'.submitters[i]) && s'.lanes == s.lanes
  }

  lemma WindowStep(s: Pool, i: nat)
    requires Size(s.lanes) == 0 && QueueFree(s) && CapsReal(s) && i < |s.submitters| && InWindow(s.submitters[i])
    ensures WindowMoves(s, SubmitStep(s, i, LOW, 0), i)
  {
  }

  /** From an empty queue a submit in its window goes on to push and to owe its signal. */
  lemma {:induction false} PushOne(s: Pool, i: nat) returns (actions: seq<Action>)
    requires Deserted(s) && i < |s.submitters| && InWindow(s.submitters[i])
    ensures NoSpurious(actions)
    ensures var e := Run(s, actions);
            && Sane(e) && e.destroyer == s.destroyer && e.paused == s.paused && e.shutdown == s.shutdown
            && e.workers == s.workers && e.busy == s.busy && e.ager == s.ager
            && e.submitters[i].Signal? && e.submitters == s.submitters[i := e.submitters[i]]
    decreases SubmitRank(s.submitters[i])
  {
    var a := Submit(i, LOW, 0);
    var s' := SubmitStep(s, i, LOW, 0);
    SaneCaps(s);
    SaneStep(s, a);
    WindowStep(s, i);
    assert Step(s, a) == s';
    if s.submitters[i].TryPush? {
      actions := [a] + [];
      RunAppend(s, a, []);
    } else {
      var rest := PushOne(s', i);
      RunAppend(s, a, rest);
      actions := [a] + rest;
    }
  }

  /** In a settled pool with a sleeper the queue is empty. */
  lemma SettledIsDeserted(s: Pool)
    requires Spinning(s) && Settled(s) && AsleepOnQueue(s.workers)
    ensures Deserted(s)
  {
    SaneAttended(s);
    CountZero(Heading, s.workers);
  }

  lemma PushCounts(s: Pool, e: Pool, i: nat)
    requires i < |s.submitters| && InWindow(s.submitters[i]) && |e.submitters| == |s.submitters|
    requires e.submitters[i].Signal? && e.submitters == s.submitters[i := e.submitters[i]]
    ensures Count(InWindow, e.submitters) == Count(InWindow, s.submitters) - 1
    ensures Count(OwesSignal, e.submitters) == Count(OwesSignal, s.submitters) + 1
  {
    CountUpdate(InWindow, s.submitters, i, e.submitters[i]);
    CountUpdate(OwesSignal, s.submitters, i, e.submitters[i]);
  }

  /** A settled pool with a sleeper and two windows: one submit pushes. */
  lemma PushFromSettled(s: Pool) returns (actions: seq<Action>)
    requires Spinning(s) && Settled(s) && AsleepOnQueue(s.workers) && Count(InWindow, s.submitters) >= 2
    ensures NoSpurious(actions)
    ensures var e := Run(s, actions);
            && Spinning(e) && e.workers == s.workers && e.ager == s.ager
            && Count(InWindow, e.submitters) == Count(InWindow, s.submitters) - 1
            && Count(OwesSignal, e.submitters) == 1
  {
    SettledIsDeserted(s);
    var i: nat :| i < |s.submitters| && InWindow(s.submitters[i]);
    actions := PushOne(s, i);
    PushCounts(s, Run(s, actions), i);
    WindowCounted(Run(s, actions));
  }

  /** With enough signals every worker exits, without spurious wakeups, before the last push. */
  lemma {:induction false} WorkersExit(s: Pool) returns (actions: seq<Action>)
    requires Spinning(s) && SignalsSuffice(s)
    ensures NoSpurious(actions) && Spinning(Run(s, actions))
    ensures forall w :: 0 <= w < |s.workers| ==> Run(s, actions).workers[w].Exited?
    decreases Count(InWindow, s.submitters)
  {
    actions := SettleAndPush(s);
    var e := Run(s, actions);
    if w: nat :| w < |e.workers| && !e.workers[w].Exited? {
      var rest := WorkersExit(e);
      RunConcat(s, actions, rest);
      actions := actions + rest;
    }
  }

  /** The pool settles; if a worker is left asleep, one submit pushes to wake it. */
  lemma SettleAndPush(s: Pool) returns (actions: seq<Action>)
    requires Spinning(s) && SignalsSuffice(s)
    ensures NoSpurious(actions)
    ensures var e := Run(s, actions);
            && Spinning(e)
            && ((forall w :: 0 <= w < |s.workers| ==> e.workers[w].Exited?) ||
                (SignalsSuffice(e) && Count(InWindow, e.submitters) < Count(InWindow, s.submitters)))
  {
    actions := Settle(s);
    var s1 := Run(s, actions);
    if w: nat :| w < |s1.workers| && s1.workers[w].PopAsleep? {
      CountPositive(Dozing, s1.workers, w);
      var push := PushFromSettled(s1);
      RunConcat(s, actions, push);
      actions := actions + push;
    }
  }

  // ---------- an open window can strand a task ----------

  /** All workers have exited while the destroyer spins; a task is queued or will be. */
  ghost predicate Abandoned(s: Pool)
  {
    && Sane(s) && s.destroyer.Spin?
    && (forall w :: 0 <= w < |s.workers| ==> s.workers[w].Exited?)
    && (WindowOpen(s) || Size(s.lanes) > 0)
  }

  lemma SubmitAdvance(s: Pool, i: nat)
    requires Abandoned(s) && i < |s.submitters| && !s.submitters[i].Idle?
    ensures Abandoned(SubmitStep(s, i, LOW, 0))
    ensures Sum(SubmitRank, SubmitStep(s, i, LOW, 0).submitters) < Sum(SubmitRank, s.submitters)
  {
    SaneStep(s, Submit(i, LOW, 0));
    SaneCaps(s);
    ReturnsSooner(s, i);
    AbandonedSubmit(s, i);
  }

  lemma ReturnsSooner(s: Pool, i: nat)
    requires QueueFree(s) && !AsleepOnQueue(s.workers) && i < |s.submitters| && !s.submitters[i].Idle?
    ensures var s' := SubmitStep(s, i, LOW, 0);
            && s'.workers == s.workers && s'.destroyer == s.destroyer
            && Sum(SubmitRank, s'.submitters) < Sum(SubmitRank, s.submitters)
  {
    SumUpdate(SubmitRank, s.submitters, i, SubmitNext(s, i, LOW, 0));
  }

  lemma AbandonedSubmit(s: Pool, i: nat)
    requires QueueFree(s) && CapsReal(s) && (WindowOpen(s) || Size(s.lanes) > 0)
    requires i < |s.submitters| && !s.submitters[i].Idle?
    ensures var s' := SubmitStep(s, i, LOW, 0); WindowOpen(s') || Size(s'.lanes) > 0
  {
    var s' := SubmitStep(s, i, LOW, 0);
    if j :| 0 <= j < |s.submitters| && InWindow(s.submitters[j]) && j != i {
      assert InWindow(s'.submitters[j]);
    } else if InWindow(s'.submitters[i]) {
      assert WindowOpen(s');
    } else if s.submitters[i].TryPush? {
      PushIntoOrder(s.lanes, s.submitters[i].p, s.submitters[i].id);
    }
  }

  lemma {:induction false} SubmitsReturn(s: Pool) returns (actions: seq<Action>)
    requires Abandoned(s)
    ensures Abandoned(Run(s, actions))
    ensures NoSpurious(actions)
    ensures forall i :: 0 <= i < |s.submitters| ==> Run(s, actions).submitters[i].Idle?
    decreases Sum(SubmitRank, s.submitters)
  {
    if i: nat :| i < |s.submitters| && !s.submitters[i].Idle? {
      SubmitAdvance(s, i);
      var a := Submit(i, LOW, 0);
      assert Step(s, a) == SubmitStep(s, i, LOW, 0);
      var rest := SubmitsReturn(Step(s, a));
      RunAppend(s, a, rest);
      actions := [a] + rest;
    } else {
      actions := [];
    }
  }

  /** Some continuation of s strands a task behind a destroy that has left its spin. */
  ghost predicate CanStrand(s: Pool)
  {
    |s.workers| == |s.busy| &&
    exists actions :: PastSpin(Run(s, actions).destroyer) && Stranded(Run(s, actions))
  }

  /** Some continuation without spurious wakeups does. */
  ghost predicate CanStrandQuietly(s: Pool)
  {
    |s.workers| == |s.busy| &&
    exists actions :: NoSpurious(actions) && PastSpin(Run(s, actions).destroyer) && Stranded(Run(s, actions))
  }

  /** With all submits returned the spin ends and the task is stranded. */
  lemma SpinLeaves(s: Pool)
    requires Abandoned(s) && forall i :: 0 <= i < |s.submitters| ==> s.submitters[i].Idle?
    ensures PastSpin(DestroyStep(s).destroyer) && Stranded(DestroyStep(s))
  {
    SaneAccounts(s);
    CountZero(Registered, s.submitters);
  }

  lemma LeaveAfter(s: Pool, actions: seq<Action>)
    requires |s.workers| == |s.busy| && NoSpurious(actions)
    requires var e := DestroyStep(Run(s, actions)); PastSpin(e.destroyer) && Stranded(e)
    ensures CanStrandQuietly(s)
  {
    var all := actions + [Destroy];
    assert all[..|all| - 1] == actions;
    assert Run(s, all) == DestroyStep(Run(s, actions));
  }

  /** Once all workers have left, the open window strands its task. */
  lemma AbandonedStrands(s: Pool)
    requires Abandoned(s)
    ensures CanStrandQuietly(s)
  {
    var returns' := SubmitsReturn(s);
    SpinLeaves(Run(s, returns'));
    LeaveAfter(s, returns');
  }

  lemma StrandsLater(s: Pool, actions: seq<Action>)
    requires |s.workers| == |s.busy| && NoSpurious(actions) && CanStrandQuietly(Run(s, actions))
    ensures CanStrandQuietly(s)
  {
    var e := Run(s, actions);
    var rest :| NoSpurious(rest) && PastSpin(Run(e, rest).destroyer) && Stranded(Run(e, rest));
    RunConcat(s, actions, rest);
    assert NoSpurious(actions + rest);
  }

  /** From a spinning destroyer, an open window and enough signals, some run strands a task for good. */
  lemma OpenWindowStrands(s: Pool)
    requires Spinning(s) && SignalsSuffice(s)
    ensures CanStrandQuietly(s)
  {
    var exits := WorkersExit(s);
    AbandonedStrands(Run(s, exits));
    StrandsLater(s, exits);
  }

  // ---------- spurious wakeups ----------

  /** A dozing worker is woken for no reason. */
  lemma RouseStep(s: Pool, w: nat) returns (a: Action)
    requires Spinning(s) && w < |s.workers| && Dozing(s.workers[w])
    ensures Spinning(Step(s, a)) && Sum(WorkerRank, Step(s, a).workers) < Sum(WorkerRank, s.workers)
  {
    a := if s.workers[w].PopSleep? then Work(w, 0) else Happen(SpuriousWorker(w));
    var x' := if s.workers[w].PopSleep? then PopAsleep else PopLock;
    assert Step(s, a) == s.(workers := s.workers[w := x']);
    SumUpdate(WorkerRank, s.workers, w, x');
    SaneStep(s, a);
  }

  lemma {:induction false} RouseAll(s: Pool) returns (actions: seq<Action>)
    requires Spinning(s)
    ensures Spinning(Run(s, actions)) && SignalsSuffice(Run(s, actions))
    decreases Sum(WorkerRank, s.workers)
  {
    if w: nat :| w < |s.workers| && Dozing(s.workers[w]) {
      var a := RouseStep(s, w);
      var rest := RouseAll(Step(s, a));
      RunAppend(s, a, rest);
      actions := [a] + rest;
    } else {
      actions := [];
      CountZero(Dozing, s.workers);
      WindowCounted(s);
    }
  }

  /** Two steps into destroy the pool spins. */
  lemma SpinBegins(s: Pool)
    requires Reachable(s) && s.destroyer.NotCalled? && WindowOpen(s)
    ensures var e := Run(DestroyStep(s), [Destroy]);
            && Spinning(e) && e.submitters == s.submitters && e.workers == s.workers && e.lanes == s.lanes
            && e.ager == s.ager && e.pausers == s.pausers
  {
    ReachableStep(s, Destroy);
    ReachableStep(DestroyStep(s), Destroy);
    ReachableSane(DestroyStep(DestroyStep(s)));
    assert [Destroy][..0] == [];
    assert Run(DestroyStep(s), []) == DestroyStep(s);
  }

  /** A stranding run may be put behind any other. */
  lemma CanStrandLater(s: Pool, actions: seq<Action>)
    requires |s.workers| == |s.busy| && CanStrand(Run(s, actions))
    ensures CanStrand(s)
  {
    var e := Run(s, actions);
    var rest :| PastSpin(Run(e, rest).destroyer) && Stranded(Run(e, rest));
    RunConcat(s, actions, rest);
  }

  lemma OpenAtCall(s: Pool)
    requires Reachable(s) && s.destroyer.NotCalled? && WindowOpen(s)
    ensures CanStrand(DestroyStep(s))
  {
    SpinBegins(s);
    var s1 := Run(DestroyStep(s), [Destroy]);
    var rouse := RouseAll(s1);
    OpenWindowStrands(Run(s1, rouse));
    CanStrandLater(s1, rouse);
    CanStrandLater(DestroyStep(s), [Destroy]);
  }

  lemma QuietAtCall(s: Pool)
    requires Sane(s) && s.destroyer.NotCalled? && !WindowOpen(s)
    ensures Quiet(DestroyStep(s))
  {
    SaneFlags(s);
    SaneExits(s);
  }

  lemma ClosedAtCall(s: Pool, actions: seq<Action>)
    requires Reachable(s) && s.destroyer.NotCalled? && |s.workers| > 0 && !WindowOpen(s)
    ensures !Stranded(Run(DestroyStep(s), actions))
  {
    ReachableSane(s);
    SaneStep(s, Destroy);
    QuietAtCall(s);
    QuietRun(DestroyStep(s), actions);
    QuietUnstranded(Run(DestroyStep(s), actions));
  }

  /**
   * A call of destroy on a pool with a worker can strand a task, so that destroy never returns and
   * the task never runs, exactly when some submit is then past its shutdown check and short of its
   * push.  The stranding run may need spurious wakeups.
   */
  lemma DestroyStrandsIff(s: Pool)
    requires Reachable(s) && s.destroyer.NotCalled? && |s.workers| > 0
    ensures CanStrand(DestroyStep(s)) <==> WindowOpen(s)
  {
    if WindowOpen(s) {
      OpenAtCall(s);
    } else {
      forall actions ensures !Stranded(Run(DestroyStep(s), actions)) {
        ClosedAtCall(s, actions);
      }
    }
  }
}
