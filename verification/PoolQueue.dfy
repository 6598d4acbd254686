/**
 * The pool as a client of its queue: every run performs a sequence of queue operations, with the
 * priorities its callers asked for, and its lanes are what the specification of the queue makes of them.
 */
module PoolQueue {
  import opened PriorityLanes
  import opened Counting
  import opened ThreadPool
  import opened PoolAccounts
  import opened PoolTasks
  import opened PoolTheorems
  import Capacity
  import Q = Overtaking

  // ---------- what callers ask for ----------

  /** The priority of a call in progress. */
  function Asking(x: Submitter): Priority
  {
    match x
    case CheckShutdown(p) => p
    case ReadCap(p) => p
    case CompareDepth(p, _) => p
    case Create(p) => p
    case Enter(p, _) => p
    case CheckAging(p, _) => p
    case Stamp(p, _) => p
    case TryPush(p, _) => p
    case _ => LOW
  }

  /** The action starts a call of submitter i. */
  predicate Starts(s: Pool, a: Action, i: nat)
    requires i < |s.submitters|
  {
    a.Submit? && a.i == i && s.submitters[i].Idle?
  }

  /** The priority that submitter i asked for in the latest call it started. */
  function Asked(s: Pool, actions: seq<Action>, i: nat): Priority
    requires |s.workers| == |s.busy| && i < |s.submitters|
  {
    if actions == [] then Asking(s.submitters[i])
    else
      var last := |actions| - 1;
      if Starts(Run(s, actions[..last]), actions[last], i) then actions[last].p else Asked(s, actions[..last], i)
  }

  /** A submit that has not pushed or given up knows its priority. */
  predicate Pushing(x: Submitter)
  {
    !x.Idle? && !x.Signal? && !x.Rollback? && !x.Leave?
  }

  lemma SubmitMovesOne(s: Pool, j: nat, p: Priority, wake: nat, i: nat)
    requires i < |s.submitters| && j < |s.submitters|
    ensures SubmitStep(s, j, p, wake).submitters[i] == if i == j then SubmitNext(s, j, p, wake) else s.submitters[i]
  {
  }

  lemma NextAsks(s: Pool, a: Action, i: nat)
    requires |s.workers| == |s.busy| && i < |s.submitters| && Pushing(Step(s, a).submitters[i])
    ensures Asking(Step(s, a).submitters[i]) == if Starts(s, a, i) then a.p else Asking(s.submitters[i])
    ensures Starts(s, a, i) || Pushing(s.submitters[i])
  {
    match a
    case Submit(j, p, wake) => if j < |s.submitters| { SubmitMovesOne(s, j, p, wake, i); }
    case Work(w, wake) => if w < |s.workers| { WorkHistory(s, w, wake); }
    case _ => OtherHistory(s, a);
  }

  /** What a submit carries is what its caller asked for. */
  lemma {:induction false} CarriesAsked(s: Pool, actions: seq<Action>, i: nat)
    requires |s.workers| == |s.busy| && i < |s.submitters| && Pushing(Run(s, actions).submitters[i])
    ensures Asking(Run(s, actions).submitters[i]) == Asked(s, actions, i)
  {
    if actions != [] {
      var last := |actions| - 1;
      var mid := Run(s, actions[..last]);
      NextAsks(mid, actions[last], i);
      if !Starts(mid, actions[last], i) {
        CarriesAsked(s, actions[..last], i);
      }
    }
  }

  // ---------- the requests of a run ----------

  /** What a step asks of the queue; p is the priority its caller asked for. */
  function Request(s: Pool, a: Action, p: Priority): seq<Capacity.Request<nat>>
  {
    match a
    case Submit(i, _, _) =>
      if i < |s.submitters| && s.submitters[i].TryPush? && QueueFree(s)
      then [Capacity.Perform(Q.Submit(p, s.submitters[i].id))] else []
    case Work(w, _) =>
      if w < |s.workers| && s.workers[w].PopLock? && QueueFree(s) then [Capacity.Perform(Q.Serve)] else []
    case Age(_) =>
      if s.ager.AgeMove? && s.ager.src < HIGH && QueueFree(s)
      then [Capacity.Perform(Q.Age(s.ager.src, Promotable(s)))] else []
    case Happen(e) => if e.SetCap? then [Capacity.SetCap(e.cap)] else []
    case _ => []
  }

  function AskedBy(s: Pool, actions: seq<Action>, a: Action): Priority
    requires |s.workers| == |s.busy|
  {
    if a.Submit? && a.i < |s.submitters| then Asked(s, actions, a.i) else LOW
  }

  /** The requests of a run, refused pushes and empty pops included. */
  function Requests(s: Pool, actions: seq<Action>): seq<Capacity.Request<nat>>
    requires |s.workers| == |s.busy|
  {
    if actions == [] then []
    else
      var last := |actions| - 1;
      var before := actions[..last];
      Requests(s, before) + Request(Run(s, before), actions[last], AskedBy(s, before, actions[last]))
  }

  function Bounded(s: Pool): Capacity.Bounded<nat>
  {
    Capacity.Bounded(s.lanes, s.cap)
  }

  function HandleOne(b: Capacity.Bounded<nat>, rs: seq<Capacity.Request<nat>>): Capacity.Bounded<nat>
  {
    if rs == [] then b else Capacity.Handle(b, rs[0])
  }

  // ---------- one step ----------

  lemma SubmitHandles(s: Pool, i: nat, p: Priority, wake: nat, asked: Priority)
    requires i < |s.submitters| && (s.submitters[i].TryPush? ==> s.submitters[i].p == asked)
    ensures Bounded(SubmitStep(s, i, p, wake)) == HandleOne(Bounded(s), Request(s, Submit(i, p, wake), asked))
  {
  }

  lemma WorkHandles(s: Pool, w: nat, wake: nat)
    requires w < |s.workers| == |s.busy|
    ensures Bounded(WorkStep(s, w, wake)) == HandleOne(Bounded(s), Request(s, Work(w, wake), LOW))
  {
  }

  lemma AgeHandles(s: Pool, n: nat)
    ensures Bounded(AgeStep(s, n)) == HandleOne(Bounded(s), Request(s, Age(n), LOW))
  {
    if s.ager.AgeMove? && s.ager.src < HIGH && Promotable(s) == 0 {
      PromoteNothing(s.lanes, s.ager.src);
    }
  }

  lemma DestroyKeepsQueue(s: Pool)
    requires AccountInv(s)
    ensures Bounded(DestroyStep(s)) == Bounded(s)
  {
    if s.destroyer.Free? {
      NothingLeft(s);
      assert s.lanes == Empty();
    }
  }

  lemma StepHandles(s: Pool, a: Action, asked: Priority)
    requires AccountInv(s)
    requires a.Submit? && a.i < |s.submitters| && s.submitters[a.i].TryPush? ==> s.submitters[a.i].p == asked
    ensures Bounded(Step(s, a)) == HandleOne(Bounded(s), Request(s, a, asked))
    ensures |Request(s, a, asked)| <= 1
  {
    match a
    case Submit(i, p, wake) => if i < |s.submitters| { SubmitHandles(s, i, p, wake, asked); }
    case Work(w, wake) => if w < |s.workers| { WorkHandles(s, w, wake); }
    case Age(n) => AgeHandles(s, n);
    case Destroy => DestroyKeepsQueue(s);
    case Control(k, c) => if k < |s.pausers| { assert Bounded(PauseStep(s, k, c)) == Bounded(s); }
    case Wait(k) => if k < |s.waiters| { assert Bounded(WaitStep(s, k)) == Bounded(s); }
    case Happen(e) => assert EventStep(s, e).lanes == s.lanes;
  }

  // ---------- every run ----------

  lemma HandleLast(b: Capacity.Bounded<nat>, rs: seq<Capacity.Request<nat>>, r: seq<Capacity.Request<nat>>)
    requires |r| <= 1
    ensures Capacity.HandleAll(b, rs + r) == HandleOne(Capacity.HandleAll(b, rs), r)
  {
    if r == [] {
      assert rs + r == rs;
    } else {
      assert (rs + r)[..|rs + r| - 1] == rs;
    }
  }

  /**
   * The pool refines the queue: over any run, with any interleaving, its lanes and its capacity are those
   * of the bounded queue after the requests of the run, each push in the lane its caller asked for.
   */
  lemma {:induction false} PoolRefinesQueue(s: Pool, actions: seq<Action>)
    requires Sane(s)
    ensures Bounded(Run(s, actions)) == Capacity.HandleAll(Bounded(s), Requests(s, actions))
  {
    if actions != [] {
      var last := |actions| - 1;
      var before, a := actions[..last], actions[last];
      var mid := Run(s, before);
      PoolRefinesQueue(s, before);
      SaneRun(s, before);
      SaneAccounts(mid);
      var asked := AskedBy(s, before, a);
      if a.Submit? && a.i < |s.submitters| && mid.submitters[a.i].TryPush? {
        CarriesAsked(s, before, a.i);
      }
      StepHandles(mid, a, asked);
      HandleLast(Bounded(s), Requests(s, before), Request(mid, a, asked));
    }
  }

  /** The queue operations of a run, without the refused pushes. */
  function QueueOps(s: Pool, actions: seq<Action>): seq<Q.Op<nat>>
    requires |s.workers| == |s.busy|
  {
    Capacity.Performed(Bounded(s), Requests(s, actions))
  }

  lemma LanesFollow(s: Pool, actions: seq<Action>)
    requires Sane(s)
    ensures Run(s, actions).lanes == Q.ApplyAll(s.lanes, QueueOps(s, actions))
  {
    PoolRefinesQueue(s, actions);
    Capacity.PerformedAll(Bounded(s), Requests(s, actions));
  }

  /** The task at position i of HIGH in q is still there in q', at i plus the promotions less the pops. */
  ghost predicate HighAdvances(q: Lanes<nat>, q': Lanes<nat>, ops: seq<Q.Op<nat>>, i: nat)
    requires i < |q[HIGH]|
  {
    var wait := i + Q.PromotedToHigh(q, ops) - Q.Pops(ops);
    Q.Track(q, ops, Q.Place(HIGH, i)).Place? ==> 0 <= wait < |q'[HIGH]| && q'[HIGH][wait] == q[HIGH][i]
  }

  lemma HighPlace(q: Lanes<nat>, ops: seq<Q.Op<nat>>, i: nat)
    requires i < |q[HIGH]|
    ensures HighAdvances(q, Q.ApplyAll(q, ops), ops, i)
  {
    if Q.Track(q, ops, Q.Place(HIGH, i)).Place? {
      Q.HighLeavesExactly(q, ops, i);
    }
  }

  /**
   * A task queued at position i of HIGH leaves the pool's queue after exactly i plus the tasks promoted
   * into HIGH since, counted in pops, whatever the threads do.
   */
  lemma HighIsServed(s: Pool, actions: seq<Action>, i: nat)
    requires Sane(s) && i < |s.lanes[HIGH]|
    ensures HighAdvances(s.lanes, Run(s, actions).lanes, QueueOps(s, actions), i)
  {
    LanesFollow(s, actions);
    HighPlace(s.lanes, QueueOps(s, actions), i);
  }

  // ---------- the capacity ----------

  predicate KeepsCap(actions: seq<Action>)
  {
    forall m :: 0 <= m < |actions| ==> !(actions[m].Happen? && actions[m].event.SetCap?)
  }

  /** From any state, until the capacity is set again, the queue exceeds it by no more than it did. */
  lemma {:induction false} PoolWithinCapacity(s: Pool, actions: seq<Action>)
    requires Sane(s) && s.cap != 0 && KeepsCap(actions)
    ensures var e := Run(s, actions);
            e.cap == s.cap && Size(e.lanes) <= Capacity.Max(s.cap, Size(s.lanes))
  {
    if actions != [] {
      var last := |actions| - 1;
      var mid, a := Run(s, actions[..last]), actions[last];
      PoolWithinCapacity(s, actions[..last]);
      SaneRun(s, actions[..last]);
      SaneAccounts(mid);
      var asked := if a.Submit? && a.i < |s.submitters| then Asking(mid.submitters[a.i]) else LOW;
      StepHandles(mid, a, asked);
      if Request(mid, a, asked) != [] {
        Capacity.HandleGrowth(Bounded(mid), Request(mid, a, asked)[0]);
      }
    }
  }

  // ---------- the lane of each task ----------

  /** The action pushes a task. */
  predicate Pushes(s: Pool, a: Action)
    requires |s.workers| == |s.busy|
  {
    |Step(s, a).pushed| > |s.pushed|
  }

  /** The priority its caller asked for, of each task that the run pushed. */
  function AskedFor(s: Pool, actions: seq<Action>): map<nat, Priority>
    requires |s.workers| == |s.busy|
  {
    if actions == [] then map[]
    else
      var last := |actions| - 1;
      var before, a := actions[..last], actions[last];
      var mid := Run(s, before);
      var known := AskedFor(s, before);
      if Pushes(mid, a) then known[Step(mid, a).pushed[|mid.pushed|] := AskedBy(s, before, a)] else known
  }

  /** A step that pushes is that of a submit at its push, and puts its task last in its lane. */
  lemma PushIsSubmit(s: Pool, a: Action)
    requires |s.workers| == |s.busy| && Pushes(s, a)
    ensures a.Submit? && a.i < |s.submitters| && s.submitters[a.i].TryPush?
    ensures var x, s' := s.submitters[a.i], Step(s, a);
            s'.pushed == s.pushed + [x.id] && s'.lanes == Push(s.lanes, x.p, x.id)
  {
    match a
    case Submit(i, p, wake) => assert i < |s.submitters|;
    case Work(w, wake) => if w < |s.workers| { WorkHistory(s, w, wake); }
    case _ => OtherHistory(s, a);
  }

  /** A push lands at the end of the lane that its caller asked for when the call began. */
  lemma PushLandsWhereAsked(s: Pool, actions: seq<Action>, a: Action)
    requires |s.workers| == |s.busy| && Pushes(Run(s, actions), a)
    ensures var mid := Run(s, actions);
            && a.Submit? && a.i < |s.submitters|
            && Step(mid, a).pushed[..|mid.pushed|] == mid.pushed && |Step(mid, a).pushed| == |mid.pushed| + 1
            && Step(mid, a).lanes == Push(mid.lanes, Asked(s, actions, a.i), Step(mid, a).pushed[|mid.pushed|])
  {
    PushIsSubmit(Run(s, actions), a);
    CarriesAsked(s, actions, a.i);
  }

  lemma AgeMovesUp(s: Pool, n: nat, p: Priority, id: nat)
    requires id in AgeStep(s, n).lanes[p]
    ensures id in s.lanes[p] || (p > LOW && s.ager.AgeMove? && id in s.lanes[p - 1])
  {
  }

  /** A task that a step leaves in a lane was there, was pushed there, or was promoted from the lane below. */
  lemma StepMovesUp(s: Pool, a: Action, p: Priority, id: nat)
    requires AccountInv(s) && id in Step(s, a).lanes[p]
    ensures || id in s.lanes[p]
            || (p > LOW && a.Age? && s.ager.AgeMove? && id in s.lanes[p - 1])
            || (Pushes(s, a) && Step(s, a).pushed[|s.pushed|] == id)
  {
    match a
    case Submit(i, q, wake) =>
      if i < |s.submitters| && s.submitters[i].TryPush? && SubmitNext(s, i, q, wake).Signal? {
        assert Pushes(s, a);
        PushIsSubmit(s, a);
      }
    case Work(w, wake) => if w < |s.workers| { WorkHandles(s, w, wake); }
    case Age(n) => AgeMovesUp(s, n, p, id);
    case Destroy => DestroyKeepsQueue(s);
    case _ => StepHandles(s, a, LOW);
  }

  lemma CarriedIsNotQueued(s: Pool, i: nat, p: Priority)
    requires Sane(s) && i < |s.submitters| && s.submitters[i].TryPush?
    ensures s.submitters[i].id !in s.lanes[p]
  {
    var id := s.submitters[i].id;
    SaneTask(s, id);
    CountPositive(Carries(id), s.submitters, i);
    CountIs(id, s.lanes[p]);
  }

  /** A task is pushed once, so it is not queued before. */
  lemma PushIsFresh(s: Pool, a: Action, p: Priority)
    requires Sane(s) && Pushes(s, a)
    ensures Step(s, a).pushed[|s.pushed|] !in s.lanes[p]
  {
    PushIsSubmit(s, a);
    CarriedIsNotQueued(s, a.i, p);
  }

  /** Each queued task stands in a lane not below the priority asked for it, or in exactly that lane. */
  ghost predicate Lifted(asked: map<nat, Priority>, q: Lanes<nat>, exact: bool)
  {
    forall p: Priority, id: nat :: id in q[p] ==>
      id in asked && asked[id] <= p && (exact ==> asked[id] == p)
  }

  lemma StepLifts(s: Pool, actions: seq<Action>, a: Action, exact: bool)
    requires Sane(s) && Lifted(AskedFor(s, actions), Run(s, actions).lanes, exact)
    requires exact ==> Run(s, actions).ager.AgeOff?
    ensures Lifted(AskedFor(s, actions + [a]), Step(Run(s, actions), a).lanes, exact)
  {
    var mid := Run(s, actions);
    assert (actions + [a])[..|actions|] == actions;
    SaneRun(s, actions);
    SaneAccounts(mid);
    forall p: Priority, id: nat | id in Step(mid, a).lanes[p]
      ensures var asked := AskedFor(s, actions + [a]); id in asked && asked[id] <= p && (exact ==> asked[id] == p)
    {
      StepMovesUp(mid, a, p, id);
      if Pushes(mid, a) {
        PushLandsWhereAsked(s, actions, a);
        PushIsFresh(mid, a, p);
      }
    }
  }

  predicate NeverAges(actions: seq<Action>)
  {
    forall m :: 0 <= m < |actions| ==> actions[m] != Happen(EnableAging)
  }

  lemma OffStaysOff(s: Pool, a: Action)
    requires |s.workers| == |s.busy| && s.ager.AgeOff? && a != Happen(EnableAging)
    ensures Step(s, a).ager.AgeOff?
  {
  }

  lemma {:induction false} AgerStaysOff(s: Pool, actions: seq<Action>)
    requires |s.workers| == |s.busy| && s.ager.AgeOff? && NeverAges(actions)
    ensures Run(s, actions).ager.AgeOff?
  {
    if actions != [] {
      var last := |actions| - 1;
      AgerStaysOff(s, actions[..last]);
      OffStaysOff(Run(s, actions[..last]), actions[last]);
    }
  }

  /**
   * In every reachable state a queued task stands in a lane not below the priority that its caller asked
   * for, and in exactly that lane if aging was never enabled.
   */
  lemma {:induction false} LaneIsAskedFor(submitters: nat, workers: nat, pausers: nat, waiters: nat,
                                          actions: seq<Action>)
    ensures var s := Init(submitters, workers, pausers, waiters);
            Lifted(AskedFor(s, actions), Run(s, actions).lanes, NeverAges(actions))
  {
    var s := Init(submitters, workers, pausers, waiters);
    if actions != [] {
      var last := |actions| - 1;
      var before := actions[..last];
      LaneIsAskedFor(submitters, workers, pausers, waiters, before);
      InitSane(submitters, workers, pausers, waiters);
      if NeverAges(before) {
        AgerStaysOff(s, before);
      }
      StepLifts(s, before, actions[last], NeverAges(actions));
      assert before + [actions[last]] == actions;
    }
  }
}
