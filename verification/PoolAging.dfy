/** What the aging thread does to the queue of the pool, one pass at a time and over whole runs. */
module PoolAging {
  import opened PriorityLanes
  import opened Counting
  import opened Deadline
  import opened ThreadPool
  import opened PoolStamps
  import opened PoolTheorems
  import opened PoolQueue
  import opened PoolCalls
  import Aging
  import Capacity
  import Q = Overtaking

  // ---------- the operations of one more step ----------

  /** The queue operation that a step performs, if any. */
  function StepOps(s: Pool, a: Action, asked: Priority): seq<Q.Op<nat>>
  {
    Taken(Request(s, a, asked), Capacity.Full(Bounded(s)))
  }

  /** The operation of a request, unless it is a push into a full queue. */
  function Taken(r: seq<Capacity.Request<nat>>, full: bool): seq<Q.Op<nat>>
  {
    if r == [] || r[0].SetCap? || (r[0].op.Submit? && full) then [] else [r[0].op]
  }

  lemma AtMostOneRequest(s: Pool, a: Action, asked: Priority)
    ensures |Request(s, a, asked)| <= 1
  {
  }

  lemma RequestsExtend(s: Pool, actions: seq<Action>, a: Action)
    requires |s.workers| == |s.busy|
    ensures Requests(s, actions + [a]) ==
            Requests(s, actions) + Request(Run(s, actions), a, AskedBy(s, actions, a))
  {
    assert (actions + [a])[..|actions|] == actions;
  }

  lemma PerformLast(b: Capacity.Bounded<nat>, rs: seq<Capacity.Request<nat>>, r: seq<Capacity.Request<nat>>)
    requires |r| <= 1
    ensures Capacity.Performed(b, rs + r) ==
            Capacity.Performed(b, rs) + Taken(r, Capacity.Full(Capacity.HandleAll(b, rs)))
  {
    if r == [] {
      assert rs + r == rs;
    } else {
      assert (rs + r)[..|rs + r| - 1] == rs;
    }
  }

  lemma OpsExtend(s: Pool, actions: seq<Action>, a: Action)
    requires Sane(s)
    ensures QueueOps(s, actions + [a]) ==
            QueueOps(s, actions) + StepOps(Run(s, actions), a, AskedBy(s, actions, a))
  {
    var rs, r := Requests(s, actions), Request(Run(s, actions), a, AskedBy(s, actions, a));
    AtMostOneRequest(Run(s, actions), a, AskedBy(s, actions, a));
    RequestsExtend(s, actions, a);
    PoolRefinesQueue(s, actions);
    PerformLast(Bounded(s), rs, r);
  }

  lemma TrackLast(q: Lanes<nat>, ops: seq<Q.Op<nat>>, last: seq<Q.Op<nat>>, pl: Q.Place)
    requires Q.Holds(q, pl) && |last| <= 1
    ensures var r := Q.Track(q, ops, pl);
            Q.Track(q, ops + last, pl) == if last == [] then r else Q.Move(Q.ApplyAll(q, ops), last[0], r)
  {
    if last == [] {
      assert ops + last == ops;
    } else {
      Q.TrackConcat(q, ops, last, pl);
      assert last[1..] == [];
      if Q.Track(q, ops, pl).Place? {
        Q.MoveFollowsTask(Q.ApplyAll(q, ops), last[0], Q.Track(q, ops, pl));
      }
    }
  }

  // ---------- one pass ----------

  /** Where a task that stood in lane `was` when the pass began may stand when the thread has come to x. */
  predicate Raised(x: Ager, was: Priority, now: Priority)
  {
    match x
    case AgeCheck => now == was
    case AgeClock(src) => src < HIGH && (now == was || (src == LOW && was == MEDIUM && now == HIGH))
    case AgeRead(src, _) => src < HIGH && (now == was || (src == LOW && was == MEDIUM && now == HIGH))
    case AgeMove(src, _) => src < HIGH && (now == was || (src == LOW && was == MEDIUM && now == HIGH))
    case AgeCast(src) => src < HIGH && (now == was || (was == MEDIUM && now == HIGH) || (src == LOW && now == was + 1))
    case AgeBetween => now == was || (was == MEDIUM && now == HIGH)
    case AgeTop => now == was || now == was + 1
    case AgeOff => now == was || now == was + 1
  }

  lemma AgeRaises(s: Pool, n: nat, was: Priority, pl: Q.Place)
    requires Q.Holds(s.lanes, pl) && pl.Place? && Raised(s.ager, was, pl.p)
    ensures var ops := StepOps(s, Age(n), LOW);
            var r := if ops == [] then pl else Q.Move(s.lanes, ops[0], pl);
            r.Place? && (!AgeNext(s, n).AgeCheck? ==> Raised(AgeNext(s, n), was, r.p))
  {
  }

  /** Pushes and pops leave a task in its lane, or serve it. */
  lemma OthersKeepLane(s: Pool, a: Action, asked: Priority, pl: Q.Place)
    requires Q.Holds(s.lanes, pl) && pl.Place? && !a.Age?
    ensures var ops := StepOps(s, a, asked);
            var r := if ops == [] then pl else Q.Move(s.lanes, ops[0], pl);
            r.Place? ==> r.p == pl.p
  {
  }

  lemma OtherActsKeepAger(s: Pool, a: Action)
    requires |s.workers| == |s.busy| && !a.Age? && !a.Submit? && !a.Work?
    ensures Step(s, a).ager == s.ager || (s.ager.AgeOff? && Step(s, a).ager.AgeTop?)
  {
  }

  lemma OthersKeepAger(s: Pool, a: Action)
    requires |s.workers| == |s.busy| && !a.Age?
    ensures Step(s, a).ager == s.ager || (s.ager.AgeOff? && Step(s, a).ager.AgeTop?)
  {
    match a
    case Submit(i, p, wake) => if i < |s.submitters| { assert SubmitStep(s, i, p, wake).ager == s.ager; }
    case Work(w, wake) => if w < |s.workers| { assert WorkStep(s, w, wake).ager == s.ager; }
    case _ => OtherActsKeepAger(s, a);
  }

  lemma StepRaises(s: Pool, a: Action, asked: Priority, was: Priority, pl: Q.Place)
    requires |s.workers| == |s.busy| && Q.Holds(s.lanes, pl) && pl.Place? && Raised(s.ager, was, pl.p)
    requires !Step(s, a).ager.AgeCheck?
    ensures var ops := StepOps(s, a, asked);
            var r := if ops == [] then pl else Q.Move(s.lanes, ops[0], pl);
            r.Place? ==> Raised(Step(s, a).ager, was, r.p)
  {
    if a.Age? {
      AgeRaises(s, a.n, was, pl);
    } else {
      OthersKeepAger(s, a);
      OthersKeepLane(s, a, asked, pl);
    }
  }

  /** After the first m > 0 actions the next pass has not begun. */
  ghost predicate WithinPass(s: Pool, actions: seq<Action>)
    requires |s.workers| == |s.busy|
  {
    forall m: nat :: 0 < m <= |actions| ==> !At(s, actions, m).ager.AgeCheck?
  }

  lemma PassRaisesLast(s: Pool, before: seq<Action>, a: Action, pl: Q.Place)
    requires Sane(s) && Q.Holds(s.lanes, pl) && pl.Place? && !Step(Run(s, before), a).ager.AgeCheck?
    requires var r := Q.Track(s.lanes, QueueOps(s, before), pl);
             r.Place? ==> Raised(Run(s, before).ager, pl.p, r.p)
    ensures var r := Q.Track(s.lanes, QueueOps(s, before + [a]), pl);
            r.Place? ==> Raised(Step(Run(s, before), a).ager, pl.p, r.p)
  {
    var mid, asked := Run(s, before), AskedBy(s, before, a);
    var ops, r := QueueOps(s, before), Q.Track(s.lanes, QueueOps(s, before), pl);
    LanesFollow(s, before);
    OpsExtend(s, before, a);
    TrackLast(s.lanes, ops, StepOps(mid, a, asked), pl);
    if r.Place? {
      StepRaises(mid, a, asked, pl.p, r);
    }
  }

  lemma {:induction false} PassRaises(s: Pool, actions: seq<Action>, pl: Q.Place)
    requires Sane(s) && s.ager.AgeCheck? && Q.Holds(s.lanes, pl) && pl.Place? && WithinPass(s, actions)
    ensures var r := Q.Track(s.lanes, QueueOps(s, actions), pl);
            r.Place? ==> Raised(Run(s, actions).ager, pl.p, r.p)
  {
    if actions != [] {
      var last := |actions| - 1;
      var before, a := actions[..last], actions[last];
      assert before + [a] == actions;
      forall m: nat | 0 < m <= |before| ensures !At(s, before, m).ager.AgeCheck? {
        AtExtends(s, before, a, m);
        assert !At(s, actions, m).ager.AgeCheck?;
      }
      PassRaises(s, before, pl);
      AtEnd(s, before, a);
      assert !At(s, actions, last + 1).ager.AgeCheck?;
      PassRaisesLast(s, before, a, pl);
    }
  }

  /**
   * One pass of the aging thread, with any steps of the other threads in between: from the start of the pass
   * until the next begins, a task that is not served rises by one lane at most and never falls.
   */
  lemma PassLiftsOnce(s: Pool, actions: seq<Action>, pl: Q.Place)
    requires Sane(s) && s.ager.AgeCheck? && Q.Holds(s.lanes, pl) && pl.Place? && WithinPass(s, actions)
    ensures var r := Q.Track(s.lanes, QueueOps(s, actions), pl);
            r.Place? ==> && pl.p <= r.p <= pl.p + 1 && r.i < |Run(s, actions).lanes[r.p]|
                         && Run(s, actions).lanes[r.p][r.i] == s.lanes[pl.p][pl.i]
  {
    var ops := QueueOps(s, actions);
    PassRaises(s, actions, pl);
    LanesFollow(s, actions);
    if Q.Track(s.lanes, ops, pl).Place? {
      Q.RankOverRun(s.lanes, ops, pl);
    }
  }

  // ---------- aging switched on and off ----------

  /** The thread is between two passes, or gone. */
  predicate AtRest(x: Ager)
  {
    x.AgeOff? || x.AgeTop? || x.AgeCheck?
  }

  lemma RestStep(s: Pool, a: Action, asked: Priority)
    requires |s.workers| == |s.busy| && !s.agingEnabled && AtRest(s.ager) && a != Happen(EnableAging)
    ensures !Step(s, a).agingEnabled && AtRest(Step(s, a).ager)
    ensures forall k :: 0 <= k < |StepOps(s, a, asked)| ==> !StepOps(s, a, asked)[k].Age?
  {
  }

  /** Once aging is off and the thread between two passes, nothing is promoted until aging is enabled again. */
  lemma {:induction false} DisabledNeverPromotes(s: Pool, actions: seq<Action>)
    requires Sane(s) && !s.agingEnabled && AtRest(s.ager) && NeverAges(actions)
    ensures !Run(s, actions).agingEnabled && AtRest(Run(s, actions).ager)
    ensures forall k :: 0 <= k < |QueueOps(s, actions)| ==> !QueueOps(s, actions)[k].Age?
  {
    if actions != [] {
      var last := |actions| - 1;
      var before, a := actions[..last], actions[last];
      assert before + [a] == actions;
      DisabledNeverPromotes(s, before);
      OpsExtend(s, before, a);
      RestStep(Run(s, before), a, AskedBy(s, before, a));
    }
  }

  /** Promotions that the pass in progress may still perform. */
  function PassLeft(x: Ager): nat
  {
    match x
    case AgeClock(src) => if src == MEDIUM then 2 else 1
    case AgeRead(src, _) => if src == MEDIUM then 2 else 1
    case AgeMove(src, _) => if src == MEDIUM then 2 else 1
    case AgeCast(src) => if src == MEDIUM then 1 else 0
    case AgeBetween => 1
    case _ => 0
  }

  predicate Promotes(op: Q.Op<nat>)
  {
    op.Age?
  }

  lemma AgeRunsOut(s: Pool, n: nat)
    requires !s.agingEnabled
    ensures PassLeft(AgeNext(s, n)) + Count(Promotes, StepOps(s, Age(n), LOW)) <= PassLeft(s.ager)
  {
  }

  lemma PassRunsOut(s: Pool, a: Action, asked: Priority)
    requires |s.workers| == |s.busy| && !s.agingEnabled && a != Happen(EnableAging)
    ensures !Step(s, a).agingEnabled
    ensures PassLeft(Step(s, a).ager) + Count(Promotes, StepOps(s, a, asked)) <= PassLeft(s.ager)
  {
    if a.Age? {
      AgeRunsOut(s, a.n);
    } else {
      OthersKeepAger(s, a);
    }
  }

  lemma {:induction false} DisabledRunsOut(s: Pool, actions: seq<Action>)
    requires Sane(s) && !s.agingEnabled && NeverAges(actions)
    ensures !Run(s, actions).agingEnabled
    ensures PassLeft(Run(s, actions).ager) + Count(Promotes, QueueOps(s, actions)) <= PassLeft(s.ager)
  {
    if actions != [] {
      var last := |actions| - 1;
      var before, a := actions[..last], actions[last];
      assert before + [a] == actions;
      DisabledRunsOut(s, before);
      OpsExtend(s, before, a);
      var ops := StepOps(Run(s, before), a, AskedBy(s, before, a));
      PassRunsOut(Run(s, before), a, AskedBy(s, before, a));
      CountConcat(Promotes, QueueOps(s, before), ops);
    }
  }

  /**
   * A call that disables aging, until aging is enabled again: the flag stays down, and the thread only
   * ends the pass it is in, with no more than one promotion from each lane.
   */
  lemma DisableCall(s: Pool, actions: seq<Action>)
    requires Sane(s) && NeverAges(actions)
    ensures var s' := EventStep(s, DisableAging);
            && !Run(s', actions).agingEnabled
            && Count(Promotes, QueueOps(s', actions)) <= PassLeft(s.ager) <= 2
  {
    SaneStep(s, Happen(DisableAging));
    var s' := EventStep(s, DisableAging);
    assert Step(s, Happen(DisableAging)) == s' && s'.ager == s.ager;
    DisabledRunsOut(s', actions);
  }

  predicate LeftAging(actions: seq<Action>)
  {
    forall m :: 0 <= m < |actions| ==> !actions[m].Destroy? && actions[m] != Happen(DisableAging)
  }

  ghost predicate Ages(s: Pool)
  {
    s.agingEnabled && !s.ager.AgeOff? && !s.shutdown
  }

  lemma AgesStep(s: Pool, a: Action)
    requires |s.workers| == |s.busy| && Ages(s) && !a.Destroy? && a != Happen(DisableAging)
    ensures Ages(Step(s, a))
  {
  }

  lemma {:induction false} AgesRun(s: Pool, actions: seq<Action>)
    requires |s.workers| == |s.busy| && Ages(s) && LeftAging(actions)
    ensures Ages(Run(s, actions))
  {
    if actions != [] {
      var last := |actions| - 1;
      AgesRun(s, actions[..last]);
      AgesStep(Run(s, actions[..last]), actions[last]);
    }
  }

  /** A call that enables aging before destroy starts the thread, which goes on until disable or destroy. */
  lemma EnableCall(s: Pool, actions: seq<Action>)
    requires Sane(s) && s.destroyer.NotCalled? && s.ager.AgeOff? && LeftAging(actions)
    ensures Ages(Run(EventStep(s, EnableAging), actions))
  {
    SaneFlags(s);
    AgesRun(EventStep(s, EnableAging), actions);
  }

  // ---------- the pass of the thread and the pass of the queue ----------

  function FirstIndex(ids: seq<nat>, id: nat): (k: nat)
    ensures k <= |ids| && (k < |ids| ==> ids[k] == id) && (forall j :: 0 <= j < k ==> ids[j] != id)
  {
    if ids == [] || ids[0] == id then 0 else 1 + FirstIndex(ids[1..], id)
  }

  /** The task with its stamp, if the clock read times[k] for the k-th stamp; zero stands for none. */
  function TaskOf(stamped: seq<nat>, times: seq<Timespec>, id: nat): Aging.Task
    requires |times| == |stamped|
  {
    var k := FirstIndex(stamped, id);
    Aging.Task(id, if k < |times| then times[k] else Timespec(0, 0))
  }

  function Tasks(stamped: seq<nat>, times: seq<Timespec>, lane: seq<nat>): (r: seq<Aging.Task>)
    requires |times| == |stamped|
    ensures |r| == |lane| && forall k :: 0 <= k < |lane| ==> r[k] == TaskOf(stamped, times, lane[k])
  {
    seq(|lane|, k requires 0 <= k < |lane| => TaskOf(stamped, times, lane[k]))
  }

  function View(stamped: seq<nat>, times: seq<Timespec>, q: Lanes<nat>): Lanes<Aging.Task>
    requires |times| == |stamped|
  {
    [Tasks(stamped, times, q[LOW]), Tasks(stamped, times, q[MEDIUM]), Tasks(stamped, times, q[HIGH])]
  }

  /** A task is due for the thread exactly when it is eligible for the queue. */
  lemma DueIsEligible(stamped: seq<nat>, times: seq<Timespec>, now: Timespec, ms: int, id: nat)
    requires |times| == |stamped| && ClockReadings(times) && Normalised(now)
    ensures id in stamped[..OldEnough(times, now, ms)] <==> Aging.Eligible(TaskOf(stamped, times, id), now, ms)
  {
    var due, k := OldEnough(times, now, ms), FirstIndex(stamped, id);
    if k < |times| {
      DueIsFirstStamps(times, now, ms, k);
      assert k < due ==> stamped[..due][k] == id;
    }
  }

  lemma {:induction false} DuePrefixIsEligible(stamped: seq<nat>, times: seq<Timespec>, now: Timespec, ms: int,
                                               lane: seq<nat>)
    requires |times| == |stamped| && ClockReadings(times) && Normalised(now)
    ensures DuePrefix(lane, stamped[..OldEnough(times, now, ms)]) ==
            Aging.EligiblePrefix(Tasks(stamped, times, lane), now, ms)
    decreases |lane|
  {
    if lane != [] {
      DueIsEligible(stamped, times, now, ms, lane[0]);
      DuePrefixIsEligible(stamped, times, now, ms, lane[1..]);
      assert Tasks(stamped, times, lane)[1..] == Tasks(stamped, times, lane[1..]);
    }
  }

  lemma ViewOfPromote(stamped: seq<nat>, times: seq<Timespec>, q: Lanes<nat>, src: Priority, n: nat)
    requires |times| == |stamped| && src < HIGH && n <= |q[src]|
    ensures View(stamped, times, Promote(q, src, n)) == Promote(View(stamped, times, q), src, n)
  {
    var v, v' := View(stamped, times, q), View(stamped, times, Promote(q, src, n));
    forall p: Priority ensures v'[p] == Promote(v, src, n)[p] {
    }
  }

  /** What the thread promotes is what the queue finds eligible at the time the thread read. */
  lemma PromotesEligible(s: Pool, times: seq<Timespec>, now: Timespec, ms: int)
    requires s.ager.AgeMove? && |times| == |s.stamped| && ClockReadings(times) && Normalised(now)
    requires s.ager.due == OldEnough(times, now, ms)
    ensures Promotable(s) == Aging.EligiblePrefix(View(s.stamped, times, s.lanes)[s.ager.src], now, ms)
  {
    DuePrefixIsEligible(s.stamped, times, now, ms, s.lanes[s.ager.src]);
  }

  predicate OnlyAges(actions: seq<Action>)
  {
    forall m :: 0 <= m < |actions| ==> actions[m].Age?
  }

  /** The thread alone may go on: nobody holds the queue, and the pool is not shut down. */
  predicate Undisturbed(s: Pool)
  {
    |s.workers| == |s.busy| && QueueFree(s) && !s.shutdown
  }

  lemma AgeAgain(s: Pool, n: nat, rest: seq<Action>) returns (actions: seq<Action>)
    requires |s.workers| == |s.busy| && OnlyAges(rest)
    ensures OnlyAges(actions) && Run(s, actions) == Run(AgeStep(s, n), rest)
  {
    actions := [Age(n)] + rest;
    RunAppend(s, Age(n), rest);
  }

  lemma MoveStep(s: Pool)
    requires Undisturbed(s) && s.ager.AgeMove? && s.ager.src < HIGH && s.ager.due <= |s.stamped|
    ensures var e, src := AgeStep(s, 0), s.ager.src;
            && Undisturbed(e) && (e.ager == AfterLane(src) || e.ager == AgeCast(src))
            && e.stamped == s.stamped && e.aged == s.aged
            && e.lanes == Promote(s.lanes, src, DuePrefix(s.lanes[src], s.stamped[..s.ager.due]))
  {
    if Promotable(s) == 0 {
      PromoteNothing(s.lanes, s.ager.src);
    }
  }

  lemma CastStep(s: Pool)
    requires Undisturbed(s) && s.ager.AgeCast?
    ensures var e := AgeStep(s, 0);
            && Undisturbed(e) && e.ager == AfterLane(s.ager.src) && e.stamped == s.stamped && e.aged == s.aged
            && e.lanes == s.lanes
  {
  }

  lemma MoveLane(s: Pool) returns (actions: seq<Action>)
    requires Undisturbed(s) && s.ager.AgeMove? && s.ager.src < HIGH && s.ager.due <= |s.stamped|
    ensures OnlyAges(actions)
    ensures var e, src := Run(s, actions), s.ager.src;
            && Undisturbed(e) && e.ager == AfterLane(src) && e.stamped == s.stamped && e.aged == s.aged
            && e.lanes == Promote(s.lanes, src, DuePrefix(s.lanes[src], s.stamped[..s.ager.due]))
  {
    var s1 := AgeStep(s, 0);
    MoveStep(s);
    actions := [];
    if s1.ager.AgeCast? {
      CastStep(s1);
      actions := AgeAgain(s1, 0, []);
    }
    actions := AgeAgain(s, 0, actions);
  }

  /** The promotion of one lane, from its reading of the clock to its end. */
  lemma HalfPass(s: Pool, n: nat) returns (actions: seq<Action>)
    requires Undisturbed(s) && s.ager.AgeClock? && s.ager.src < HIGH && s.aged <= n <= |s.stamped|
    ensures OnlyAges(actions)
    ensures var e, src := Run(s, actions), s.ager.src;
            && Undisturbed(e) && e.ager == AfterLane(src) && e.stamped == s.stamped && e.aged == n
            && e.lanes == Promote(s.lanes, src, DuePrefix(s.lanes[src], s.stamped[..n]))
  {
    var s1 := AgeStep(s, n);
    var s2 := AgeStep(s1, 0);
    actions := MoveLane(s2);
    actions := AgeAgain(s1, 0, actions);
    actions := AgeAgain(s, n, actions);
  }

  lemma Joined(s: Pool, s1: Pool, first: seq<Action>, s2: Pool, s3: Pool, second: seq<Action>)
    returns (actions: seq<Action>)
    requires |s.workers| == |s.busy| && OnlyAges(first) && OnlyAges(second)
    requires s1 == AgeStep(s, 0) && s2 == Run(s1, first) && s3 == AgeStep(s2, 0)
    ensures OnlyAges(actions) && Run(s, actions) == Run(s3, second)
  {
    var later := AgeAgain(s2, 0, second);
    RunConcat(s1, first, later);
    actions := AgeAgain(s, 0, first + later);
  }

  /** Both halves, with n1 and n2 stamps old enough. */
  lemma WholePass(s: Pool, n1: nat, n2: nat) returns (actions: seq<Action>)
    requires Undisturbed(s) && s.ager.AgeCheck? && s.agingEnabled && s.aged <= n1 <= n2 <= |s.stamped|
    ensures OnlyAges(actions) && Run(s, actions).ager.AgeTop?
    ensures var q1 := Promote(s.lanes, MEDIUM, DuePrefix(s.lanes[MEDIUM], s.stamped[..n1]));
            Run(s, actions).lanes == Promote(q1, LOW, DuePrefix(q1[LOW], s.stamped[..n2]))
  {
    var s1 := AgeStep(s, 0);
    var first := HalfPass(s1, n1);
    var s2 := Run(s1, first);
    var s3 := AgeStep(s2, 0);
    var second := HalfPass(s3, n2);
    actions := Joined(s, s1, first, s2, s3, second);
  }

  lemma HalfIsEligible(stamped: seq<nat>, times: seq<Timespec>, q: Lanes<nat>, src: Priority, now: Timespec, ms: int)
    requires |times| == |stamped| && ClockReadings(times) && Normalised(now) && src < HIGH
    ensures var v := View(stamped, times, q);
            View(stamped, times, Promote(q, src, DuePrefix(q[src], stamped[..OldEnough(times, now, ms)]))) ==
            Promote(v, src, Aging.EligiblePrefix(v[src], now, ms))
  {
    DuePrefixIsEligible(stamped, times, now, ms, q[src]);
    ViewOfPromote(stamped, times, q, src, DuePrefix(q[src], stamped[..OldEnough(times, now, ms)]));
  }

  /**
   * A pass that nobody disturbs does to the pool's queue what `pq_aging` does: it promotes what is due in MEDIUM,
   * and then what is due in LOW.
   */
  lemma PassIsQueuePass(s: Pool, times: seq<Timespec>, now1: Timespec, now2: Timespec, ms: int)
    returns (actions: seq<Action>)
    requires Undisturbed(s) && s.ager.AgeCheck? && s.agingEnabled && |times| == |s.stamped| && ClockReadings(times)
    requires Normalised(now1) && Normalised(now2) && !Before(now2, now1) && s.aged <= OldEnough(times, now1, ms)
    ensures OnlyAges(actions) && Run(s, actions).ager.AgeTop?
    ensures View(s.stamped, times, Run(s, actions).lanes) ==
            Aging.PassOver(View(s.stamped, times, s.lanes), now1, now2, ms, false, false, false)
  {
    var n1, n2 := OldEnough(times, now1, ms), OldEnough(times, now2, ms);
    assert times + [] == times;
    DueGrows(times, [], now1, now2, ms);
    actions := WholePass(s, n1, n2);
    HalfIsEligible(s.stamped, times, s.lanes, MEDIUM, now1, ms);
    var q1 := Promote(s.lanes, MEDIUM, DuePrefix(s.lanes[MEDIUM], s.stamped[..n1]));
    HalfIsEligible(s.stamped, times, q1, LOW, now2, ms);
  }

  /** The first pass after aging is enabled, at any times and with any threshold. */
  lemma EnabledPass(s: Pool, times: seq<Timespec>, now1: Timespec, now2: Timespec, ms: int)
    returns (actions: seq<Action>)
    requires Undisturbed(s) && s.destroyer.NotCalled? && s.ager.AgeOff? && |times| == |s.stamped|
    requires ClockReadings(times) && Normalised(now1) && Normalised(now2) && !Before(now2, now1)
    ensures OnlyAges(actions) && Run(EventStep(s, EnableAging), actions).ager.AgeTop?
    ensures View(s.stamped, times, Run(EventStep(s, EnableAging), actions).lanes) ==
            Aging.PassOver(View(s.stamped, times, s.lanes), now1, now2, ms, false, false, false)
  {
    var s0 := EventStep(s, EnableAging);
    var s1 := AgeStep(s0, 0);
    assert s1.lanes == s.lanes && s1.stamped == s.stamped && s1.aged == 0;
    var rest := PassIsQueuePass(s1, times, now1, now2, ms);
    actions := AgeAgain(s0, 0, rest);
  }

  // ---------- after shutdown ----------

  lemma ShutRestStep(s: Pool, a: Action, asked: Priority)
    requires |s.workers| == |s.busy| && s.shutdown && !s.destroyer.NotCalled? && !s.ager.AgeMove?
    ensures Step(s, a).shutdown && !Step(s, a).destroyer.NotCalled? && !Step(s, a).ager.AgeMove?
    ensures forall k :: 0 <= k < |StepOps(s, a, asked)| ==> !StepOps(s, a, asked)[k].Age?
  {
  }

  /** After shutdown no promotion begins: only one that had looked at the flag before may still happen. */
  lemma {:induction false} ShutdownNeverPromotes(s: Pool, actions: seq<Action>)
    requires Sane(s) && s.shutdown && !s.ager.AgeMove?
    ensures Run(s, actions).shutdown && !Run(s, actions).ager.AgeMove?
    ensures forall k :: 0 <= k < |QueueOps(s, actions)| ==> !QueueOps(s, actions)[k].Age?
  {
    if actions != [] {
      var last := |actions| - 1;
      var before, a := actions[..last], actions[last];
      assert before + [a] == actions;
      ShutdownNeverPromotes(s, before);
      OpsExtend(s, before, a);
      SaneRun(s, before);
      SaneFlags(Run(s, before));
      ShutRestStep(Run(s, before), a, AskedBy(s, before, a));
    }
  }
}
