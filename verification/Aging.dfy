/** The aging passes over stamped tasks: which prefix is promoted, and how soon a task reaches HIGH. */
module Aging {
  import opened Deadline
  import opened PriorityLanes
  import opened Overtaking

  datatype Task = Task(id: nat, stamp: Timespec)

  predicate Eligible(t: Task, now: Timespec, ms: int)
  {
    HasPassedMs(t.stamp, now, ms)
  }

  /** Length of the longest prefix of a lane whose tasks are all eligible. */
  function EligiblePrefix(lane: seq<Task>, now: Timespec, ms: int): (n: nat)
    ensures n <= |lane|
    ensures forall i :: 0 <= i < n ==> Eligible(lane[i], now, ms)
    ensures n < |lane| ==> !Eligible(lane[n], now, ms)
  {
    if lane == [] || !Eligible(lane[0], now, ms) then 0 else 1 + EligiblePrefix(lane[1..], now, ms)
  }

  /** The operation one call of `pq_aging_promote_prefix` performs on the lanes. */
  function AgeOp(q: Lanes<Task>, src: Priority, now: Timespec, ms: int): Op<Task>
  {
    Age(src, EligiblePrefix(q[src], now, ms))
  }

  /** One pass of `pq_aging`: MEDIUM, then LOW; the stops are the three readings of the shutdown flag. */
  function PassOver(q: Lanes<Task>, now1: Timespec, now2: Timespec, ms: int, stop1: bool, stop2: bool, stop3: bool):
      Lanes<Task>
  {
    var q1 := if stop1 then q else Promote(q, MEDIUM, EligiblePrefix(q[MEDIUM], now1, ms));
    if stop2 || stop3 then q1 else Promote(q1, LOW, EligiblePrefix(q1[LOW], now2, ms))
  }

  lemma {:induction false} EligibleFront(lane: seq<Task>, now: Timespec, ms: int, i: nat)
    requires i < |lane| && forall j :: 0 <= j <= i ==> Eligible(lane[j], now, ms)
    ensures i < EligiblePrefix(lane, now, ms)
  {
    if i > 0 {
      EligibleFront(lane[1..], now, ms, i - 1);
    }
  }

  /** A task is promoted exactly when it and every task ahead of it in its lane are eligible. */
  lemma PromotedIff(lane: seq<Task>, now: Timespec, ms: int, i: nat)
    requires i < |lane|
    ensures i < EligiblePrefix(lane, now, ms) <==> forall j :: 0 <= j <= i ==> Eligible(lane[j], now, ms)
  {
    if forall j :: 0 <= j <= i ==> Eligible(lane[j], now, ms) {
      EligibleFront(lane, now, ms, i);
    }
  }

  /** The prefix is all of the eligible tasks exactly when no ineligible task is ahead of an eligible one. */
  lemma PrefixIsAllEligibleIff(lane: seq<Task>, now: Timespec, ms: int)
    ensures (forall i :: 0 <= i < |lane| ==> (i < EligiblePrefix(lane, now, ms) <==> Eligible(lane[i], now, ms)))
       <==> (forall i, j :: 0 <= i < j < |lane| && Eligible(lane[j], now, ms) ==> Eligible(lane[i], now, ms))
  {
    var n := EligiblePrefix(lane, now, ms);
    if forall i, j :: 0 <= i < j < |lane| && Eligible(lane[j], now, ms) ==> Eligible(lane[i], now, ms) {
      forall i | 0 <= i < |lane| && Eligible(lane[i], now, ms) ensures i < n {
        EligibleFront(lane, now, ms, i);
      }
    }
  }

  /** Stamped tasks in submission order: the promoted prefix is exactly the set of eligible tasks. */
  lemma OrderedLanePromotesAllEligible(lane: seq<Task>, now: Timespec, ms: int, i: nat)
    requires i < |lane| && Normalised(now)
    requires forall j :: 0 <= j < |lane| ==> Normalised(lane[j].stamp) && !Unstamped(lane[j].stamp)
    requires forall j, k :: 0 <= j < k < |lane| ==> !Before(lane[k].stamp, lane[j].stamp)
    ensures i < EligiblePrefix(lane, now, ms) <==> Eligible(lane[i], now, ms)
  {
    if Eligible(lane[i], now, ms) {
      forall j | 0 <= j <= i ensures Eligible(lane[j], now, ms) {
        if j < i {
          BeforeIsInstantOrder(now, now);
          PassedMonotone(lane[i].stamp, lane[j].stamp, now, now, ms);
        }
      }
      PromotedIff(lane, now, ms, i);
    }
  }

  // ---------- stamps out of order ----------

  /** A pass at time `now` promotes exactly the eligible tasks of the lane. */
  ghost predicate PromotesExactly(lane: seq<Task>, now: Timespec, ms: int)
  {
    forall i :: 0 <= i < |lane| ==> (i < EligiblePrefix(lane, now, ms) <==> Eligible(lane[i], now, ms))
  }

  /** No stamped task stands behind an unstamped one or behind a younger one. */
  ghost predicate StampsInOrder(lane: seq<Task>)
  {
    forall i, j :: 0 <= i < j < |lane| && !Unstamped(lane[j].stamp) ==>
      !Unstamped(lane[i].stamp) && !Before(lane[j].stamp, lane[i].stamp)
  }

  /** A task that is stamped behind an unstamped or younger one is eligible before the one ahead. */
  lemma OutOfOrderSkips(lane: seq<Task>, i: nat, j: nat)
    requires i < j < |lane| && Normalised(lane[i].stamp) && Normalised(lane[j].stamp) && !Unstamped(lane[j].stamp)
    requires Unstamped(lane[i].stamp) || Before(lane[j].stamp, lane[i].stamp)
    ensures var now := PlusMs(lane[j].stamp, 1);
            Normalised(now) && Eligible(lane[j], now, 1) && !Eligible(lane[i], now, 1) && !PromotesExactly(lane, now, 1)
  {
    var now := PlusMs(lane[j].stamp, 1);
    PlusMsExact(lane[j].stamp, 1);
    PlusMsExact(lane[i].stamp, 1);
    BeforeIsInstantOrder(now, PlusMs(lane[j].stamp, 1));
    BeforeIsInstantOrder(now, PlusMs(lane[i].stamp, 1));
    BeforeIsInstantOrder(lane[j].stamp, lane[i].stamp);
    PassedIffDeadlineReached(lane[j].stamp, now, 1);
    PassedIffDeadlineReached(lane[i].stamp, now, 1);
    PromotedIff(lane, now, 1, j);
  }

  lemma InOrderExact(lane: seq<Task>, now: Timespec, ms: int)
    requires forall k :: 0 <= k < |lane| ==> Normalised(lane[k].stamp)
    requires StampsInOrder(lane) && Normalised(now)
    ensures PromotesExactly(lane, now, ms)
  {
    BeforeIsInstantOrder(now, now);
    forall i, j | 0 <= i < j < |lane| && Eligible(lane[j], now, ms) ensures Eligible(lane[i], now, ms) {
      PassedMonotone(lane[j].stamp, lane[i].stamp, now, now, ms);
    }
    PrefixIsAllEligibleIff(lane, now, ms);
  }

  /** Passes promote exactly the eligible tasks, at all times, if and only if the stamps are in order. */
  lemma PromotesExactlyIff(lane: seq<Task>)
    requires forall k :: 0 <= k < |lane| ==> Normalised(lane[k].stamp)
    ensures (forall now, ms :: Normalised(now) && ms > 0 ==> PromotesExactly(lane, now, ms)) <==> StampsInOrder(lane)
  {
    if StampsInOrder(lane) {
      forall now, ms | Normalised(now) && ms > 0 ensures PromotesExactly(lane, now, ms) {
        InOrderExact(lane, now, ms);
      }
    } else {
      var i, j :| 0 <= i < j < |lane| && !Unstamped(lane[j].stamp) &&
                  (Unstamped(lane[i].stamp) || Before(lane[j].stamp, lane[i].stamp));
      OutOfOrderSkips(lane, i, j);
    }
  }

  /** A task queued while aging was off blocks the one behind it, which is due since two seconds. */
  lemma UnstampedHeadBlocks()
    ensures var lane := [Task(0, Timespec(0, 0)), Task(1, Timespec(5, 0))];
            Eligible(lane[1], Timespec(8, 0), 1000) && EligiblePrefix(lane, Timespec(8, 0), 1000) == 0
  {
  }

  /** Two submits that stamp in one order and push in the other: the older task waits for the younger. */
  lemma YoungerHeadBlocks()
    ensures var lane := [Task(0, Timespec(6, 0)), Task(1, Timespec(5, 0))];
            && Eligible(lane[1], Timespec(6, 500_000_000), 1000)
            && EligiblePrefix(lane, Timespec(6, 500_000_000), 1000) == 0
  {
  }

  /** Every promotion of the run takes stamped tasks only, as eligible ones are. */
  ghost predicate PromotesStamped(q: Lanes<Task>, ops: seq<Op<Task>>)
    decreases |ops|
  {
    if ops == [] then true
    else
      && (forall k :: 0 <= k < |q[LOW]| && k < Promoted(q, ops[0], LOW) ==> !Unstamped(q[LOW][k].stamp))
      && (forall k :: 0 <= k < |q[MEDIUM]| && k < Promoted(q, ops[0], MEDIUM) ==> !Unstamped(q[MEDIUM][k].stamp))
      && PromotesStamped(Apply(q, ops[0]), ops[1..])
  }

  lemma {:induction false} UnstampedPins(q: Lanes<Task>, ops: seq<Op<Task>>, p: Priority, i: nat, j: nat)
    requires i <= j < |q[p]| && Unstamped(q[p][i].stamp) && PromotesStamped(q, ops)
    ensures var r, t := Track(q, ops, Place(p, i)), Track(q, ops, Place(p, j));
            r.Place? ==> t.Place? && r.p == t.p == p && t.i - r.i == j - i
    decreases |ops|
  {
    if ops != [] {
      var q' := Apply(q, ops[0]);
      var r, t := Move(q, ops[0], Place(p, i)), Move(q, ops[0], Place(p, j));
      MoveFollowsTask(q, ops[0], Place(p, i));
      MoveFollowsTask(q, ops[0], Place(p, j));
      if r.Served? {
        ServedStaysServed(q', ops[1..]);
      } else {
        assert p < HIGH ==> Promoted(q, ops[0], p) <= i;
        UnstampedPins(q', ops[1..], p, r.i, t.i);
      }
    }
  }

  /** A push, a pop, or an aging pass over one lane at a time and with a threshold of its own. */
  datatype Event = Enqueue(p: Priority, t: Task) | Dequeue | Pass(src: Priority, now: Timespec, ms: int)

  function OpOf(q: Lanes<Task>, e: Event): Op<Task>
  {
    match e
    case Enqueue(p, t) => Submit(p, t)
    case Dequeue => Serve
    case Pass(src, now, ms) => AgeOp(q, src, now, ms)
  }

  /** The operations that a run of events performs. */
  function OpsOf(q: Lanes<Task>, events: seq<Event>): seq<Op<Task>>
    decreases |events|
  {
    if events == [] then []
    else
      var op := OpOf(q, events[0]);
      [op] + OpsOf(Apply(q, op), events[1..])
  }

  lemma {:induction false} RunsPromoteStamped(q: Lanes<Task>, events: seq<Event>)
    ensures PromotesStamped(q, OpsOf(q, events))
    decreases |events|
  {
    if events != [] {
      var op := OpOf(q, events[0]);
      var rest := OpsOf(Apply(q, op), events[1..]);
      RunsPromoteStamped(Apply(q, op), events[1..]);
      assert ([op] + rest)[1..] == rest;
    }
  }

  /**
   * An unstamped task pins its lane: over any run of pushes, pops and aging passes, until it is served
   * itself, neither it nor any task behind it leaves the lane, and none of these passes another.
   */
  lemma UnstampedPinsLane(q: Lanes<Task>, events: seq<Event>, p: Priority, i: nat, j: nat)
    requires i <= j < |q[p]| && Unstamped(q[p][i].stamp)
    ensures var ops := OpsOf(q, events);
            var r, t := Track(q, ops, Place(p, i)), Track(q, ops, Place(p, j));
            r.Place? ==> t.Place? && r.p == t.p == p && t.i - r.i == j - i
  {
    RunsPromoteStamped(q, events);
    UnstampedPins(q, OpsOf(q, events), p, i, j);
  }

  // ---------- two passes ----------

  /** Pushes and pops by the other threads between two halves of aging passes. */
  predicate Traffic(ops: seq<Op<Task>>)
  {
    forall k :: 0 <= k < |ops| ==> !ops[k].Age?
  }

  /** Everything at or ahead of position i of a lane was eligible at time `now`. */
  ghost predicate EligibleUpTo(q: Lanes<Task>, pl: Place, now: Timespec, ms: int)
    requires Holds(q, pl) && pl.Place?
  {
    forall j :: 0 <= j <= pl.i ==> Eligible(q[pl.p][j], now, ms)
  }

  lemma {:induction false} TrafficKeepsEligible(q: Lanes<Task>, ops: seq<Op<Task>>, pl: Place, now: Timespec, ms: int)
    requires Traffic(ops) && Holds(q, pl) && pl.Place? && EligibleUpTo(q, pl, now, ms)
    ensures var r := Track(q, ops, pl);
            r.Place? ==> r.p == pl.p && EligibleUpTo(ApplyAll(q, ops), r, now, ms)
    decreases |ops|
  {
    if ops != [] {
      var q', pl' := Apply(q, ops[0]), Move(q, ops[0], pl);
      MoveFollowsTask(q, ops[0], pl);
      if pl'.Served? {
        ServedStaysServed(q', ops[1..]);
      } else {
        TrafficKeepsEligible(q', ops[1..], pl', now, ms);
      }
    }
  }

  /** Every queued stamp is a normalised one, as `clock_gettime` and zero are. */
  ghost predicate StampsNormalised(q: Lanes<Task>)
  {
    forall p, i :: 0 <= p < NUM_PRIORITIES && 0 <= i < |q[p]| ==> Normalised(q[p][i].stamp)
  }

  ghost predicate SubmitsNormalised(ops: seq<Op<Task>>)
  {
    forall k :: 0 <= k < |ops| && ops[k].Submit? ==> Normalised(ops[k].t.stamp)
  }

  lemma {:induction false} RunKeepsStamps(q: Lanes<Task>, ops: seq<Op<Task>>)
    requires StampsNormalised(q) && SubmitsNormalised(ops)
    ensures StampsNormalised(ApplyAll(q, ops))
    decreases |ops|
  {
    if ops != [] {
      RunKeepsStamps(Apply(q, ops[0]), ops[1..]);
    }
  }

  /** The second pass promotes everything that the first pass moved into MEDIUM. */
  lemma SecondPassPromotes(q: Lanes<Task>, i: nat, now1: Timespec, now2: Timespec, ms: int)
    requires i < |q[MEDIUM]| && EligibleUpTo(q, Place(MEDIUM, i), now1, ms)
    requires StampsNormalised(q) && Normalised(now1) && Normalised(now2) && !Before(now2, now1)
    ensures Move(q, AgeOp(q, MEDIUM, now2, ms), Place(MEDIUM, i)) == Place(HIGH, i)
  {
    forall j | 0 <= j <= i ensures Eligible(q[MEDIUM][j], now2, ms) {
      BeforeIsInstantOrder(q[MEDIUM][j].stamp, q[MEDIUM][j].stamp);
      PassedMonotone(q[MEDIUM][j].stamp, q[MEDIUM][j].stamp, now1, now2, ms);
    }
    PromotedIff(q[MEDIUM], now2, ms, i);
  }

  /**
   * Anti-starvation.  A task in the eligible prefix of LOW when one pass ages LOW at time now1 is,
   * once the next pass has aged MEDIUM at a later time now2, in HIGH or already served, and stays
   * so whatever follows; the pushes and pops in between are arbitrary.
   */
  lemma TwoPassesReachHigh(q: Lanes<Task>, i: nat, now1: Timespec, now2: Timespec, ms: int,
                           between: seq<Op<Task>>, rest: seq<Op<Task>>)
    requires i < EligiblePrefix(q[LOW], now1, ms) && Traffic(between)
    requires Normalised(now1) && Normalised(now2) && !Before(now2, now1)
    requires StampsNormalised(q) && SubmitsNormalised(between)
    ensures var first := [AgeOp(q, LOW, now1, ms)] + between;
            var second := AgeOp(ApplyAll(q, first), MEDIUM, now2, ms);
            var r := Track(q, first + ([second] + rest), Place(LOW, i));
            r == Served || r.p == HIGH
  {
    var age1 := AgeOp(q, LOW, now1, ms);
    var first := [age1] + between;
    var start := Place(LOW, i);
    MoveFollowsTask(q, age1, start);
    var q1, pl1 := Apply(q, age1), Place(MEDIUM, i);
    assert first[1..] == between;
    assert EligibleUpTo(q1, pl1, now1, ms);
    TrafficKeepsEligible(q1, between, pl1, now1, ms);
    var q2, pl2 := ApplyAll(q, first), Track(q, first, start);
    var tail := [AgeOp(q2, MEDIUM, now2, ms)] + rest;
    TrackConcat(q, first, tail, start);
    assert tail[1..] == rest;
    if pl2.Served? {
      ServedStaysServed(q2, tail);
    } else {
      RunKeepsStamps(q, first);
      SecondPassPromotes(q2, pl2.i, now1, now2, ms);
      MoveFollowsTask(q2, tail[0], pl2);
      HighStaysHigh(Apply(q2, tail[0]), rest, pl2.i);
    }
  }

  lemma {:induction false} TrafficKeepsLane(q: Lanes<Task>, ops: seq<Op<Task>>, pl: Place)
    requires Traffic(ops) && Holds(q, pl) && pl.Place?
    ensures var r := Track(q, ops, pl); r.Place? ==> r.p == pl.p
    decreases |ops|
  {
    if ops != [] {
      MoveFollowsTask(q, ops[0], pl);
      var pl' := Move(q, ops[0], pl);
      if pl'.Served? {
        ServedStaysServed(Apply(q, ops[0]), ops[1..]);
      } else {
        TrafficKeepsLane(Apply(q, ops[0]), ops[1..], pl');
      }
    }
  }

  /** One whole pass, MEDIUM first and LOW second with traffic in between, lifts a task at most one lane. */
  lemma AtMostOneLanePerPass(q: Lanes<Task>, pl: Place, n: nat, m: nat, between: seq<Op<Task>>)
    requires Holds(q, pl) && pl.Place? && Traffic(between)
    ensures var q1 := Apply(q, Age(MEDIUM, n));
            var pl1 := Move(q, Age(MEDIUM, n), pl);
            && Holds(q1, pl1)
            && var r := Move(ApplyAll(q1, between), Age(LOW, m), Track(q1, between, pl1));
            r.Place? ==> pl.p <= r.p <= pl.p + 1
  {
    var age: Op<Task> := Age(MEDIUM, n);
    MoveFollowsTask(q, age, pl);
    TrafficKeepsLane(Apply(q, age), between, Move(q, age, pl));
  }
}
