/** Where a queued task goes over any run of queue operations, and who overtakes it. */
module Overtaking {
  import opened PriorityLanes

  datatype Op<T> = Submit(p: Priority, t: T) | Serve | Age(src: Priority, n: nat)

  function Apply<T>(q: Lanes<T>, op: Op<T>): Lanes<T>
  {
    match op
    case Submit(p, t) => Push(q, p, t)
    case Serve => if Size(q) == 0 then q else Rest(q)
    case Age(src, n) => if src < HIGH && n <= |q[src]| then Promote(q, src, n) else q
  }

  function ApplyAll<T>(q: Lanes<T>, ops: seq<Op<T>>): Lanes<T>
    decreases |ops|
  {
    if ops == [] then q else ApplyAll(Apply(q, ops[0]), ops[1..])
  }

  /** A place in the queue: lane and position; or out of the queue, served. */
  datatype Place = Place(p: Priority, i: nat) | Served

  predicate Holds<T>(q: Lanes<T>, pl: Place)
  {
    pl.Place? ==> pl.i < |q[pl.p]|
  }

  /** Tasks ahead of a place: those before it in its lane and all of the higher lanes. */
  function Rank<T>(q: Lanes<T>, pl: Place): nat
    requires pl.Place?
  {
    pl.i + (if pl.p < HIGH then |q[HIGH]| else 0) + (if pl.p == LOW then |q[MEDIUM]| else 0)
  }

  /** The rank of a place is the position of its task in the order of service. */
  lemma RankIsPosition<T>(q: Lanes<T>, pl: Place)
    requires Holds(q, pl) && pl.Place?
    ensures Rank(q, pl) < |Order(q)| && Order(q)[Rank(q, pl)] == q[pl.p][pl.i]
  {
  }

  /** The number of tasks an operation really promotes out of lane src. */
  function Promoted<T>(q: Lanes<T>, op: Op<T>, src: Priority): nat
  {
    if op.Age? && op.src == src && src < HIGH && op.n <= |q[src]| then op.n else 0
  }

  /** Where the task at a place is after one operation. */
  function Move<T>(q: Lanes<T>, op: Op<T>, pl: Place): Place
    requires Holds(q, pl)
  {
    match pl
    case Served => Served
    case Place(p, i) =>
      match op
      case Submit(_, _) => pl
      case Serve => if p != Top(q) then pl else if i == 0 then Served else Place(p, i - 1)
      case Age(_, _) =>
        if i < Promoted(q, op, p) then Place(p + 1, i)
        else Place(p, i - Promoted(q, op, p) + (if p > LOW then Promoted(q, op, p - 1) else 0))
  }

  /** The task itself moves: the new place holds the same task, and Served means it was the head. */
  lemma MoveFollowsTask<T>(q: Lanes<T>, op: Op<T>, pl: Place)
    requires Holds(q, pl) && pl.Place?
    ensures Holds(Apply(q, op), Move(q, op, pl))
    ensures var pl' := Move(q, op, pl);
            if pl'.Place? then Apply(q, op)[pl'.p][pl'.i] == q[pl.p][pl.i]
            else op.Serve? && Head(q) == q[pl.p][pl.i]
    ensures Move(q, op, pl) == Served <==> op.Serve? && Rank(q, pl) == 0
  {
  }

  /** Change of rank caused by an operation that does not serve: negative for a promoted task. */
  function Overtaken<T>(q: Lanes<T>, op: Op<T>, pl: Place): int
    requires Holds(q, pl) && pl.Place?
  {
    match op
    case Submit(p, _) => if p > pl.p then 1 else 0
    case Serve => 0
    case Age(_, _) =>
      if pl.i < Promoted(q, op, pl.p) then -|q[pl.p + 1]|
      else if pl.p > LOW then Promoted(q, op, pl.p - 1)
      else 0
  }

  /**
   * Exact account of one operation: a pop lowers the rank by one, a push raises it only from a
   * higher lane, a promotion raises it only in the destination lane, and a promoted task overtakes
   * exactly the tasks that were in that lane.
   */
  lemma RankAccount<T>(q: Lanes<T>, op: Op<T>, pl: Place)
    requires Holds(q, pl) && pl.Place? && Move(q, op, pl).Place?
    ensures Rank(Apply(q, op), Move(q, op, pl)) ==
            Rank(q, pl) - (if op.Serve? then 1 else 0) + Overtaken(q, op, pl)
  {
  }

  // ---------- whole runs ----------

  function Track<T>(q: Lanes<T>, ops: seq<Op<T>>, pl: Place): (r: Place)
    requires Holds(q, pl)
    ensures Holds(ApplyAll(q, ops), r)
    decreases |ops|
  {
    if ops == [] then pl
    else
      assert Holds(Apply(q, ops[0]), Move(q, ops[0], pl)) by {
        if pl.Place? { MoveFollowsTask(q, ops[0], pl); }
      }
      Track(Apply(q, ops[0]), ops[1..], Move(q, ops[0], pl))
  }

  function Pops<T>(ops: seq<Op<T>>): nat
  {
    if ops == [] then 0 else (if ops[0].Serve? then 1 else 0) + Pops(ops[1..])
  }

  /** Total overtaking suffered by the task at a place over a run. */
  function OvertakenIn<T>(q: Lanes<T>, ops: seq<Op<T>>, pl: Place): int
    requires Holds(q, pl)
    decreases |ops|
  {
    if ops == [] || pl.Served? then 0
    else
      MoveFollowsTask(q, ops[0], pl);
      Overtaken(q, ops[0], pl) + OvertakenIn(Apply(q, ops[0]), ops[1..], Move(q, ops[0], pl))
  }

  /** Tasks promoted into HIGH over a run. */
  function PromotedToHigh<T>(q: Lanes<T>, ops: seq<Op<T>>): nat
    decreases |ops|
  {
    if ops == [] then 0
    else Promoted(q, ops[0], MEDIUM) + PromotedToHigh(Apply(q, ops[0]), ops[1..])
  }

  lemma {:induction false} ServedStaysServed<T>(q: Lanes<T>, ops: seq<Op<T>>)
    ensures Track(q, ops, Served) == Served
    decreases |ops|
  {
    if ops != [] {
      ServedStaysServed(Apply(q, ops[0]), ops[1..]);
    }
  }

  lemma {:induction false} TrackConcat<T>(q: Lanes<T>, a: seq<Op<T>>, b: seq<Op<T>>, pl: Place)
    requires Holds(q, pl)
    ensures ApplyAll(q, a + b) == ApplyAll(ApplyAll(q, a), b)
    ensures Track(q, a + b, pl) == Track(ApplyAll(q, a), b, Track(q, a, pl))
    decreases |a|
  {
    if a == [] {
      assert a + b == b;
    } else {
      assert (a + b)[1..] == a[1..] + b;
      if pl.Place? { MoveFollowsTask(q, a[0], pl); }
      TrackConcat(Apply(q, a[0]), a[1..], b, Move(q, a[0], pl));
    }
  }

  /** While a task is queued its rank is its first rank, less the pops, plus what overtook it. */
  lemma {:induction false} RankOverRun<T>(q: Lanes<T>, ops: seq<Op<T>>, pl: Place)
    requires Holds(q, pl) && pl.Place? && Track(q, ops, pl).Place?
    ensures Rank(ApplyAll(q, ops), Track(q, ops, pl)) == Rank(q, pl) - Pops(ops) + OvertakenIn(q, ops, pl)
    ensures ApplyAll(q, ops)[Track(q, ops, pl).p][Track(q, ops, pl).i] == q[pl.p][pl.i]
    decreases |ops|
  {
    if ops != [] {
      var q', pl' := Apply(q, ops[0]), Move(q, ops[0], pl);
      MoveFollowsTask(q, ops[0], pl);
      if pl'.Served? {
        ServedStaysServed(q', ops[1..]);
      }
      RankAccount(q, ops[0], pl);
      RankOverRun(q', ops[1..], pl');
    }
  }

  /** Lanes are left upwards only, one lane per promotion. */
  lemma {:induction false} HighStaysHigh<T>(q: Lanes<T>, ops: seq<Op<T>>, i: nat)
    requires i < |q[HIGH]|
    ensures var r := Track(q, ops, Place(HIGH, i)); r.Place? ==> r.p == HIGH
    ensures Track(q, ops, Place(HIGH, i)).Place? ==>
              OvertakenIn(q, ops, Place(HIGH, i)) == PromotedToHigh(q, ops)
    decreases |ops|
  {
    if ops != [] {
      var pl := Place(HIGH, i);
      MoveFollowsTask(q, ops[0], pl);
      var pl' := Move(q, ops[0], pl);
      if pl'.Served? {
        ServedStaysServed(Apply(q, ops[0]), ops[1..]);
      } else {
        HighStaysHigh(Apply(q, ops[0]), ops[1..], pl'.i);
      }
    }
  }

  /**
   * A task at position i of HIGH stays queued for exactly i + (tasks promoted into HIGH since) pops:
   * until then it sits in HIGH at that many places less the pops, and the next pop serves it
   * exactly when that difference is zero.
   */
  lemma HighLeavesExactly<T>(q: Lanes<T>, ops: seq<Op<T>>, i: nat)
    requires i < |q[HIGH]| && Track(q, ops, Place(HIGH, i)).Place?
    ensures var q' := ApplyAll(q, ops);
            var wait := i + PromotedToHigh(q, ops) - Pops(ops);
            && 0 <= wait < |q'[HIGH]| && q'[HIGH][wait] == q[HIGH][i]
            && Track(q, ops, Place(HIGH, i)) == Place(HIGH, wait)
            && (Move(q', Serve, Place(HIGH, wait)) == Served <==> wait == 0)
  {
    RankOverRun(q, ops, Place(HIGH, i));
    HighStaysHigh(q, ops, i);
  }
}
