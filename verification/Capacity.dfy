/** The capacity over any run of queue operations that inserts only through pq_try_push. */
module Capacity {
  import opened PriorityLanes
  import opened Overtaking

  datatype Bounded<T> = Bounded(lanes: Lanes<T>, cap: nat)

  /** A queue operation, or pq_set_max_tasks. */
  datatype Request<T> = Perform(op: Op<T>) | SetCap(cap: nat)

  /** The authoritative check of pq_try_push: zero means no limit. */
  predicate Full<T>(b: Bounded<T>)
  {
    b.cap != 0 && Size(b.lanes) >= b.cap
  }

  function Handle<T>(b: Bounded<T>, r: Request<T>): Bounded<T>
  {
    match r
    case SetCap(cap) => b.(cap := cap)
    case Perform(op) => if op.Submit? && Full(b) then b else b.(lanes := Apply(b.lanes, op))
  }

  function HandleAll<T>(b: Bounded<T>, rs: seq<Request<T>>): Bounded<T>
  {
    if rs == [] then b else Handle(HandleAll(b, rs[..|rs| - 1]), rs[|rs| - 1])
  }

  /** The size of the queue when the capacity was last changed in a run, or when the run began. */
  function SizeAtChange<T>(b: Bounded<T>, rs: seq<Request<T>>): nat
  {
    if rs == [] then Size(b.lanes)
    else
      var before := rs[..|rs| - 1];
      if rs[|rs| - 1].SetCap? then Size(HandleAll(b, before).lanes) else SizeAtChange(b, before)
  }

  /** How many tasks a request adds to the queue: 1, 0 or -1. */
  function Growth<T>(b: Bounded<T>, r: Request<T>): int
  {
    if r.SetCap? then 0
    else match r.op
      case Submit(_, _) => if Full(b) then 0 else 1
      case Serve => if Size(b.lanes) == 0 then 0 else -1
      case Age(_, _) => 0
  }

  lemma HandleGrowth<T>(b: Bounded<T>, r: Request<T>)
    ensures Size(Handle(b, r).lanes) == Size(b.lanes) + Growth(b, r)
  {
    if r.Perform? && r.op.Age? && r.op.src < HIGH && r.op.n <= |b.lanes[r.op.src]| {
      PromoteKeepsSize(b.lanes, r.op.src, r.op.n);
    }
  }

  function Max(a: nat, b: nat): nat
  {
    if a < b then b else a
  }

  /** While a capacity is set, the size exceeds it only by what was there when it was set. */
  lemma {:induction false} SizeWithinCapacity<T>(b: Bounded<T>, rs: seq<Request<T>>)
    ensures var e := HandleAll(b, rs);
            e.cap != 0 ==> Size(e.lanes) <= Max(e.cap, SizeAtChange(b, rs))
  {
    if rs != [] {
      var before := rs[..|rs| - 1];
      SizeWithinCapacity(b, before);
      HandleGrowth(HandleAll(b, before), rs[|rs| - 1]);
    }
  }

  predicate KeepsCap<T>(rs: seq<Request<T>>)
  {
    forall m :: 0 <= m < |rs| ==> rs[m].Perform?
  }

  function Departures<T>(b: Bounded<T>, rs: seq<Request<T>>): nat
  {
    if rs == [] then 0
    else
      var before := rs[..|rs| - 1];
      Departures(b, before) + if Growth(HandleAll(b, before), rs[|rs| - 1]) < 0 then 1 else 0
  }

  /**
   * A queue above its capacity never grows: as long as it stays at or above the capacity it refuses
   * every push, so its size falls by exactly the tasks served.
   */
  lemma {:induction false} AboveCapacityOnlyShrinks<T>(b: Bounded<T>, rs: seq<Request<T>>)
    requires Full(b) && KeepsCap(rs)
    ensures var e := HandleAll(b, rs);
            && e.cap == b.cap && Size(e.lanes) <= Size(b.lanes)
            && (Size(e.lanes) > b.cap ==> Size(e.lanes) == Size(b.lanes) - Departures(b, rs))
  {
    if rs != [] {
      var before := rs[..|rs| - 1];
      AboveCapacityOnlyShrinks(b, before);
      HandleGrowth(HandleAll(b, before), rs[|rs| - 1]);
    }
  }

  /** The operations that the requests of a run perform: refused pushes are left out. */
  function Performed<T>(b: Bounded<T>, rs: seq<Request<T>>): seq<Op<T>>
  {
    if rs == [] then []
    else
      var before, r := rs[..|rs| - 1], rs[|rs| - 1];
      Performed(b, before) +
      if r.Perform? && !(r.op.Submit? && Full(HandleAll(b, before))) then [r.op] else []
  }

  /** A run of requests leaves the lanes as the operations it performs do. */
  lemma {:induction false} PerformedAll<T>(b: Bounded<T>, rs: seq<Request<T>>)
    ensures HandleAll(b, rs).lanes == ApplyAll(b.lanes, Performed(b, rs))
  {
    if rs != [] {
      var before, r := rs[..|rs| - 1], rs[|rs| - 1];
      PerformedAll(b, before);
      var ops := Performed(b, before);
      if r.Perform? && !(r.op.Submit? && Full(HandleAll(b, before))) {
        ApplyLast(b.lanes, ops, r.op);
      } else {
        assert Performed(b, rs) == ops + [] == ops;
      }
    }
  }

  lemma ApplyLast<T>(q: Lanes<T>, ops: seq<Op<T>>, op: Op<T>)
    ensures ApplyAll(q, ops + [op]) == Apply(ApplyAll(q, ops), op)
  {
    TrackConcat(q, ops, [op], Served);
    assert [op][1..] == [];
  }
}
