/**
 * The part of `routine` that both lock experiments share: the critical section with its split
 * read and write of `count`, the stop flag, and the do-while tail.  A lock contributes the states
 * `T` of its entry protocol and the shared write that releases it.
 */
module CriticalSection {
  import opened Counting

  datatype Body =
    | ReadCount              // temp = count
    | WriteCount(temp: int)  // count = temp + 1
    | TestCount              // count > ITER
    | RaiseStop              // shutdown = 1
    | Unlock                 // the lock's releasing write
    | TestStop               // while (!shutdown)
    | Stopped

  datatype Phase<T> = Try(at: T) | Do(body: Body)

  /** Shared counter and flag; `done` is a history variable, the number of sections completed. */
  datatype Tally = Tally(count: int, shutdown: bool, done: nat)

  const NoTally := Tally(0, false, 0)

  /** One shared access of a thread that is in `b`; `restart` is where a new round begins. */
  function BodyStep<T>(b: Body, c: Tally, iter: nat, restart: Phase<T>): (Phase<T>, Tally)
  {
    match b
    case ReadCount => (Do(WriteCount(c.count)), c)
    case WriteCount(temp) => (Do(TestCount), c.(count := temp + 1, done := c.done + 1))
    case TestCount => (Do(if c.count > iter then RaiseStop else Unlock), c)
    case RaiseStop => (Do(Unlock), c.(shutdown := true))
    case Unlock => (Do(TestStop), c)
    case TestStop => (if c.shutdown then Do(Stopped) else restart, c)
    case Stopped => (Do(Stopped), c)
  }

  /** Steps from the critical section to the start of the next doorway. */
  function BodyLeft(b: Body): nat
  {
    match b
    case ReadCount => 6
    case WriteCount(_) => 5
    case TestCount => 4
    case RaiseStop => 3
    case Unlock => 2
    case TestStop => 1
    case Stopped => 0
  }

  /** The thread owns the lock: it passed the entry protocol and has not yet released. */
  predicate Owns<T>(pc: Phase<T>)
  {
    pc.Do? && !pc.body.TestStop? && !pc.body.Stopped?
  }

  ghost predicate Exclusive<T>(pcs: seq<Phase<T>>)
  {
    forall i, j :: 0 <= i < |pcs| && 0 <= j < |pcs| && Owns(pcs[i]) && Owns(pcs[j]) ==> i == j
  }

  /** Threads that may still perform a counter update. */
  function MayEnter<T>(stop: bool): Phase<T> -> bool
  {
    (pc: Phase<T>) => pc.Try? || pc.body.ReadCount? || pc.body.WriteCount? || (pc.body.TestStop? && !stop)
  }

  predicate AboutToStop<T>(pc: Phase<T>)
  {
    pc.Do? && (pc.body.TestCount? || pc.body.RaiseStop?)
  }

  ghost predicate Remembers<T>(pcs: seq<Phase<T>>, c: Tally)
  {
    && c.count == c.done
    && forall i :: 0 <= i < |pcs| && pcs[i].Do? && pcs[i].body.WriteCount? ==> pcs[i].body.temp == c.count
  }

  ghost predicate StopIsJustified<T>(pcs: seq<Phase<T>>, c: Tally, iter: nat)
  {
    && (c.shutdown ==> c.count > iter)
    && (forall i :: 0 <= i < |pcs| && pcs[i] == Do(RaiseStop) ==> c.count > iter)
    && (forall i :: 0 <= i < |pcs| && pcs[i] == Do(Stopped) ==> c.shutdown)
    && (c.count > iter && !c.shutdown ==> exists i :: 0 <= i < |pcs| && AboutToStop(pcs[i]))
  }

  ghost predicate Bounded<T>(pcs: seq<Phase<T>>, c: Tally, iter: nat)
  {
    c.count > iter ==> c.count + Count(MayEnter(c.shutdown), pcs) <= iter + |pcs|
  }

  ghost predicate TallyInv<T>(pcs: seq<Phase<T>>, c: Tally, iter: nat)
  {
    Remembers(pcs, c) && StopIsJustified(pcs, c, iter) && Bounded(pcs, c, iter)
  }

  /** Moves inside the entry protocol do not disturb the counter. */
  lemma TryKeepsTally<T>(pcs: seq<Phase<T>>, c: Tally, iter: nat, t: nat, next: Phase<T>)
    requires TallyInv(pcs, c, iter)
    requires t < |pcs| && pcs[t].Try? && (next.Try? || next == Do(ReadCount))
    ensures TallyInv(pcs[t := next], c, iter)
  {
    CountUpdate(MayEnter(c.shutdown), pcs, t, next);
    if c.count > iter && !c.shutdown {
      var i :| 0 <= i < |pcs| && AboutToStop(pcs[i]);
      assert AboutToStop(pcs[t := next][i]);
    }
  }

  lemma BodyKeepsMemory<T>(pcs: seq<Phase<T>>, c: Tally, iter: nat, t: nat, restart: Phase<T>)
    requires Remembers(pcs, c) && Exclusive(pcs)
    requires t < |pcs| && pcs[t].Do? && (restart.Try? || restart == Do(ReadCount))
    ensures var (pc, d) := BodyStep(pcs[t].body, c, iter, restart);
            Remembers(pcs[t := pc], d)
  {
  }

  lemma BodyKeepsStop<T>(pcs: seq<Phase<T>>, c: Tally, iter: nat, t: nat, restart: Phase<T>)
    requires Remembers(pcs, c) && StopIsJustified(pcs, c, iter) && Exclusive(pcs)
    requires t < |pcs| && pcs[t].Do? && (restart.Try? || restart == Do(ReadCount))
    ensures var (pc, d) := BodyStep(pcs[t].body, c, iter, restart);
            StopIsJustified(pcs[t := pc], d, iter)
  {
    var (pc, d) := BodyStep(pcs[t].body, c, iter, restart);
    var next := pcs[t := pc];
    if d.count > iter && !d.shutdown {
      if pcs[t].body.WriteCount? || pcs[t].body.TestCount? {
        assert AboutToStop(next[t]);
      } else {
        var i :| 0 <= i < |pcs| && AboutToStop(pcs[i]);
        assert i != t;
        assert AboutToStop(next[i]);
      }
    }
  }

  lemma BodyKeepsBound<T>(pcs: seq<Phase<T>>, c: Tally, iter: nat, t: nat, restart: Phase<T>)
    requires TallyInv(pcs, c, iter) && Exclusive(pcs)
    requires t < |pcs| && pcs[t].Do? && (restart.Try? || restart == Do(ReadCount))
    ensures var (pc, d) := BodyStep(pcs[t].body, c, iter, restart);
            Bounded(pcs[t := pc], d, iter)
  {
    var (pc, d) := BodyStep(pcs[t].body, c, iter, restart);
    var next := pcs[t := pc];
    CountUpdate(MayEnter(c.shutdown), pcs, t, pc);
    if d.count > iter {
      match pcs[t].body
      case WriteCount(_) =>
        if c.count <= iter {
          CountBelowLength(MayEnter(d.shutdown), next, t);
        }
      case RaiseStop =>
        CountMonotone(MayEnter(d.shutdown), MayEnter(c.shutdown), next);
      case _ =>
    }
  }

  /** One step of the critical section, taken under mutual exclusion, keeps the counter exact. */
  lemma BodyKeepsTally<T>(pcs: seq<Phase<T>>, c: Tally, iter: nat, t: nat, restart: Phase<T>)
    requires TallyInv(pcs, c, iter) && Exclusive(pcs)
    requires t < |pcs| && pcs[t].Do? && (restart.Try? || restart == Do(ReadCount))
    ensures var (pc, d) := BodyStep(pcs[t].body, c, iter, restart);
            TallyInv(pcs[t := pc], d, iter)
  {
    BodyKeepsMemory(pcs, c, iter, t, restart);
    BodyKeepsStop(pcs, c, iter, t, restart);
    BodyKeepsBound(pcs, c, iter, t, restart);
  }

  /** When every thread has stopped the counter overshoots ITER by at least one and at most N. */
  lemma FinalCount<T>(pcs: seq<Phase<T>>, c: Tally, iter: nat)
    requires TallyInv(pcs, c, iter) && |pcs| > 0
    requires forall i :: 0 <= i < |pcs| ==> pcs[i] == Do(Stopped)
    ensures iter + 1 <= c.count <= iter + |pcs| && c.count == c.done
  {
    assert pcs[0] == Do(Stopped);
  }
}
