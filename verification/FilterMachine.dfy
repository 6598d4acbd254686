/** The filter lock on its shared arrays, updated in place, one access of one thread at a time. */
module FilterMachine {
  import opened CriticalSection
  import opened FilterLock

  class Machine {
    const n: nat
    const iter: nat
    var level: array<int>
    var victim: array<int>
    var pcs: array<Pc>
    var count: int
    var shutdown: bool
    ghost var done: nat

    ghost predicate Valid()
      reads this, level, victim, pcs
    {
      && level.Length == victim.Length == pcs.Length == n && level != victim
      && WellFormed(Snapshot())
    }

    ghost function Snapshot(): State
      reads this, level, victim, pcs
    {
      State(level[..], victim[..], pcs[..], Tally(count, shutdown, done))
    }

    constructor (n: nat, iter: nat)
      ensures Valid() && Snapshot() == Init(n) && this.n == n && this.iter == iter
      ensures fresh(level) && fresh(victim) && fresh(pcs)
    {
      this.n, this.iter := n, iter;
      level := new int[n](_ => 0);
      victim := new int[n](_ => 0);
      pcs := new Pc[n](_ => Climbing(n, 1));
      count, shutdown, done := 0, false, 0;
      new;
      assert Snapshot() == Init(n);
    }

    /** Thread t, inside the entry protocol, performs its next shared access. */
    method Climb(t: nat)
      requires Valid() && t < n && pcs[t].Try?
      modifies level, victim, pcs
      ensures Valid() && Snapshot() == TryStep(old(Snapshot()), t)
    {
      ghost var s := Snapshot();
      match pcs[t].at
      case SetLevel(i) =>
        level[t] := i;
        pcs[t] := Try(SetVictim(i));
      case SetVictim(i) =>
        victim[i] := t;
        pcs[t] := Try(Scan(i, 0));
      case Scan(i, k) =>
        if k == n {
          pcs[t] := Climbing(n, i + 1);
        } else if k != t && level[k] >= i {
          pcs[t] := Try(ReadVictim(i));
        } else {
          pcs[t] := Try(Scan(i, k + 1));
        }
      case ReadVictim(i) =>
        pcs[t] := if victim[i] == t then Try(Scan(i, 0)) else Climbing(n, i + 1);
      assert Snapshot() == TryStep(s, t);
      assert Snapshot() == FilterLock.Step(s, iter, t);
    }

    /** Thread t, inside the critical section or the loop tail, performs its next shared access. */
    method Work(t: nat)
      requires Valid() && t < n && pcs[t].Do?
      modifies `count, `shutdown, `done, level, pcs
      ensures Valid() && Snapshot() == DoStep(old(Snapshot()), iter, t)
    {
      ghost var s := Snapshot();
      match pcs[t].body
      case ReadCount => pcs[t] := Do(WriteCount(count));
      case WriteCount(temp) =>
        count, done := temp + 1, done + 1;
        pcs[t] := Do(TestCount);
      case TestCount => pcs[t] := Do(if count > iter then RaiseStop else Body.Unlock);
      case RaiseStop =>
        shutdown := true;
        pcs[t] := Do(Body.Unlock);
      case Unlock =>
        level[t] := 0;
        pcs[t] := Do(TestStop);
      case TestStop => pcs[t] := if shutdown then Do(Stopped) else Climbing(n, 1);
      case Stopped => pcs[t] := Do(Stopped);
      assert Snapshot() == DoStep(s, iter, t);
      assert Snapshot() == FilterLock.Step(s, iter, t);
    }

    /** Run any schedule; the threads never own the lock together and lose no update. */
    method Execute(schedule: seq<nat>)
      requires Valid() && Inv(Snapshot(), iter)
      modifies `count, `shutdown, `done, level, victim, pcs
      ensures Valid() && Snapshot() == Run(old(Snapshot()), iter, schedule)
      ensures Inv(Snapshot(), iter) && Exclusive(pcs[..]) && count == done
    {
      for i := 0 to |schedule|
        invariant Valid() && Snapshot() == Run(old(Snapshot()), iter, schedule[..i])
      {
        assert schedule[..i + 1][..i] == schedule[..i];
        var t := schedule[i];
        if t < n {
          if pcs[t].Try? {
            Climb(t);
          } else {
            Work(t);
          }
        }
      }
      assert schedule[..|schedule|] == schedule;
      RunKeepsInv(old(Snapshot()), iter, schedule);
      OwnersAreWinners(Snapshot(), iter);
    }
  }
}
