/** The bakery lock on its shared arrays, updated in place, one access of one thread at a time. */
module BakeryMachine {
  import opened CriticalSection
  import opened BakeryLock

  /** The thread has not yet published its ticket. */
  predicate InDoorway(at: Queueing) {
    at.SetFlag? || at.MaxTest? || at.MaxRead? || at.SetLabel?
  }

  class Machine {
    const n: nat
    const iter: nat
    var flag: array<bool>
    var ticket: array<int>
    var pcs: array<Pc>
    var count: int
    var shutdown: bool
    ghost var done: nat

    ghost predicate Valid()
      reads this, flag, ticket, pcs
    {
      flag.Length == ticket.Length == pcs.Length == n && WellFormed(Snapshot())
    }

    ghost function Snapshot(): State
      reads this, flag, ticket, pcs
    {
      State(flag[..], ticket[..], pcs[..], Tally(count, shutdown, done))
    }

    constructor (n: nat, iter: nat)
      ensures Valid() && Snapshot() == Init(n) && this.n == n && this.iter == iter
      ensures fresh(flag) && fresh(ticket) && fresh(pcs)
    {
      this.n, this.iter := n, iter;
      flag := new bool[n](_ => false);
      ticket := new int[n](_ => 0);
      pcs := new Pc[n](_ => Try(SetFlag));
      count, shutdown, done := 0, false, 0;
      new;
      assert Snapshot() == Init(n);
    }

    /** Thread t, in the doorway, performs its next shared access: raising its flag or taking a ticket. */
    method Enter(t: nat)
      requires Valid() && t < n && pcs[t].Try? && InDoorway(pcs[t].at)
      modifies flag, ticket, pcs
      ensures Valid() && Snapshot() == TryStep(old(Snapshot()), t)
    {
      ghost var s := Snapshot();
      match pcs[t].at
      case SetFlag =>
        flag[t] := true;
        pcs[t] := Try(MaxTest(0, -1));
      case MaxTest(k, max) =>
        if k == n {
          pcs[t] := Try(SetLabel(max));
        } else if ticket[k] > max {
          pcs[t] := Try(MaxRead(k, max));
        } else {
          pcs[t] := Try(MaxTest(k + 1, max));
        }
      case MaxRead(k, max) => pcs[t] := Try(MaxTest(k + 1, ticket[k]));
      case SetLabel(max) =>
        ticket[t] := max + 1;
        pcs[t] := Try(WaitFlag(0));
      assert Snapshot() == TryStep(s, t);
      assert Snapshot() == BakeryLock.Step(s, iter, t);
    }

    /** Thread t, past the doorway, performs its next shared access: one test of one other thread. */
    method Await(t: nat)
      requires Valid() && t < n && pcs[t].Try? && !InDoorway(pcs[t].at)
      modifies pcs
      ensures Valid() && Snapshot() == TryStep(old(Snapshot()), t)
    {
      ghost var s := Snapshot();
      match pcs[t].at
      case WaitFlag(k) =>
        if k == n {
          pcs[t] := Do(ReadCount);
        } else if k != t && flag[k] {
          pcs[t] := Try(WaitLess(k));
        } else {
          pcs[t] := Try(WaitFlag(k + 1));
        }
      case WaitLess(k) => pcs[t] := Try(if ticket[k] < ticket[t] then WaitFlag(0) else WaitEqual(k));
      case WaitEqual(k) =>
        pcs[t] := Try(if ticket[k] == ticket[t] && k < t then WaitFlag(0) else WaitFlag(k + 1));
      assert Snapshot() == TryStep(s, t);
      assert Snapshot() == BakeryLock.Step(s, iter, t);
    }

    /** Thread t, inside the critical section or the loop tail, performs its next shared access. */
    method Work(t: nat)
      requires Valid() && t < n && pcs[t].Do?
      modifies `count, `shutdown, `done, flag, pcs
      ensures Valid() && Snapshot() == DoStep(old(Snapshot()), iter, t)
    {
      ghost var s := Snapshot();
      match pcs[t].body
      case ReadCount => pcs[t] := Do(WriteCount(count));
      case WriteCount(temp) =>
        count, done := temp + 1, done + 1;
        pcs[t] := Do(TestCount);
      case TestCount => pcs[t] := Do(if count > iter then RaiseStop else Body.Unlock);
      case RaiseStop =>
        shutdown := true;
        pcs[t] := Do(Body.Unlock);
      case Unlock =>
        flag[t] := false;
        pcs[t] := Do(TestStop);
      case TestStop => pcs[t] := if shutdown then Do(Stopped) else Try(SetFlag);
      case Stopped => pcs[t] := Do(Stopped);
      assert Snapshot() == DoStep(s, iter, t);
      assert Snapshot() == BakeryLock.Step(s, iter, t);
    }

    /** Run any schedule; the threads never own the lock together and lose no update. */
    method Execute(schedule: seq<nat>)
      requires Valid() && Inv(Snapshot(), iter)
      modifies `count, `shutdown, `done, flag, ticket, pcs
      ensures Valid() && Snapshot() == Run(old(Snapshot()), iter, schedule)
      ensures Inv(Snapshot(), iter) && Exclusive(pcs[..]) && count == done
    {
      for i := 0 to |schedule|
        invariant Valid() && Snapshot() == Run(old(Snapshot()), iter, schedule[..i])
      {
        assert schedule[..i + 1][..i] == schedule[..i];
        var t := schedule[i];
        if t < n {
          if pcs[t].Do? {
            Work(t);
          } else if InDoorway(pcs[t].at) {
            Enter(t);
          } else {
            Await(t);
          }
        }
      }
      assert schedule[..|schedule|] == schedule;
      RunKeepsInv(old(Snapshot()), iter, schedule);
      OwnersExclusive(Snapshot(), iter);
    }
  }
}
