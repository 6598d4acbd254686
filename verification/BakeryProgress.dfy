/** Progress of the bakery lock: whenever a thread tries, every fair schedule lets a thread in. */
module BakeryProgress {
  import opened CriticalSection
  import opened Counting
  import opened Fairness
  import opened BakeryLock

  predicate Waits(pc: Pc)
  {
    pc.Try? && Ticketed(pc)
  }

  /** The next step of the thread is no part of its wait. */
  predicate Busy(pc: Pc)
  {
    (pc.Try? && !Ticketed(pc)) || pc == Do(TestStop)
  }

  /** Steps before a thread has its label. */
  function DoorwayLeft(n: nat): Pc -> nat
  {
    (pc: Pc) =>
      if pc == Do(TestStop) then 2 * n + 4
      else if pc.Do? then 0
      else match pc.at
        case SetFlag => 2 * n + 3
        case MaxTest(k, _) => if k <= n then 2 * (n - k) + 2 else 2
        case MaxRead(k, _) => if k <= n then 2 * (n - k) + 1 else 2
        case SetLabel(_) => 1
        case _ => 0
  }

  function Left(s: State): nat
  {
    Sum(DoorwayLeft(|s.pcs|), s.pcs)
  }

  /** No other thread that shows its flag is ahead of t. */
  ghost predicate First(s: State, t: nat)
    requires WellFormed(s) && t < |s.pcs|
  {
    forall k: nat :: k < |s.pcs| && k != t && s.flag[k] ==> Less(s, t, k)
  }

  /** Own steps before the first thread owns the lock; a comparison with a lowered flag is stale. */
  function ScanLeft(s: State, t: nat): nat
    requires WellFormed(s) && t < |s.pcs| && Waits(s.pcs[t])
  {
    var n := |s.pcs|;
    match s.pcs[t].at
    case WaitFlag(k) => 3 * (n - k) + 1
    case WaitLess(k) => if s.flag[k] && k != t then 3 * (n - k) else 3 * n + 3
    case WaitEqual(k) => if s.flag[k] && k != t then 3 * (n - k) - 1 else 3 * n + 2
    case _ => 0
  }

  /** Somebody tries and nobody owns the lock. */
  ghost predicate Waiting(s: State, n: nat, iter: nat)
  {
    && Inv(s, iter) && |s.pcs| == n && (exists t :: 0 <= t < n && s.pcs[t].Try?)
    && forall t :: 0 <= t < n ==> !Owns(s.pcs[t])
  }

  ghost predicate Helpful(s: State, h: nat)
  {
    WellFormed(s) && h < |s.pcs| && (Busy(s.pcs[h]) || (Waits(s.pcs[h]) && First(s, h)))
  }

  function Rank(s: State, h: nat): nat
  {
    if WellFormed(s) && h < |s.pcs| && Waits(s.pcs[h]) then ScanLeft(s, h) else 0
  }

  function Move(s: State, iter: nat, t: nat): State
  {
    if WellFormed(s) then Step(s, iter, t) else s
  }

  // ---------- one step ----------

  lemma OwnStepShortens(s: State, iter: nat, t: nat)
    requires WellFormed(s) && t < |s.pcs| && !Owns(s.pcs[t]) && !Owns(Step(s, iter, t).pcs[t])
    ensures var n, s' := |s.pcs|, Step(s, iter, t);
            && (Busy(s.pcs[t]) ==> DoorwayLeft(n)(s'.pcs[t]) < DoorwayLeft(n)(s.pcs[t]))
            && (!Busy(s.pcs[t]) ==> DoorwayLeft(n)(s'.pcs[t]) == DoorwayLeft(n)(s.pcs[t]))
            && (!Busy(s.pcs[t]) ==> s'.flag == s.flag && s'.ticket == s.ticket)
            && (Waits(s.pcs[t]) ==> Waits(s'.pcs[t]))
  {
  }

  /** While nobody owns the lock the doorways get shorter, and only a wait leaves them as they are. */
  lemma StepShortens(s: State, iter: nat, t: nat)
    requires WellFormed(s) && (t < |s.pcs| ==> !Owns(s.pcs[t]) && !Owns(Step(s, iter, t).pcs[t]))
    ensures var s' := Step(s, iter, t);
            && Left(s') <= Left(s)
            && (Left(s') == Left(s) ==> s'.flag == s.flag && s'.ticket == s.ticket)
            && (Left(s') == Left(s) && t < |s.pcs| ==> !Busy(s.pcs[t]))
            && (t < |s.pcs| && Waits(s.pcs[t]) ==> Waits(s'.pcs[t]))
  {
    if t < |s.pcs| {
      var pc' := Step(s, iter, t).pcs[t];
      OwnStepShortens(s, iter, t);
      SumUpdate(DoorwayLeft(|s.pcs|), s.pcs, t, pc');
      assert Step(s, iter, t).pcs == s.pcs[t := pc'];
    }
  }

  /** The own step of the first thread. */
  lemma OwnStepHelps(s: State, iter: nat, h: nat)
    requires WellFormed(s) && h < |s.pcs| && Waits(s.pcs[h]) && First(s, h) && Waits(Step(s, iter, h).pcs[h])
    ensures var s' := Step(s, iter, h); First(s', h) && ScanLeft(s', h) < ScanLeft(s, h)
  {
    var at := s.pcs[h].at;
    if !at.WaitFlag? && s.flag[at.k] && at.k != h {
      assert Less(s, h, at.k);
    }
  }

  lemma StepHelps(s: State, iter: nat, t: nat, h: nat)
    requires WellFormed(s) && (t < |s.pcs| ==> !Owns(s.pcs[t]) && !Owns(Step(s, iter, t).pcs[t])) && Helpful(s, h)
    requires Left(Step(s, iter, t)) == Left(s)
    ensures var s' := Step(s, iter, t);
            Helpful(s', h) && Rank(s', h) + (if t == h then 1 else 0) <= Rank(s, h)
  {
    StepShortens(s, iter, t);
    if t == h {
      OwnStepHelps(s, iter, h);
    } else {
      assert Step(s, iter, t).pcs[h] == s.pcs[h];
    }
  }

  // ---------- somebody helps ----------

  /** The thread with the least (label, number) among those that show their flag. */
  lemma LeastTicket(s: State, t: nat) returns (h: nat)
    requires WellFormed(s) && t < |s.pcs| && s.flag[t]
    ensures h < |s.pcs| && s.flag[h] && First(s, h)
  {
    h := t;
    for u := 0 to |s.pcs|
      invariant h < |s.pcs| && s.flag[h]
      invariant forall v: nat :: v < u && v != h && s.flag[v] ==> Less(s, h, v)
    {
      if s.flag[u] && u != h && Less(s, u, h) {
        h := u;
      }
    }
  }

  lemma SomeoneHelps(s: State, n: nat, iter: nat) returns (h: nat)
    requires Waiting(s, n, iter)
    ensures h < n && Helpful(s, h)
  {
    if u: nat :| u < n && Busy(s.pcs[u]) {
      h := u;
    } else {
      var t: nat :| t < n && s.pcs[t].Try?;
      assert ThreadSound(s, t) && !Busy(s.pcs[t]);
      h := LeastTicket(s, t);
      assert ThreadSound(s, h) && !Busy(s.pcs[h]) && !Owns(s.pcs[h]);
    }
  }

  // ---------- every fair schedule ----------

  ghost function Customers(n: nat, iter: nat): System<State, nat>
  {
    System(n, Itself, (s, t) => Move(s, iter, t), s => Waiting(s, n, iter), s => Left(s), (s, h) => Helpful(s, h),
           (s, h) => Rank(s, h), 3 * n + 4)
  }

  lemma CustomerShortens(s: State, n: nat, iter: nat, t: nat)
    requires Waiting(s, n, iter) && Waiting(Step(s, iter, t), n, iter)
    ensures Left(Step(s, iter, t)) <= Left(s)
  {
    StepShortens(s, iter, t);
  }

  lemma CustomerHelps(s: State, n: nat, iter: nat, t: nat, h: nat)
    requires Waiting(s, n, iter) && Waiting(Step(s, iter, t), n, iter) && Helpful(s, h)
    requires Left(Step(s, iter, t)) == Left(s)
    ensures var s' := Step(s, iter, t);
            Helpful(s', h) && Rank(s', h) + (if t == h then 1 else 0) <= Rank(s, h)
  {
    StepHelps(s, iter, t, h);
  }

  lemma CustomersSound(n: nat, iter: nat)
    ensures Sound(Customers(n, iter))
  {
    var y := Customers(n, iter);
    forall s, t | y.waiting(s) && y.waiting(y.step(s, t)) ensures y.left(y.step(s, t)) <= y.left(s) {
      CustomerShortens(s, n, iter, t);
    }
    forall s | y.waiting(s) ensures exists h: nat :: h < y.n && y.helpful(s, h) {
      var h := SomeoneHelps(s, n, iter);
      assert y.helpful(s, h);
    }
    forall s, t, h: nat | y.waiting(s) && y.helpful(s, h) ensures Holds(y, s, t, h) {
      if y.waiting(y.step(s, t)) && y.left(y.step(s, t)) == y.left(s) {
        CustomerHelps(s, n, iter, t, h);
      }
    }
  }

  lemma {:induction false} FollowIsRun(s: State, n: nat, iter: nat, schedule: seq<nat>)
    requires WellFormed(s)
    ensures Follow(Customers(n, iter).step, s, schedule) == Run(s, iter, schedule)
  {
    if schedule != [] {
      FollowIsRun(s, n, iter, schedule[..|schedule| - 1]);
    }
  }

  /** A thread goes on trying until it owns the lock. */
  lemma {:induction false} TriesOn(s: State, iter: nat, schedule: seq<nat>, t: nat)
    requires WellFormed(s) && t < |s.pcs| && s.pcs[t].Try?
    requires forall m :: 0 <= m <= |schedule| ==> !Owns(Run(s, iter, schedule[..m]).pcs[t])
    ensures Run(s, iter, schedule).pcs[t].Try?
  {
    if schedule != [] {
      var early := schedule[..|schedule| - 1];
      assert forall m :: 0 <= m <= |early| ==> early[..m] == schedule[..m];
      TriesOn(s, iter, early, t);
      assert schedule[..|schedule|] == schedule;
    }
  }

  lemma DoorwayBound(n: nat, pcs: seq<Pc>)
    ensures Sum(DoorwayLeft(n), pcs) <= |pcs| * (2 * n + 4)
  {
    SumBound(DoorwayLeft(n), pcs, 2 * n + 4);
  }

  /** Rounds after which some thread has owned the lock. */
  function Enough(n: nat): nat
  {
    (n * (2 * n + 4) + 1) * (3 * n + 4)
  }

  lemma EnoughRounds(n: nat, left: nat, rounds: nat)
    requires left <= n * (2 * n + 4) && rounds < (left + 1) * (3 * n + 4)
    ensures rounds < Enough(n)
  {
    Scale(left, n * (2 * n + 4), 3 * n + 4);
  }

  lemma WaitsThroughout(s: State, n: nat, iter: nat, schedule: seq<nat>, t: nat)
    requires Inv(s, iter) && |s.pcs| == n && t < n && s.pcs[t].Try?
    requires forall m, u :: 0 <= m <= |schedule| && 0 <= u < n ==> !Owns(Run(s, iter, schedule[..m]).pcs[u])
    ensures StaysWaiting(Customers(n, iter), s, schedule)
  {
    forall m | 0 <= m <= |schedule| ensures Waiting(Run(s, iter, schedule[..m]), n, iter) {
      RunKeepsInv(s, iter, schedule[..m]);
      assert forall l :: 0 <= l <= m ==> schedule[..m][..l] == schedule[..l];
      TriesOn(s, iter, schedule[..m], t);
    }
    forall m | 0 <= m <= |schedule|
      ensures Customers(n, iter).waiting(Follow(Customers(n, iter).step, s, schedule[..m]))
    {
      FollowIsRun(s, n, iter, schedule[..m]);
    }
  }

  /** Without an owner the rounds are not enough. */
  lemma OwnerlessIsShort(s: State, n: nat, iter: nat, rounds: seq<seq<nat>>, t: nat)
    requires Inv(s, iter) && |s.pcs| == n && t < n && s.pcs[t].Try? && Fair(n, rounds)
    requires forall m, u :: 0 <= m <= |Flat(rounds)| && 0 <= u < n ==> !Owns(Run(s, iter, Flat(rounds)[..m]).pcs[u])
    ensures |rounds| < Enough(n)
  {
    WaitsThroughout(s, n, iter, Flat(rounds), t);
    CustomersSound(n, iter);
    FairSteps(n, rounds);
    WaitingEnds(Customers(n, iter), s, rounds);
    DoorwayBound(n, s.pcs);
    EnoughRounds(n, Left(s), |rounds|);
  }

  /**
   * Neither deadlock nor livelock: after every run in which some thread tries, any schedule in which
   * every thread takes at least a step in each of enough rounds gives the lock to some thread.
   */
  lemma FairProgress(n: nat, iter: nat, before: seq<nat>, rounds: seq<seq<nat>>, t: nat)
    requires t < n && Run(Init(n), iter, before).pcs[t].Try?
    requires Fair(n, rounds) && |rounds| >= Enough(n)
    ensures exists m, u :: 0 <= m <= |Flat(rounds)| && 0 <= u < n &&
                           Owns(Run(Run(Init(n), iter, before), iter, Flat(rounds)[..m]).pcs[u])
  {
    var s := Run(Init(n), iter, before);
    InitInv(n, iter);
    RunKeepsInv(Init(n), iter, before);
    if forall m, u :: 0 <= m <= |Flat(rounds)| && 0 <= u < n ==> !Owns(Run(s, iter, Flat(rounds)[..m]).pcs[u]) {
      OwnerlessIsShort(s, n, iter, rounds, t);
    }
  }

  /** In particular the lock can always be entered. */
  lemma DeadlockFree(n: nat, iter: nat, before: seq<nat>, t: nat)
    requires t < n && Run(Init(n), iter, before).pcs[t].Try?
    ensures exists after :: exists u :: 0 <= u < n && Owns(Run(Run(Init(n), iter, before), iter, after).pcs[u])
  {
    var rounds := RoundRobin(n, Enough(n));
    FairProgress(n, iter, before, rounds, t);
  }
}
