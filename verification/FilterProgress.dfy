/** Progress of the filter lock: whenever a thread tries, every fair schedule lets a thread in. */
module FilterProgress {
  import opened CriticalSection
  import opened Counting
  import opened Fairness
  import opened FilterLock

  predicate Waits(pc: Pc)
  {
    pc.Try? && (pc.at.Scan? || pc.at.ReadVictim?)
  }

  /** The next step of the thread is no part of a wait. */
  predicate Busy(pc: Pc)
  {
    (pc.Try? && !Waits(pc)) || pc == Do(TestStop)
  }

  /** Steps before a thread owns the lock, a whole wait counting as one. */
  function ClimbLeft(n: nat): Pc -> nat
  {
    (pc: Pc) =>
      if pc == Do(TestStop) then 3 * n + 1
      else if pc.Do? || pc.at.i > n then 0
      else 3 * (n - pc.at.i) + (if pc.at.SetLevel? then 3 else if pc.at.SetVictim? then 2 else 1)
  }

  function Left(s: State): nat
  {
    Sum(ClimbLeft(|s.pcs|), s.pcs)
  }

  /** The wait condition of thread t at its level is false, and only other threads can make it true. */
  ghost predicate MayPass(s: State, t: nat)
    requires WellFormed(s) && t < |s.pcs| && Waits(s.pcs[t])
  {
    var i := s.pcs[t].at.i;
    s.victim[i] != t || forall k :: 0 <= k < |s.pcs| && k != t ==> s.level[k] < i
  }

  /** Own steps before a thread that may pass has passed. */
  function PassLeft(s: State, t: nat): nat
    requires WellFormed(s) && t < |s.pcs| && Waits(s.pcs[t])
  {
    match s.pcs[t].at
    case Scan(_, k) => |s.pcs| - k + 2
    case ReadVictim(i) => if s.victim[i] == t then |s.pcs| + 3 else 1
    case _ => 0
  }

  /** Somebody tries and nobody owns the lock. */
  ghost predicate Waiting(s: State, n: nat, iter: nat)
  {
    && Inv(s, iter) && |s.pcs| == n && (exists t :: 0 <= t < n && s.pcs[t].Try?)
    && forall t :: 0 <= t < n ==> !Owns(s.pcs[t])
  }

  ghost predicate Helpful(s: State, h: nat)
  {
    WellFormed(s) && h < |s.pcs| && (Busy(s.pcs[h]) || (Waits(s.pcs[h]) && MayPass(s, h)))
  }

  function Rank(s: State, h: nat): nat
  {
    if WellFormed(s) && h < |s.pcs| && Waits(s.pcs[h]) then PassLeft(s, h) else 0
  }

  function Move(s: State, iter: nat, t: nat): State
  {
    if WellFormed(s) then Step(s, iter, t) else s
  }

  // ---------- one step ----------

  lemma OwnStepShortens(s: State, iter: nat, t: nat)
    requires WellFormed(s) && t < |s.pcs| && !Owns(s.pcs[t]) && !Owns(Step(s, iter, t).pcs[t])
    ensures var before, after := ClimbLeft(|s.pcs|)(s.pcs[t]), ClimbLeft(|s.pcs|)(Step(s, iter, t).pcs[t]);
            && (Busy(s.pcs[t]) ==> after < before)
            && (!Busy(s.pcs[t]) ==> after <= before)
            && (Waits(s.pcs[t]) && after == before ==>
                  Waits(Step(s, iter, t).pcs[t]) && Step(s, iter, t).pcs[t].at.i == s.pcs[t].at.i)
  {
  }

  lemma WaitKeepsArrays(s: State, iter: nat, t: nat)
    requires WellFormed(s) && t < |s.pcs| && !Owns(s.pcs[t]) && !Busy(s.pcs[t])
    ensures Step(s, iter, t).level == s.level && Step(s, iter, t).victim == s.victim
  {
  }

  /** While nobody owns the lock the climbs get shorter, and only a wait leaves them as they are. */
  lemma StepShortens(s: State, iter: nat, t: nat)
    requires WellFormed(s) && (t < |s.pcs| ==> !Owns(s.pcs[t]) && !Owns(Step(s, iter, t).pcs[t]))
    ensures var s' := Step(s, iter, t);
            && Left(s') <= Left(s)
            && (Left(s') == Left(s) ==> s'.level == s.level && s'.victim == s.victim)
            && (Left(s') == Left(s) && t < |s.pcs| ==> !Busy(s.pcs[t]))
            && (Left(s') == Left(s) && t < |s.pcs| && Waits(s.pcs[t]) ==>
                  Waits(s'.pcs[t]) && s'.pcs[t].at.i == s.pcs[t].at.i)
  {
    if t < |s.pcs| {
      var pc' := Step(s, iter, t).pcs[t];
      OwnStepShortens(s, iter, t);
      if !Busy(s.pcs[t]) {
        WaitKeepsArrays(s, iter, t);
      }
      SumUpdate(ClimbLeft(|s.pcs|), s.pcs, t, pc');
      assert Step(s, iter, t).pcs == s.pcs[t := pc'];
    }
  }

  /** The own step of a thread that may pass. */
  lemma OwnStepHelps(s: State, iter: nat, h: nat)
    requires WellFormed(s) && h < |s.pcs| && Waits(s.pcs[h]) && MayPass(s, h)
    requires Waits(Step(s, iter, h).pcs[h]) && Step(s, iter, h).pcs[h].at.i == s.pcs[h].at.i
    ensures var s' := Step(s, iter, h); MayPass(s', h) && PassLeft(s', h) < PassLeft(s, h)
  {
  }

  lemma StepHelps(s: State, iter: nat, t: nat, h: nat)
    requires WellFormed(s) && (t < |s.pcs| ==> !Owns(s.pcs[t]) && !Owns(Step(s, iter, t).pcs[t])) && Helpful(s, h)
    requires Left(Step(s, iter, t)) == Left(s)
    ensures var s' := Step(s, iter, t);
            Helpful(s', h) && Rank(s', h) + (if t == h then 1 else 0) <= Rank(s, h)
  {
    StepShortens(s, iter, t);
    if t == h {
      OwnStepHelps(s, iter, h);
    } else {
      assert Step(s, iter, t).pcs[h] == s.pcs[h];
    }
  }

  // ---------- somebody helps ----------

  /** A thread at the highest level that is occupied by a waiting thread. */
  lemma {:induction false} HighestWaiter(s: State, m: nat, t: nat) returns (h: nat)
    requires WellFormed(s) && m <= |s.pcs| && t < m && s.pcs[t].Try?
    ensures h < m && s.pcs[h].Try?
    ensures forall u :: 0 <= u < m && s.pcs[u].Try? ==> s.pcs[u].at.i <= s.pcs[h].at.i
  {
    h := t;
    for u := 0 to m
      invariant h < m && s.pcs[h].Try?
      invariant forall v :: 0 <= v < u && s.pcs[v].Try? ==> s.pcs[v].at.i <= s.pcs[h].at.i
    {
      if s.pcs[u].Try? && s.pcs[u].at.i > s.pcs[h].at.i {
        h := u;
      }
    }
  }

  /** If nobody owns the lock and all who try are waiting, one of them may pass. */
  lemma SomeoneMayPass(s: State, t: nat) returns (h: nat)
    requires WellFormed(s) && LevelsAgree(s) && t < |s.pcs| && s.pcs[t].Try?
    requires forall u :: 0 <= u < |s.pcs| ==> !Owns(s.pcs[u])
    requires forall u :: 0 <= u < |s.pcs| && s.pcs[u].Try? ==> Waits(s.pcs[u])
    ensures h < |s.pcs| && Waits(s.pcs[h]) && MayPass(s, h)
  {
    h := HighestWaiter(s, |s.pcs|, t);
    if !MayPass(s, h) {
      var u: nat :| u < |s.pcs| && u != h && s.level[u] >= s.pcs[h].at.i;
      assert s.pcs[u].Try? && s.pcs[u].at.i == s.pcs[h].at.i;
      h := u;
    }
  }

  lemma SomeoneHelps(s: State, n: nat, iter: nat) returns (h: nat)
    requires Waiting(s, n, iter)
    ensures h < n && Helpful(s, h)
  {
    if u: nat :| u < n && Busy(s.pcs[u]) {
      h := u;
    } else {
      var t: nat :| t < n && s.pcs[t].Try?;
      assert forall u :: 0 <= u < n && s.pcs[u].Try? ==> Waits(s.pcs[u]) || Busy(s.pcs[u]);
      h := SomeoneMayPass(s, t);
    }
  }

  // ---------- every fair schedule ----------

  ghost function Climbers(n: nat, iter: nat): System<State, nat>
  {
    System(n, Itself, (s, t) => Move(s, iter, t), s => Waiting(s, n, iter), s => Left(s), (s, h) => Helpful(s, h),
           (s, h) => Rank(s, h), n + 4)
  }

  lemma ClimbersSound(n: nat, iter: nat)
    ensures Sound(Climbers(n, iter))
  {
    var y := Climbers(n, iter);
    forall s, t | y.waiting(s) && y.waiting(y.step(s, t)) ensures y.left(y.step(s, t)) <= y.left(s) {
      StepShortens(s, iter, t);
    }
    forall s | y.waiting(s) ensures exists h: nat :: h < y.n && y.helpful(s, h) {
      var h := SomeoneHelps(s, n, iter);
      assert y.helpful(s, h);
    }
    forall s, t, h: nat | y.waiting(s) && y.helpful(s, h) ensures Holds(y, s, t, h) {
      if y.waiting(y.step(s, t)) && y.left(y.step(s, t)) == y.left(s) {
        StepHelps(s, iter, t, h);
      }
    }
  }

  lemma {:induction false} FollowIsRun(s: State, n: nat, iter: nat, schedule: seq<nat>)
    requires WellFormed(s)
    ensures Follow(Climbers(n, iter).step, s, schedule) == Run(s, iter, schedule)
  {
    if schedule != [] {
      FollowIsRun(s, n, iter, schedule[..|schedule| - 1]);
    }
  }

  /** A thread goes on trying until it owns the lock. */
  lemma {:induction false} TriesOn(s: State, iter: nat, schedule: seq<nat>, t: nat)
    requires WellFormed(s) && t < |s.pcs| && s.pcs[t].Try?
    requires forall m :: 0 <= m <= |schedule| ==> !Owns(Run(s, iter, schedule[..m]).pcs[t])
    ensures Run(s, iter, schedule).pcs[t].Try?
  {
    if schedule != [] {
      var early := schedule[..|schedule| - 1];
      assert forall m :: 0 <= m <= |early| ==> early[..m] == schedule[..m];
      TriesOn(s, iter, early, t);
      assert schedule[..|schedule|] == schedule;
    }
  }

  lemma ClimbBound(n: nat, pcs: seq<Pc>)
    requires forall t :: 0 <= t < |pcs| ==> GoodPc(n, pcs[t])
    ensures Sum(ClimbLeft(n), pcs) <= |pcs| * (3 * n + 1)
  {
    SumBound(ClimbLeft(n), pcs, 3 * n + 1);
  }

  /** Rounds after which some thread has owned the lock. */
  function Enough(n: nat): nat
  {
    (n * (3 * n + 1) + 1) * (n + 4)
  }

  lemma EnoughRounds(n: nat, left: nat, rounds: nat)
    requires left <= n * (3 * n + 1) && rounds < (left + 1) * (n + 4)
    ensures rounds < Enough(n)
  {
    Scale(left, n * (3 * n + 1), n + 4);
  }

  lemma WaitsThroughout(s: State, n: nat, iter: nat, schedule: seq<nat>, t: nat)
    requires Inv(s, iter) && |s.pcs| == n && t < n && s.pcs[t].Try?
    requires forall m, u :: 0 <= m <= |schedule| && 0 <= u < n ==> !Owns(Run(s, iter, schedule[..m]).pcs[u])
    ensures StaysWaiting(Climbers(n, iter), s, schedule)
  {
    forall m | 0 <= m <= |schedule| ensures Waiting(Run(s, iter, schedule[..m]), n, iter) {
      RunKeepsInv(s, iter, schedule[..m]);
      assert forall l :: 0 <= l <= m ==> schedule[..m][..l] == schedule[..l];
      TriesOn(s, iter, schedule[..m], t);
    }
    forall m | 0 <= m <= |schedule|
      ensures Climbers(n, iter).waiting(Follow(Climbers(n, iter).step, s, schedule[..m]))
    {
      FollowIsRun(s, n, iter, schedule[..m]);
    }
  }

  /** Without an owner the rounds are not enough. */
  lemma OwnerlessIsShort(s: State, n: nat, iter: nat, rounds: seq<seq<nat>>, t: nat)
    requires Inv(s, iter) && |s.pcs| == n && t < n && s.pcs[t].Try? && Fair(n, rounds)
    requires forall m, u :: 0 <= m <= |Flat(rounds)| && 0 <= u < n ==> !Owns(Run(s, iter, Flat(rounds)[..m]).pcs[u])
    ensures |rounds| < Enough(n)
  {
    WaitsThroughout(s, n, iter, Flat(rounds), t);
    ClimbersSound(n, iter);
    FairSteps(n, rounds);
    WaitingEnds(Climbers(n, iter), s, rounds);
    ClimbBound(n, s.pcs);
    EnoughRounds(n, Left(s), |rounds|);
  }

  /**
   * Neither deadlock nor livelock: after every run in which some thread tries, any schedule in which
   * every thread takes at least a step in each of enough rounds gives the lock to some thread.
   */
  lemma FairProgress(n: nat, iter: nat, before: seq<nat>, rounds: seq<seq<nat>>, t: nat)
    requires t < n && Run(Init(n), iter, before).pcs[t].Try?
    requires Fair(n, rounds) && |rounds| >= Enough(n)
    ensures exists m, u :: 0 <= m <= |Flat(rounds)| && 0 <= u < n &&
                           Owns(Run(Run(Init(n), iter, before), iter, Flat(rounds)[..m]).pcs[u])
  {
    var s := Run(Init(n), iter, before);
    InitInv(n, iter);
    RunKeepsInv(Init(n), iter, before);
    if forall m, u :: 0 <= m <= |Flat(rounds)| && 0 <= u < n ==> !Owns(Run(s, iter, Flat(rounds)[..m]).pcs[u]) {
      OwnerlessIsShort(s, n, iter, rounds, t);
    }
  }

  /** In particular the lock can always be entered. */
  lemma DeadlockFree(n: nat, iter: nat, before: seq<nat>, t: nat)
    requires t < n && Run(Init(n), iter, before).pcs[t].Try?
    ensures exists after :: exists u :: 0 <= u < n && Owns(Run(Run(Init(n), iter, before), iter, after).pcs[u])
  {
    var rounds := RoundRobin(n, Enough(n));
    FairProgress(n, iter, before, rounds, t);
  }
}
