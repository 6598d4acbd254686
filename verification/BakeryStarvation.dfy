/** No thread starves at the bakery lock: every fair schedule lets in every thread that tries. */
module BakeryStarvation {
  import opened CriticalSection
  import opened Counting
  import opened Fairness
  import opened BakeryLock
  import opened BakeryProgress

  /** The next step of the thread is no part of a wait. */
  predicate Moves(pc: Pc)
  {
    Busy(pc) || Owns(pc)
  }

  /**
   * Steps that thread k can take before thread i, which has its label, gets the lock: a thread that
   * may still overtake passes through the critical section once and then through one more doorway.
   */
  function StepsLeft(s: State, i: nat, k: nat): nat
    requires WellFormed(s) && i < |s.pcs| && k < |s.pcs|
  {
    var n, pc := |s.pcs|, s.pcs[k];
    if k == i || pc == Do(Stopped) then 0
    else if pc.Do? then 2 * n + 3 + BodyLeft(pc.body)
    else DoorwayLeft(n)(pc) + (if Precedes(s, i, k) then 0 else 2 * n + 10)
  }

  function Weights(s: State, i: nat): (ws: seq<nat>)
    requires WellFormed(s) && i < |s.pcs|
    ensures |ws| == |s.pcs| && forall k :: 0 <= k < |s.pcs| ==> ws[k] == StepsLeft(s, i, k)
  {
    seq(|s.pcs|, k requires 0 <= k < |s.pcs| => StepsLeft(s, i, k))
  }

  function Same(x: nat): nat
  {
    x
  }

  function TotalLeft(s: State, i: nat): nat
  {
    if WellFormed(s) && i < |s.pcs| then Sum(Same, Weights(s, i)) else 0
  }

  /** Thread i has its label and waits. */
  ghost predicate Queues(s: State, n: nat, iter: nat, i: nat)
  {
    Inv(s, iter) && |s.pcs| == n && i < n && Waits(s.pcs[i])
  }

  ghost predicate Assists(s: State, h: nat)
  {
    WellFormed(s) && h < |s.pcs| && (Moves(s.pcs[h]) || (Waits(s.pcs[h]) && First(s, h)))
  }

  // ---------- one step ----------

  /** A thread behind i does not get in before it. */
  lemma BehindWaits(s: State, n: nat, iter: nat, i: nat, k: nat)
    requires Queues(s, n, iter, i) && k < n && k != i && Owns(s.pcs[k])
    ensures !Precedes(s, i, k)
  {
    assert PairSound(s, k, i);
  }

  /** Once behind i, thread k stays behind. */
  lemma StaysBehind(s: State, n: nat, iter: nat, i: nat, t: nat)
    requires Queues(s, n, iter, i) && t < n && t != i && Precedes(s, i, t)
    ensures Precedes(Step(s, iter, t), i, t)
  {
    assert ThreadSound(s, i) && ThreadSound(s, t);
    StepKeepsPrecedes(s, iter, t, i, t);
  }

  lemma TryShortens(s: State, n: nat, iter: nat, i: nat, t: nat)
    requires Queues(s, n, iter, i) && Queues(Step(s, iter, t), n, iter, i) && t < n && t != i && s.pcs[t].Try?
    ensures var before, after := StepsLeft(s, i, t), StepsLeft(Step(s, iter, t), i, t);
            after <= before && (Busy(s.pcs[t]) || Owns(Step(s, iter, t).pcs[t]) ==> after < before)
  {
    var s' := Step(s, iter, t);
    if Precedes(s, i, t) {
      StaysBehind(s, n, iter, i, t);
    }
    if Owns(s'.pcs[t]) {
      BehindWaits(s', n, iter, i, t);
    } else {
      OwnStepShortens(s, iter, t);
    }
  }

  lemma DoShortens(s: State, n: nat, iter: nat, i: nat, t: nat)
    requires Queues(s, n, iter, i) && t < n && t != i && s.pcs[t].Do?
    ensures var before, after := StepsLeft(s, i, t), StepsLeft(Step(s, iter, t), i, t);
            after <= before && (s.pcs[t] != Do(Stopped) ==> after < before)
  {
  }

  lemma OthersKeep(s: State, n: nat, iter: nat, i: nat, t: nat, k: nat)
    requires Queues(s, n, iter, i) && t < n && k < n && k != t
    ensures StepsLeft(Step(s, iter, t), i, k) == StepsLeft(s, i, k)
  {
    var s' := Step(s, iter, t);
    assert s'.pcs[k] == s.pcs[k] && s'.ticket[k] == s.ticket[k] && s'.ticket[i] == s.ticket[i];
  }

  lemma OnlyOneChanges(s: State, n: nat, iter: nat, i: nat, t: nat)
    requires Queues(s, n, iter, i) && t < n
    ensures var s' := Step(s, iter, t);
            TotalLeft(s', i) == TotalLeft(s, i) - StepsLeft(s, i, t) + StepsLeft(s', i, t)
  {
    var s' := Step(s, iter, t);
    forall k | 0 <= k < n && k != t ensures Weights(s', i)[k] == Weights(s, i)[k] {
      OthersKeep(s, n, iter, i, t, k);
    }
    assert Weights(s', i) == Weights(s, i)[t := StepsLeft(s', i, t)];
    SumUpdate(Same, Weights(s, i), t, StepsLeft(s', i, t));
  }

  lemma StepShortensAll(s: State, n: nat, iter: nat, i: nat, t: nat)
    requires Queues(s, n, iter, i) && Queues(Step(s, iter, t), n, iter, i)
    ensures var s' := Step(s, iter, t);
            && TotalLeft(s', i) <= TotalLeft(s, i)
            && (TotalLeft(s', i) == TotalLeft(s, i) && t < n ==>
                  !Moves(s.pcs[t]) && (Waits(s.pcs[t]) ==> Waits(s'.pcs[t])))
  {
    if t < n {
      OnlyOneChanges(s, n, iter, i, t);
      if t != i && s.pcs[t].Try? {
        TryShortens(s, n, iter, i, t);
      } else if t != i {
        DoShortens(s, n, iter, i, t);
      }
    }
  }

  lemma WaitKeepsArrays(s: State, iter: nat, t: nat)
    requires WellFormed(s) && (t < |s.pcs| ==> !Moves(s.pcs[t]))
    ensures Step(s, iter, t).flag == s.flag && Step(s, iter, t).ticket == s.ticket
  {
  }

  lemma StepAssists(s: State, n: nat, iter: nat, i: nat, t: nat, h: nat)
    requires Queues(s, n, iter, i) && Queues(Step(s, iter, t), n, iter, i) && Assists(s, h)
    requires TotalLeft(Step(s, iter, t), i) == TotalLeft(s, i)
    ensures var s' := Step(s, iter, t);
            Assists(s', h) && Rank(s', h) + (if t == h then 1 else 0) <= Rank(s, h)
  {
    StepShortensAll(s, n, iter, i, t);
    WaitKeepsArrays(s, iter, t);
    if t == h {
      OwnStepHelps(s, iter, h);
    } else {
      assert Step(s, iter, t).pcs[h] == s.pcs[h];
    }
  }

  lemma SomeoneAssists(s: State, n: nat, iter: nat, i: nat) returns (h: nat)
    requires Queues(s, n, iter, i)
    ensures h < n && Assists(s, h)
  {
    if u: nat :| u < n && Moves(s.pcs[u]) {
      h := u;
    } else {
      assert ThreadSound(s, i);
      h := LeastTicket(s, i);
      assert ThreadSound(s, h) && !Moves(s.pcs[h]);
    }
  }

  // ---------- the doorway and the wait ----------

  function TotalMost(n: nat): nat
  {
    n * (4 * n + 13)
  }

  lemma TotalBound(s: State, i: nat)
    requires WellFormed(s) && i < |s.pcs|
    ensures TotalLeft(s, i) <= TotalMost(|s.pcs|)
  {
    SumBound(Same, Weights(s, i), 4 * |s.pcs| + 13);
  }

  /** Thread i tries to enter. */
  ghost predicate Tries(s: State, n: nat, iter: nat, i: nat)
  {
    Inv(s, iter) && |s.pcs| == n && i < n && s.pcs[i].Try?
  }

  /** First the doorway of i itself, then what the other threads can still do. */
  function LineLeft(s: State, n: nat, i: nat): nat
  {
    if i < |s.pcs| && !Ticketed(s.pcs[i]) then TotalMost(n) + DoorwayLeft(n)(s.pcs[i]) else TotalLeft(s, i)
  }

  ghost predicate LineHelpful(s: State, i: nat, h: nat)
  {
    if i < |s.pcs| && !Ticketed(s.pcs[i]) then h == i else Assists(s, h)
  }

  function LineRank(s: State, i: nat, h: nat): nat
  {
    if i < |s.pcs| && !Ticketed(s.pcs[i]) then 0 else Rank(s, h)
  }

  /** In the doorway only the own steps of i count, and each of them does. */
  lemma DoorwayStep(s: State, n: nat, iter: nat, i: nat, t: nat)
    requires Tries(s, n, iter, i) && !Ticketed(s.pcs[i])
    ensures var s' := Step(s, iter, t);
            && (t == i ==> LineLeft(s', n, i) < LineLeft(s, n, i))
            && (t != i ==> s'.pcs[i] == s.pcs[i])
  {
    if t == i {
      OwnStepShortens(s, iter, i);
      if Ticketed(Step(s, iter, i).pcs[i]) {
        TotalBound(Step(s, iter, i), i);
      }
    }
  }

  lemma LineStep(s: State, n: nat, iter: nat, i: nat, t: nat, h: nat)
    requires Tries(s, n, iter, i) && Tries(Step(s, iter, t), n, iter, i)
    ensures var s' := Step(s, iter, t);
            && LineLeft(s', n, i) <= LineLeft(s, n, i)
            && (LineLeft(s', n, i) == LineLeft(s, n, i) && LineHelpful(s, i, h) ==>
                  LineHelpful(s', i, h) && LineRank(s', i, h) + (if t == h then 1 else 0) <= LineRank(s, i, h))
  {
    var s' := Step(s, iter, t);
    if !Ticketed(s.pcs[i]) {
      DoorwayStep(s, n, iter, i, t);
    } else {
      StepShortensAll(s, n, iter, i, t);
      if TotalLeft(s', i) == TotalLeft(s, i) && Assists(s, h) {
        StepAssists(s, n, iter, i, t, h);
      }
    }
  }

  // ---------- every fair schedule ----------

  ghost function Line(n: nat, iter: nat, i: nat): System<State, nat>
  {
    System(n, Itself, (s, t) => Move(s, iter, t), s => Tries(s, n, iter, i), s => LineLeft(s, n, i),
           (s, h) => LineHelpful(s, i, h), (s, h) => LineRank(s, i, h), 3 * n + 4)
  }

  lemma LineSound(n: nat, iter: nat, i: nat)
    ensures Sound(Line(n, iter, i))
  {
    var y := Line(n, iter, i);
    forall s, t | y.waiting(s) && y.waiting(y.step(s, t)) ensures y.left(y.step(s, t)) <= y.left(s) {
      LineStep(s, n, iter, i, t, i);
    }
    forall s | y.waiting(s) ensures exists h: nat :: h < y.n && y.helpful(s, h) {
      if Ticketed(s.pcs[i]) {
        var h := SomeoneAssists(s, n, iter, i);
        assert y.helpful(s, h);
      } else {
        assert y.helpful(s, i);
      }
    }
    forall s, t, h: nat | y.waiting(s) && y.helpful(s, h) ensures Holds(y, s, t, h) {
      if y.waiting(y.step(s, t)) {
        LineStep(s, n, iter, i, t, h);
      }
    }
  }

  /** Rounds after which a thread that tried has owned the lock. */
  function EnoughForAll(n: nat): nat
  {
    (TotalMost(n) + 2 * n + 4) * (3 * n + 4)
  }

  lemma LineBound(s: State, n: nat, iter: nat, i: nat)
    requires Tries(s, n, iter, i)
    ensures LineLeft(s, n, i) + 1 <= TotalMost(n) + 2 * n + 4
  {
    if Ticketed(s.pcs[i]) {
      TotalBound(s, i);
    }
  }

  /** A thread that tries goes on until it owns the lock. */
  lemma {:induction false} TriesStill(s: State, n: nat, iter: nat, i: nat, schedule: seq<nat>)
    requires Tries(s, n, iter, i)
    requires forall m :: 0 <= m <= |schedule| ==> !Owns(Run(s, iter, schedule[..m]).pcs[i])
    ensures Tries(Run(s, iter, schedule), n, iter, i)
  {
    TriesOn(s, iter, schedule, i);
    RunKeepsInv(s, iter, schedule);
  }

  lemma {:induction false} LineFollows(s: State, n: nat, iter: nat, i: nat, schedule: seq<nat>)
    requires WellFormed(s)
    ensures Follow(Line(n, iter, i).step, s, schedule) == Run(s, iter, schedule)
  {
    if schedule != [] {
      LineFollows(s, n, iter, i, schedule[..|schedule| - 1]);
    }
  }

  lemma TriesThroughout(s: State, n: nat, iter: nat, i: nat, schedule: seq<nat>)
    requires Tries(s, n, iter, i)
    requires forall m :: 0 <= m <= |schedule| ==> !Owns(Run(s, iter, schedule[..m]).pcs[i])
    ensures StaysWaiting(Line(n, iter, i), s, schedule)
  {
    forall m | 0 <= m <= |schedule| ensures Line(n, iter, i).waiting(Follow(Line(n, iter, i).step, s, schedule[..m])) {
      assert forall l :: 0 <= l <= m ==> schedule[..m][..l] == schedule[..l];
      TriesStill(s, n, iter, i, schedule[..m]);
      LineFollows(s, n, iter, i, schedule[..m]);
    }
  }

  lemma LockedOutIsShort(s: State, n: nat, iter: nat, i: nat, rounds: seq<seq<nat>>)
    requires Tries(s, n, iter, i) && Fair(n, rounds)
    requires forall m :: 0 <= m <= |Flat(rounds)| ==> !Owns(Run(s, iter, Flat(rounds)[..m]).pcs[i])
    ensures |rounds| < EnoughForAll(n)
  {
    TriesThroughout(s, n, iter, i, Flat(rounds));
    LineSound(n, iter, i);
    FairSteps(n, rounds);
    WaitingEnds(Line(n, iter, i), s, rounds);
    LineBound(s, n, iter, i);
    Larger(LineLeft(s, n, i) + 1, TotalMost(n) + 2 * n + 4, 3 * n + 4);
  }

  /**
   * Starvation freedom.  After every run in which thread i tries to enter, any schedule in which
   * every thread takes at least a step in each of enough rounds gives i the lock.
   */
  lemma NoStarvation(n: nat, iter: nat, before: seq<nat>, rounds: seq<seq<nat>>, i: nat)
    requires i < n && Run(Init(n), iter, before).pcs[i].Try?
    requires Fair(n, rounds) && |rounds| >= EnoughForAll(n)
    ensures exists m :: 0 <= m <= |Flat(rounds)| &&
                        Owns(Run(Run(Init(n), iter, before), iter, Flat(rounds)[..m]).pcs[i])
  {
    var s := Run(Init(n), iter, before);
    InitInv(n, iter);
    RunKeepsInv(Init(n), iter, before);
    if forall m :: 0 <= m <= |Flat(rounds)| ==> !Owns(Run(s, iter, Flat(rounds)[..m]).pcs[i]) {
      LockedOutIsShort(s, n, iter, i, rounds);
    }
  }
}
