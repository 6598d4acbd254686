/** No thread starves at the filter lock: every fair schedule lets in every thread that tries. */
module FilterStarvation {
  import opened CriticalSection
  import opened Counting
  import opened Fairness
  import opened FilterLock
  import opened FilterProgress

  /** The next step of the thread is no part of a wait. */
  predicate Moves(pc: Pc)
  {
    Busy(pc) || Owns(pc)
  }

  /**
   * Steps outside a wait that a thread can take before it writes the victim cell of level i: a thread
   * that competes there passes through the critical section once, and then climbs up to level i again.
   */
  function StepsOf(n: nat, i: nat, pc: Pc): nat
  {
    if pc == Do(Stopped) then 0
    else if pc.Do? then 3 * n + 3 + BodyLeft(pc.body)
    else ClimbLeft(n)(pc) + (if Competes(n, pc, i) then 3 * n + 10 else 0)
  }

  function StepsLeft(n: nat, i: nat): Pc -> nat
  {
    (pc: Pc) => StepsOf(n, i, pc)
  }

  /** The steps left to the other threads while t is the victim of its level. */
  function OthersLeft(s: State, t: nat): nat
    requires t < |s.pcs| && s.pcs[t].Try?
  {
    Sum(StepsLeft(|s.pcs|, s.pcs[t].at.i), s.pcs[t := Do(Stopped)])
  }

  /** More than the steps left at one level. */
  function LevelMost(n: nat): nat
  {
    n * (6 * n + 10) + 4
  }

  predicate IsVictim(s: State, t: nat)
    requires WellFormed(s) && t < |s.pcs| && s.pcs[t].Try?
  {
    s.victim[s.pcs[t].at.i] == t
  }

  /** How far t is from its next level: on its way into the wait, in it as the victim, or free to pass. */
  function StageLeft(s: State, t: nat): nat
    requires WellFormed(s) && t < |s.pcs| && s.pcs[t].Try?
  {
    if s.pcs[t].at.SetLevel? then LevelMost(|s.pcs|) - 1
    else if s.pcs[t].at.SetVictim? then LevelMost(|s.pcs|) - 2
    else if IsVictim(s, t) then 1 + OthersLeft(s, t)
    else 0
  }

  function Times(a: nat, b: nat): nat
  {
    a * b
  }

  function ClimberLeft(s: State, t: nat): nat
  {
    if WellFormed(s) && t < |s.pcs| && s.pcs[t].Try?
    then Times(|s.pcs| - s.pcs[t].at.i, LevelMost(|s.pcs|)) + StageLeft(s, t)
    else 0
  }

  /** Thread t tries to enter. */
  ghost predicate Tries(s: State, n: nat, iter: nat, t: nat)
  {
    Inv(s, iter) && |s.pcs| == n && t < n && s.pcs[t].Try?
  }

  /** As the victim t waits for another thread; otherwise its own steps count. */
  ghost predicate Assists(s: State, t: nat, h: nat)
  {
    && WellFormed(s) && t < |s.pcs| && h < |s.pcs| && s.pcs[t].Try?
    && if Waits(s.pcs[t]) && IsVictim(s, t) then Moves(s.pcs[h]) || (Waits(s.pcs[h]) && MayPass(s, h))
       else h == t
  }

  // ---------- one step of another thread ----------

  /** A step outside a wait, or out of it, lowers the steps left. */
  lemma OneShortens(s: State, iter: nat, i: nat, x: nat)
    requires WellFormed(s) && 1 <= i < |s.pcs| && x < |s.pcs| && s.pcs[x] != Try(SetVictim(i))
    ensures var f, pc, pc' := StepsLeft(|s.pcs|, i), s.pcs[x], Step(s, iter, x).pcs[x];
            && f(pc') <= f(pc)
            && (Moves(pc) ==> f(pc') < f(pc))
            && (Waits(pc) && f(pc') == f(pc) ==> Waits(pc') && pc'.at.i == pc.at.i)
  {
  }

  lemma WaitKeepsAll(s: State, iter: nat, x: nat)
    requires WellFormed(s) && (x < |s.pcs| ==> !Moves(s.pcs[x]))
    ensures Step(s, iter, x).level == s.level && Step(s, iter, x).victim == s.victim
  {
  }

  /** While t stays the victim the others only run down. */
  lemma OthersShorten(s: State, iter: nat, t: nat, x: nat)
    requires WellFormed(s) && t < |s.pcs| && x < |s.pcs| && x != t && Waits(s.pcs[t]) && IsVictim(s, t)
    requires IsVictim(Step(s, iter, x), t)
    ensures var s' := Step(s, iter, x);
            && OthersLeft(s', t) <= OthersLeft(s, t)
            && (OthersLeft(s', t) == OthersLeft(s, t) ==> !Moves(s.pcs[x]))
            && (OthersLeft(s', t) == OthersLeft(s, t) && Waits(s.pcs[x]) ==>
                  Waits(s'.pcs[x]) && s'.pcs[x].at.i == s.pcs[x].at.i)
  {
    var i := s.pcs[t].at.i;
    var pc' := Step(s, iter, x).pcs[x];
    assert s.pcs[x] != Try(SetVictim(i));
    OneShortens(s, iter, i, x);
    assert Step(s, iter, x).pcs[t := Do(Stopped)] == s.pcs[t := Do(Stopped)][x := pc'];
    SumUpdate(StepsLeft(|s.pcs|, i), s.pcs[t := Do(Stopped)], x, pc');
  }

  /** A step of another thread leaves t where it is and does not take it farther from its next level. */
  lemma OtherStep(s: State, iter: nat, t: nat, x: nat)
    requires WellFormed(s) && t < |s.pcs| && x != t && s.pcs[t].Try?
    ensures var s' := Step(s, iter, x);
            && s'.pcs[t] == s.pcs[t] && StageLeft(s', t) <= StageLeft(s, t)
            && (Waits(s.pcs[t]) && !IsVictim(s, t) ==> !IsVictim(s', t))
            && (StageLeft(s', t) == StageLeft(s, t) && Waits(s.pcs[t]) && IsVictim(s, t) ==> IsVictim(s', t))
  {
    var s' := Step(s, iter, x);
    if x < |s.pcs| && Waits(s.pcs[t]) && IsVictim(s, t) && IsVictim(s', t) {
      OthersShorten(s, iter, t, x);
    }
  }

  lemma OtherStepAssists(s: State, iter: nat, t: nat, x: nat, h: nat)
    requires WellFormed(s) && x != t && Assists(s, t, h) && StageLeft(Step(s, iter, x), t) == StageLeft(s, t)
    ensures var s' := Step(s, iter, x);
            Assists(s', t, h) && Rank(s', h) + (if x == h then 1 else 0) <= Rank(s, h)
  {
    OtherStep(s, iter, t, x);
    var s' := Step(s, iter, x);
    if Waits(s.pcs[t]) && IsVictim(s, t) {
      if x < |s.pcs| {
        OthersShorten(s, iter, t, x);
      }
      WaitKeepsAll(s, iter, x);
      if x == h {
        OwnStepHelps(s, iter, h);
      } else {
        assert s'.pcs[h] == s.pcs[h];
      }
    }
  }

  // ---------- the own step of t ----------

  lemma OthersBound(s: State, t: nat)
    requires WellFormed(s) && t < |s.pcs| && s.pcs[t].Try?
    ensures 1 + OthersLeft(s, t) <= LevelMost(|s.pcs|) - 3
  {
    var n, i := |s.pcs|, s.pcs[t].at.i;
    var others := s.pcs[t := Do(Stopped)];
    forall k | 0 <= k < n ensures StepsLeft(n, i)(others[k]) <= 6 * n + 10 {
    }
    SumBound(StepsLeft(n, i), others, 6 * n + 10);
  }

  /** The own step of t takes it to its next level, or closer to it, or on in its scan. */
  lemma OwnStep(s: State, iter: nat, t: nat)
    requires WellFormed(s) && t < |s.pcs| && s.pcs[t].Try? && Step(s, iter, t).pcs[t].Try?
    ensures var s' := Step(s, iter, t);
            || (s'.pcs[t].at.i == s.pcs[t].at.i + 1 && s'.pcs[t].at.SetLevel?)
            || (s'.pcs[t].at.i == s.pcs[t].at.i && StageLeft(s', t) < StageLeft(s, t))
            || (Waits(s.pcs[t]) && Waits(s'.pcs[t]) && s'.pcs[t].at.i == s.pcs[t].at.i &&
                s'.level == s.level && s'.victim == s.victim && StageLeft(s', t) == StageLeft(s, t))
  {
    var s' := Step(s, iter, t);
    if s.pcs[t].at.SetVictim? {
      OthersBound(s', t);
    } else if Waits(s.pcs[t]) && Waits(s'.pcs[t]) {
      assert s'.pcs[t := Do(Stopped)] == s.pcs[t := Do(Stopped)];
    }
  }

  lemma OwnStepAssists(s: State, iter: nat, t: nat, h: nat)
    requires WellFormed(s) && Assists(s, t, h) && Waits(s.pcs[t]) && Waits(Step(s, iter, t).pcs[t])
    requires Step(s, iter, t).pcs[t].at.i == s.pcs[t].at.i
    requires Step(s, iter, t).level == s.level && Step(s, iter, t).victim == s.victim
    ensures var s' := Step(s, iter, t);
            Assists(s', t, h) && Rank(s', h) + (if t == h then 1 else 0) <= Rank(s, h)
  {
    if h == t {
      OwnStepHelps(s, iter, t);
    } else {
      assert Step(s, iter, t).pcs[h] == s.pcs[h];
    }
  }

  lemma NextLevel(n: nat, i: nat, most: nat, stage: nat, stage': nat)
    requires i < n && stage' < most
    ensures Times(n - (i + 1), most) + stage' < Times(n - i, most) + stage
  {
    assert (n - i) * most == (n - (i + 1)) * most + most;
  }

  lemma ClimberStep(s: State, n: nat, iter: nat, t: nat, x: nat, h: nat)
    requires Tries(s, n, iter, t) && Tries(Step(s, iter, x), n, iter, t)
    ensures var s' := Step(s, iter, x);
            && ClimberLeft(s', t) <= ClimberLeft(s, t)
            && (ClimberLeft(s', t) == ClimberLeft(s, t) && Assists(s, t, h) ==>
                  Assists(s', t, h) && Rank(s', h) + (if x == h then 1 else 0) <= Rank(s, h))
  {
    var s' := Step(s, iter, x);
    if x != t {
      OtherStep(s, iter, t, x);
      if StageLeft(s', t) == StageLeft(s, t) && Assists(s, t, h) {
        OtherStepAssists(s, iter, t, x, h);
      }
    } else {
      OwnStep(s, iter, t);
      if s'.pcs[t].at.i == s.pcs[t].at.i + 1 {
        NextLevel(n, s.pcs[t].at.i, LevelMost(n), StageLeft(s, t), StageLeft(s', t));
      } else if StageLeft(s', t) == StageLeft(s, t) && Assists(s, t, h) {
        OwnStepAssists(s, iter, t, h);
      }
    }
  }

  // ---------- somebody assists ----------

  lemma SomeoneAssists(s: State, n: nat, iter: nat, t: nat) returns (h: nat)
    requires Tries(s, n, iter, t)
    ensures h < n && Assists(s, t, h)
  {
    if !(Waits(s.pcs[t]) && IsVictim(s, t)) {
      h := t;
    } else if u: nat :| u < n && Moves(s.pcs[u]) {
      h := u;
    } else {
      assert forall u :: 0 <= u < n && s.pcs[u].Try? ==> Waits(s.pcs[u]) || Moves(s.pcs[u]);
      h := SomeoneMayPass(s, t);
    }
  }

  // ---------- every fair schedule ----------

  ghost function Climber(n: nat, iter: nat, t: nat): System<State, nat>
  {
    System(n, Itself, (s, x) => Move(s, iter, x), s => Tries(s, n, iter, t), s => ClimberLeft(s, t),
           (s, h) => Assists(s, t, h), (s, h) => Rank(s, h), n + 4)
  }

  lemma ClimberSound(n: nat, iter: nat, t: nat)
    ensures Sound(Climber(n, iter, t))
  {
    var y := Climber(n, iter, t);
    forall s, x | y.waiting(s) && y.waiting(y.step(s, x)) ensures y.left(y.step(s, x)) <= y.left(s) {
      ClimberStep(s, n, iter, t, x, t);
    }
    forall s | y.waiting(s) ensures exists h: nat :: h < y.n && y.helpful(s, h) {
      var h := SomeoneAssists(s, n, iter, t);
      assert y.helpful(s, h);
    }
    forall s, x, h: nat | y.waiting(s) && y.helpful(s, h) ensures Holds(y, s, x, h) {
      if y.waiting(y.step(s, x)) {
        ClimberStep(s, n, iter, t, x, h);
      }
    }
  }

  /** Rounds after which a thread that tried has owned the lock. */
  function EnoughForAll(n: nat): nat
  {
    Times(n, LevelMost(n)) * (n + 4)
  }

  lemma ClimberBound(s: State, n: nat, iter: nat, t: nat)
    requires Tries(s, n, iter, t)
    ensures ClimberLeft(s, t) + 1 <= Times(n, LevelMost(n))
  {
    OthersBound(s, t);
    BelowTop(n, s.pcs[t].at.i, LevelMost(n));
  }

  lemma BelowTop(n: nat, i: nat, most: nat)
    requires 1 <= i <= n
    ensures Times(n - i, most) + most <= Times(n, most)
  {
    Larger(n - i + 1, n, most);
    assert (n - i + 1) * most == (n - i) * most + most;
  }

  lemma {:induction false} ClimberFollows(s: State, n: nat, iter: nat, t: nat, schedule: seq<nat>)
    requires WellFormed(s)
    ensures Follow(Climber(n, iter, t).step, s, schedule) == Run(s, iter, schedule)
  {
    if schedule != [] {
      ClimberFollows(s, n, iter, t, schedule[..|schedule| - 1]);
    }
  }

  lemma TriesThroughout(s: State, n: nat, iter: nat, t: nat, schedule: seq<nat>)
    requires Tries(s, n, iter, t)
    requires forall m :: 0 <= m <= |schedule| ==> !Owns(Run(s, iter, schedule[..m]).pcs[t])
    ensures StaysWaiting(Climber(n, iter, t), s, schedule)
  {
    forall m | 0 <= m <= |schedule|
      ensures Climber(n, iter, t).waiting(Follow(Climber(n, iter, t).step, s, schedule[..m]))
    {
      assert forall l :: 0 <= l <= m ==> schedule[..m][..l] == schedule[..l];
      TriesOn(s, iter, schedule[..m], t);
      RunKeepsInv(s, iter, schedule[..m]);
      ClimberFollows(s, n, iter, t, schedule[..m]);
    }
  }

  lemma LockedOutIsShort(s: State, n: nat, iter: nat, t: nat, rounds: seq<seq<nat>>)
    requires Tries(s, n, iter, t) && Fair(n, rounds)
    requires forall m :: 0 <= m <= |Flat(rounds)| ==> !Owns(Run(s, iter, Flat(rounds)[..m]).pcs[t])
    ensures |rounds| < EnoughForAll(n)
  {
    TriesThroughout(s, n, iter, t, Flat(rounds));
    ClimberSound(n, iter, t);
    FairSteps(n, rounds);
    WaitingEnds(Climber(n, iter, t), s, rounds);
    ClimberBound(s, n, iter, t);
    Larger(ClimberLeft(s, t) + 1, Times(n, LevelMost(n)), n + 4);
  }

  /**
   * Starvation freedom.  After every run in which thread t tries to enter, any schedule in which
   * every thread takes at least a step in each of enough rounds gives t the lock.
   */
  lemma NoStarvation(n: nat, iter: nat, before: seq<nat>, rounds: seq<seq<nat>>, t: nat)
    requires t < n && Run(Init(n), iter, before).pcs[t].Try?
    requires Fair(n, rounds) && |rounds| >= EnoughForAll(n)
    ensures exists m :: 0 <= m <= |Flat(rounds)| &&
                        Owns(Run(Run(Init(n), iter, before), iter, Flat(rounds)[..m]).pcs[t])
  {
    var s := Run(Init(n), iter, before);
    InitInv(n, iter);
    RunKeepsInv(Init(n), iter, before);
    if forall m :: 0 <= m <= |Flat(rounds)| ==> !Owns(Run(s, iter, Flat(rounds)[..m]).pcs[t]) {
      LockedOutIsShort(s, n, iter, t, rounds);
    }
  }
}
