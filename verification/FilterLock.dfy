/**
 * The N-thread filter lock: every shared read or write is one step, and a schedule is any sequence
 * of thread numbers.  `level` and `victim` are the shared arrays; N is the number of threads.
 */
module FilterLock {
  import opened CriticalSection

  datatype Climb =
    | SetLevel(i: nat)      // level[id] = i
    | SetVictim(i: nat)     // victim[i] = id
    | Scan(i: nat, k: nat)  // check_k: about to read level[k]
    | ReadVictim(i: nat)    // check_k returned 1: about to read victim[i]

  type Pc = Phase<Climb>

  datatype State = State(level: seq<int>, victim: seq<int>, pcs: seq<Pc>, tally: Tally)

  /** Start of level i, or of the critical section once all levels are passed. */
  function Climbing(n: nat, i: nat): Pc
  {
    if i < n then Try(SetLevel(i)) else Do(ReadCount)
  }

  predicate GoodPc(n: nat, pc: Pc)
  {
    pc.Try? ==> 1 <= pc.at.i < n && (pc.at.Scan? ==> pc.at.k <= n)
  }

  predicate WellFormed(s: State)
  {
    && |s.level| == |s.victim| == |s.pcs|
    && forall t :: 0 <= t < |s.pcs| ==> GoodPc(|s.pcs|, s.pcs[t])
  }

  function Init(n: nat): (s: State)
    ensures WellFormed(s)
  {
    State(seq(n, _ => 0), seq(n, _ => 0), seq(n, _ => Climbing(n, 1)), NoTally)
  }

  function TryStep(s: State, t: nat): State
    requires WellFormed(s) && t < |s.pcs| && s.pcs[t].Try?
  {
    var n := |s.pcs|;
    match s.pcs[t].at
    case SetLevel(i) => s.(level := s.level[t := i], pcs := s.pcs[t := Try(SetVictim(i))])
    case SetVictim(i) => s.(victim := s.victim[i := t], pcs := s.pcs[t := Try(Scan(i, 0))])
    case Scan(i, k) =>
      if k == n then s.(pcs := s.pcs[t := Climbing(n, i + 1)])
      else if k != t && s.level[k] >= i then s.(pcs := s.pcs[t := Try(ReadVictim(i))])
      else s.(pcs := s.pcs[t := Try(Scan(i, k + 1))])
    case ReadVictim(i) =>
      s.(pcs := s.pcs[t := if s.victim[i] == t then Try(Scan(i, 0)) else Climbing(n, i + 1)])
  }

  function DoStep(s: State, iter: nat, t: nat): State
    requires WellFormed(s) && t < |s.pcs| && s.pcs[t].Do?
  {
    var (pc, tally) := BodyStep(s.pcs[t].body, s.tally, iter, Climbing(|s.pcs|, 1));
    s.(level := if s.pcs[t].body.Unlock? then s.level[t := 0] else s.level,
       pcs := s.pcs[t := pc],
       tally := tally)
  }

  /** Thread t performs its next shared access; numbers that name no thread do nothing. */
  function Step(s: State, iter: nat, t: nat): (s': State)
    requires WellFormed(s)
    ensures WellFormed(s') && |s'.pcs| == |s.pcs|
  {
    if t >= |s.pcs| then s
    else if s.pcs[t].Try? then TryStep(s, t)
    else DoStep(s, iter, t)
  }

  function Run(s: State, iter: nat, schedule: seq<nat>): (s': State)
    requires WellFormed(s)
    ensures WellFormed(s') && |s'.pcs| == |s.pcs|
  {
    if schedule == [] then s
    else
      var last := |schedule| - 1;
      Step(Run(s, iter, schedule[..last]), iter, schedule[last])
  }

  // ---------- the invariant ----------

  /** The highest level whose wait the thread has passed. */
  function Passed(n: nat, pc: Pc): int
  {
    match pc
    case Try(c) => c.i - 1
    case Do(b) => if Owns(pc) then n - 1 else 0
  }

  /** The value of level[t] that a thread's position implies. */
  function LevelAt(n: nat, pc: Pc): int
  {
    if pc.Try? && !pc.at.SetLevel? then pc.at.i else Passed(n, pc)
  }

  /** A competitor at level j has written victim[j] and has not released the lock since. */
  predicate Competes(n: nat, pc: Pc, j: nat)
  {
    Passed(n, pc) >= j || (pc.Try? && pc.at.i == j && (pc.at.Scan? || pc.at.ReadVictim?))
  }

  ghost predicate LevelsAgree(s: State)
    requires WellFormed(s)
  {
    forall t :: 0 <= t < |s.pcs| ==> s.level[t] == LevelAt(|s.pcs|, s.pcs[t])
  }

  /** Thread t's half-finished scan of level i went past competitor u only if t is not the victim. */
  ghost predicate ScanSound(s: State, t: nat, u: nat)
    requires WellFormed(s) && t < |s.pcs| && u < |s.pcs|
  {
    var pc := s.pcs[t];
    t != u && pc.Try? && pc.at.Scan? && u < pc.at.k && Competes(|s.pcs|, s.pcs[u], pc.at.i)
    ==> s.victim[pc.at.i] != t
  }

  /** A thread past level j with another competitor there is not the victim of j. */
  ghost predicate WinnerSound(s: State, t: nat, u: nat, j: nat)
    requires WellFormed(s) && t < |s.pcs| && u < |s.pcs| && 1 <= j < |s.pcs|
  {
    t != u && Passed(|s.pcs|, s.pcs[t]) >= j && Competes(|s.pcs|, s.pcs[u], j) ==> s.victim[j] != t
  }

  /** If level j has a competitor, the last writer of victim[j] is one. */
  ghost predicate VictimSound(s: State, t: nat, j: nat)
    requires WellFormed(s) && t < |s.pcs| && 1 <= j < |s.pcs|
  {
    Competes(|s.pcs|, s.pcs[t], j) ==>
      0 <= s.victim[j] < |s.pcs| && Competes(|s.pcs|, s.pcs[s.victim[j]], j)
  }

  ghost predicate Inv(s: State, iter: nat)
  {
    && WellFormed(s)
    && LevelsAgree(s)
    && (forall t: nat, u: nat :: t < |s.pcs| && u < |s.pcs| ==> ScanSound(s, t, u))
    && (forall t: nat, u: nat, j: nat :: t < |s.pcs| && u < |s.pcs| && 1 <= j < |s.pcs| ==> WinnerSound(s, t, u, j))
    && (forall t: nat, j: nat :: t < |s.pcs| && 1 <= j < |s.pcs| ==> VictimSound(s, t, j))
    && TallyInv(s.pcs, s.tally, iter)
  }

  lemma StepKeepsLevels(s: State, iter: nat, x: nat)
    requires WellFormed(s) && LevelsAgree(s)
    ensures LevelsAgree(Step(s, iter, x))
  {
  }

  lemma StepKeepsScan(s: State, iter: nat, x: nat, t: nat, u: nat)
    requires WellFormed(s) && LevelsAgree(s) && t < |s.pcs| && u < |s.pcs| && ScanSound(s, t, u)
    ensures ScanSound(Step(s, iter, x), t, u)
  {
  }

  lemma StepKeepsWinner(s: State, iter: nat, x: nat, t: nat, u: nat, j: nat)
    requires WellFormed(s) && t < |s.pcs| && u < |s.pcs| && 1 <= j < |s.pcs|
    requires ScanSound(s, t, u) && WinnerSound(s, t, u, j)
    ensures WinnerSound(Step(s, iter, x), t, u, j)
  {
  }

  lemma StepKeepsVictim(s: State, iter: nat, x: nat, t: nat, j: nat)
    requires WellFormed(s) && t < |s.pcs| && 1 <= j < |s.pcs|
    requires 0 <= s.victim[j] < |s.pcs| ==> WinnerSound(s, s.victim[j], t, j)
    requires VictimSound(s, t, j)
    ensures VictimSound(Step(s, iter, x), t, j)
  {
  }

  // ---------- how many threads are past each level ----------

  function Winners(s: State, j: nat): set<nat>
  {
    set t: nat | t < |s.pcs| && Passed(|s.pcs|, s.pcs[t]) >= j
  }

  function Competitors(s: State, j: nat): set<nat>
  {
    set t: nat | t < |s.pcs| && Competes(|s.pcs|, s.pcs[t], j)
  }

  lemma {:induction false} BelowCard(n: nat, x: set<nat>)
    requires forall t :: t in x ==> t < n
    ensures |x| <= n
  {
    if n > 0 {
      BelowCard(n - 1, x - {n - 1});
    } else {
      assert x == {};
    }
  }

  lemma {:induction false} SubsetCard(a: set<nat>, b: set<nat>)
    requires a <= b
    ensures |a| <= |b|
    ensures |a| == |b| ==> a == b
  {
    if a != {} {
      var x :| x in a;
      SubsetCard(a - {x}, b - {x});
    }
  }

  /** At most N - j threads are past the wait of level j. */
  lemma {:induction false} AtMostNMinusJ(s: State, iter: nat, j: nat)
    requires Inv(s, iter) && j < |s.pcs|
    ensures |Winners(s, j)| <= |s.pcs| - j
  {
    var n := |s.pcs|;
    if j == 0 {
      BelowCard(n, Winners(s, 0));
    } else {
      AtMostNMinusJ(s, iter, j - 1);
      SubsetCard(Winners(s, j), Competitors(s, j));
      SubsetCard(Competitors(s, j), Winners(s, j - 1));
      if |Winners(s, j)| > n - j {
        assert Winners(s, j) == Competitors(s, j);
        var t :| t in Winners(s, j);
        var v := s.victim[j];
        assert VictimSound(s, t, j) && v in Winners(s, j);
        forall u | u in Winners(s, j) ensures u == v {
          assert WinnerSound(s, v, u, j);
        }
        SubsetCard(Winners(s, j), {v});
      }
    }
  }

  lemma OwnersAreWinners(s: State, iter: nat)
    requires Inv(s, iter)
    ensures Exclusive(s.pcs)
  {
    forall t: nat, u: nat | t < |s.pcs| && u < |s.pcs| && Owns(s.pcs[t]) && Owns(s.pcs[u])
      ensures t == u
    {
      AtMostNMinusJ(s, iter, |s.pcs| - 1);
      SubsetCard({t, u}, Winners(s, |s.pcs| - 1));
    }
  }

  // ---------- every run ----------

  lemma StepKeepsTally(s: State, iter: nat, x: nat)
    requires Inv(s, iter)
    ensures var s' := Step(s, iter, x); TallyInv(s'.pcs, s'.tally, iter)
  {
    if x < |s.pcs| {
      if s.pcs[x].Try? {
        TryKeepsTally(s.pcs, s.tally, iter, x, TryStep(s, x).pcs[x]);
        assert TryStep(s, x).pcs == s.pcs[x := TryStep(s, x).pcs[x]];
      } else {
        OwnersAreWinners(s, iter);
        BodyKeepsTally(s.pcs, s.tally, iter, x, Climbing(|s.pcs|, 1));
      }
    }
  }

  lemma StepKeepsInv(s: State, iter: nat, x: nat)
    requires Inv(s, iter)
    ensures Inv(Step(s, iter, x), iter)
  {
    var s' := Step(s, iter, x);
    StepKeepsLevels(s, iter, x);
    forall t: nat, u: nat | t < |s'.pcs| && u < |s'.pcs| ensures ScanSound(s', t, u) {
      StepKeepsScan(s, iter, x, t, u);
    }
    forall t: nat, u: nat, j: nat | t < |s'.pcs| && u < |s'.pcs| && 1 <= j < |s'.pcs|
      ensures WinnerSound(s', t, u, j)
    {
      StepKeepsWinner(s, iter, x, t, u, j);
    }
    forall t: nat, j: nat | t < |s'.pcs| && 1 <= j < |s'.pcs| ensures VictimSound(s', t, j) {
      StepKeepsVictim(s, iter, x, t, j);
    }
    StepKeepsTally(s, iter, x);
  }

  lemma {:induction false} RunKeepsInv(s: State, iter: nat, schedule: seq<nat>)
    requires Inv(s, iter)
    ensures Inv(Run(s, iter, schedule), iter)
  {
    if schedule != [] {
      var last := |schedule| - 1;
      RunKeepsInv(s, iter, schedule[..last]);
      StepKeepsInv(Run(s, iter, schedule[..last]), iter, schedule[last]);
    }
  }

  lemma InitInv(n: nat, iter: nat)
    ensures Inv(Init(n), iter)
  {
  }

  /** For every N, level j and schedule, at most N - j threads are past the wait of level j. */
  lemma LevelBound(n: nat, iter: nat, schedule: seq<nat>, j: nat)
    requires j < n
    ensures |Winners(Run(Init(n), iter, schedule), j)| <= n - j
  {
    InitInv(n, iter);
    RunKeepsInv(Init(n), iter, schedule);
    AtMostNMinusJ(Run(Init(n), iter, schedule), iter, j);
  }

  /** No two threads own the lock, whatever the schedule. */
  lemma MutualExclusion(n: nat, iter: nat, schedule: seq<nat>)
    ensures Exclusive(Run(Init(n), iter, schedule).pcs)
  {
    InitInv(n, iter);
    RunKeepsInv(Init(n), iter, schedule);
    OwnersAreWinners(Run(Init(n), iter, schedule), iter);
  }

  /** The split read and write of `count` loses no update, and the final value is within N of ITER. */
  lemma CounterExact(n: nat, iter: nat, schedule: seq<nat>)
    requires n > 0
    ensures var s := Run(Init(n), iter, schedule);
            && s.tally.count == s.tally.done
            && ((forall t :: 0 <= t < n ==> s.pcs[t] == Do(Stopped)) ==> iter + 1 <= s.tally.count <= iter + n)
  {
    InitInv(n, iter);
    RunKeepsInv(Init(n), iter, schedule);
    var s := Run(Init(n), iter, schedule);
    if forall t :: 0 <= t < n ==> s.pcs[t] == Do(Stopped) {
      FinalCount(s.pcs, s.tally, iter);
    }
  }
}
