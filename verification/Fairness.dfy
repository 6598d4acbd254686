/** Progress under every schedule that runs in rounds, from a measure and a helpful thread. */
module Fairness {

  /**
   * Threads numbered below n, and actions that step a state, each of them a step of its owner or of no
   * thread.  While `waiting` holds, `left` never grows; some thread is helpful, and as long as
   * `left` stays the same it remains so, each of its own steps lowering its rank, which is below `bound`.
   */
  datatype System<!S, !A> = System(
    n: nat,
    owner: A -> nat,
    step: (S, A) -> S,
    waiting: S -> bool,
    left: S -> nat,
    helpful: (S, nat) -> bool,
    rank: (S, nat) -> nat,
    bound: nat)

  ghost predicate Sound<S(!new), A(!new)>(y: System<S, A>)
  {
    && (forall s, a :: y.waiting(s) && y.waiting(y.step(s, a)) ==> y.left(y.step(s, a)) <= y.left(s))
    && (forall s :: y.waiting(s) ==> exists h: nat :: h < y.n && y.helpful(s, h))
    && (forall s, h: nat :: y.waiting(s) && y.helpful(s, h) ==> y.rank(s, h) < y.bound)
    && (forall s, a, h: nat :: y.waiting(s) && y.helpful(s, h) ==> Holds(y, s, a, h))
  }

  /** An action that leaves `left` as it is keeps h helpful, and is progress if it is h's own. */
  ghost predicate Holds<S(!new), A>(y: System<S, A>, s: S, a: A, h: nat)
  {
    var s' := y.step(s, a);
    y.waiting(s') && y.left(s') == y.left(s) ==>
      y.helpful(s', h) && y.rank(s', h) + (if y.owner(a) == h then 1 else 0) <= y.rank(s, h)
  }

  function Follow<S, A>(step: (S, A) -> S, s: S, schedule: seq<A>): S
  {
    if schedule == [] then s
    else step(Follow(step, s, schedule[..|schedule| - 1]), schedule[|schedule| - 1])
  }

  lemma {:induction false} FollowConcat<S, A>(step: (S, A) -> S, s: S, a: seq<A>, b: seq<A>)
    ensures Follow(step, s, a + b) == Follow(step, Follow(step, s, a), b)
  {
    if b == [] {
      assert a + b == a;
    } else {
      assert (a + b)[..|a + b| - 1] == a + b[..|b| - 1];
      FollowConcat(step, s, a, b[..|b| - 1]);
    }
  }

  function Flat<A>(rounds: seq<seq<A>>): seq<A>
  {
    if rounds == [] then [] else Flat(rounds[..|rounds| - 1]) + rounds[|rounds| - 1]
  }

  lemma {:induction false} FlatConcat<A>(a: seq<seq<A>>, b: seq<seq<A>>)
    ensures Flat(a + b) == Flat(a) + Flat(b)
  {
    if b == [] {
      assert a + b == a;
    } else {
      assert (a + b)[..|a + b| - 1] == a + b[..|b| - 1];
      FlatConcat(a, b[..|b| - 1]);
    }
  }

  /** Thread t takes a step in the round. */
  ghost predicate Steps<A>(owner: A -> nat, round: seq<A>, t: nat)
  {
    exists k :: 0 <= k < |round| && owner(round[k]) == t
  }

  /** Every thread takes a step in every round, in any order and any number of times. */
  ghost predicate AllStep<A>(n: nat, owner: A -> nat, rounds: seq<seq<A>>)
  {
    forall r, t: nat :: 0 <= r < |rounds| && t < n ==> Steps(owner, rounds[r], t)
  }

  ghost predicate StaysWaiting<S, A>(y: System<S, A>, s: S, schedule: seq<A>)
  {
    forall m :: 0 <= m <= |schedule| ==> y.waiting(Follow(y.step, s, schedule[..m]))
  }

  lemma StaysSplit<S, A>(y: System<S, A>, s: S, a: seq<A>, b: seq<A>)
    requires StaysWaiting(y, s, a + b)
    ensures StaysWaiting(y, s, a) && StaysWaiting(y, Follow(y.step, s, a), b)
  {
    forall m | 0 <= m <= |a| ensures y.waiting(Follow(y.step, s, a[..m])) {
      assert (a + b)[..m] == a[..m];
    }
    forall m | 0 <= m <= |b| ensures y.waiting(Follow(y.step, Follow(y.step, s, a), b[..m])) {
      assert (a + b)[..|a| + m] == a + b[..m];
      FollowConcat(y.step, s, a, b[..m]);
    }
  }

  lemma StaysEnds<S, A>(y: System<S, A>, s: S, schedule: seq<A>)
    requires StaysWaiting(y, s, schedule)
    ensures y.waiting(s) && y.waiting(Follow(y.step, s, schedule))
  {
    assert schedule[..0] == [] && schedule[..|schedule|] == schedule;
  }

  lemma {:induction false} LeftShrinks<S(!new), A(!new)>(y: System<S, A>, s: S, schedule: seq<A>)
    requires Sound(y) && StaysWaiting(y, s, schedule)
    ensures y.left(Follow(y.step, s, schedule)) <= y.left(s)
  {
    if schedule != [] {
      var last := |schedule| - 1;
      assert schedule[..last] + [schedule[last]] == schedule;
      StaysSplit(y, s, schedule[..last], [schedule[last]]);
      LeftShrinks(y, s, schedule[..last]);
      StaysEnds(y, s, schedule[..last]);
      StaysEnds(y, s, schedule);
    }
  }

  lemma {:induction false} Helped<S(!new), A(!new)>(y: System<S, A>, s: S, schedule: seq<A>, h: nat)
    requires Sound(y) && StaysWaiting(y, s, schedule) && y.helpful(s, h)
    requires y.left(Follow(y.step, s, schedule)) == y.left(s)
    ensures var e := Follow(y.step, s, schedule);
            y.helpful(e, h) && y.rank(e, h) + (if Steps(y.owner, schedule, h) then 1 else 0) <= y.rank(s, h)
  {
    if schedule != [] {
      var last := |schedule| - 1;
      var early := schedule[..last];
      assert early + [schedule[last]] == schedule;
      StaysSplit(y, s, early, [schedule[last]]);
      LeftShrinks(y, s, early);
      var mid := Follow(y.step, s, early);
      StaysEnds(y, s, early);
      StaysEnds(y, s, schedule);
      assert y.left(y.step(mid, schedule[last])) <= y.left(mid);
      Helped(y, s, early, h);
      assert Holds(y, mid, schedule[last], h);
      if Steps(y.owner, schedule, h) && y.owner(schedule[last]) != h {
        var k :| 0 <= k < |schedule| && y.owner(schedule[k]) == h;
        assert early[k] == schedule[k];
      }
    }
  }

  lemma {:induction false} HelpedRounds<S(!new), A(!new)>(y: System<S, A>, s: S, rounds: seq<seq<A>>, h: nat)
    requires Sound(y) && StaysWaiting(y, s, Flat(rounds)) && AllStep(y.n, y.owner, rounds)
    requires h < y.n && y.helpful(s, h)
    requires y.left(Follow(y.step, s, Flat(rounds))) == y.left(s)
    ensures var e := Follow(y.step, s, Flat(rounds)); y.helpful(e, h) && y.rank(e, h) + |rounds| <= y.rank(s, h)
  {
    if rounds != [] {
      var last := |rounds| - 1;
      var early, round := Flat(rounds[..last]), rounds[last];
      var mid := Follow(y.step, s, early);
      StaysSplit(y, s, early, round);
      LeftShrinks(y, s, early);
      LeftShrinks(y, mid, round);
      FollowConcat(y.step, s, early, round);
      HelpedRounds(y, s, rounds[..last], h);
      Helped(y, mid, round, h);
    }
  }

  lemma Helper<S(!new), A(!new)>(y: System<S, A>, s: S) returns (h: nat)
    requires Sound(y) && y.waiting(s)
    ensures h < y.n && y.helpful(s, h) && y.rank(s, h) < y.bound
  {
    h :| h < y.n && y.helpful(s, h);
  }

  /** After `bound` rounds `left` has gone down. */
  lemma RoundsLower<S(!new), A(!new)>(y: System<S, A>, s: S, rounds: seq<seq<A>>)
    requires Sound(y) && StaysWaiting(y, s, Flat(rounds)) && AllStep(y.n, y.owner, rounds) && |rounds| >= y.bound
    ensures y.left(Follow(y.step, s, Flat(rounds))) < y.left(s)
  {
    LeftShrinks(y, s, Flat(rounds));
    StaysEnds(y, s, Flat(rounds));
    var h := Helper(y, s);
    if y.left(Follow(y.step, s, Flat(rounds))) == y.left(s) {
      HelpedRounds(y, s, rounds, h);
    }
  }

  /** No schedule of enough rounds leaves the threads waiting. */
  lemma {:induction false} WaitingEnds<S(!new), A(!new)>(y: System<S, A>, s: S, rounds: seq<seq<A>>)
    requires Sound(y) && StaysWaiting(y, s, Flat(rounds)) && AllStep(y.n, y.owner, rounds)
    ensures |rounds| < (y.left(s) + 1) * y.bound
    decreases y.left(s)
  {
    StaysEnds(y, s, Flat(rounds));
    var h := Helper(y, s);
    if |rounds| >= y.bound {
      var first, rest := rounds[..y.bound], rounds[y.bound..];
      assert first + rest == rounds;
      FlatConcat(first, rest);
      StaysSplit(y, s, Flat(first), Flat(rest));
      RoundsLower(y, s, first);
      var e := Follow(y.step, s, Flat(first));
      WaitingEnds(y, e, rest);
      Scale(y.left(e) + 1, y.left(s), y.bound);
    }
  }

  lemma Scale(a: nat, b: nat, c: nat)
    requires a <= b
    ensures a * c + c <= (b + 1) * c
  {
  }

  lemma Larger(a: nat, b: nat, c: nat)
    requires a <= b
    ensures a * c <= b * c
  {
  }

  // ---------- schedules of thread numbers ----------

  /** Every thread number appears in every round. */
  predicate Fair(n: nat, rounds: seq<seq<nat>>)
  {
    forall r, t: nat :: 0 <= r < |rounds| && t < n ==> t in rounds[r]
  }

  function Itself(t: nat): nat
  {
    t
  }

  lemma FairSteps(n: nat, rounds: seq<seq<nat>>)
    requires Fair(n, rounds)
    ensures AllStep(n, Itself, rounds)
  {
    forall r, t: nat | 0 <= r < |rounds| && t < n ensures Steps(Itself, rounds[r], t) {
      assert t in rounds[r];
      var k :| 0 <= k < |rounds[r]| && rounds[r][k] == t;
      assert Itself(rounds[r][k]) == t;
    }
  }

  function Everyone(n: nat): (round: seq<nat>)
    ensures |round| == n && forall t: nat :: t < n ==> round[t] == t
  {
    seq(n, (t: nat) => t)
  }

  lemma RoundRobin(n: nat, count: nat) returns (rounds: seq<seq<nat>>)
    ensures |rounds| == count && Fair(n, rounds)
  {
    rounds := seq(count, _ => Everyone(n));
    forall r, t: nat | 0 <= r < |rounds| && t < n ensures t in rounds[r] {
      assert rounds[r] == Everyone(n) && Everyone(n)[t] == t;
    }
  }
}
