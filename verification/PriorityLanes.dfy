/**
 * What the three-lane queue means, as three sequences: insert appends to a lane, pop takes the head
 * of the highest non-empty lane, aging moves a prefix of one lane to the front of the next.
 */
module PriorityLanes {

  const LOW := 0
  const MEDIUM := 1
  const HIGH := 2
  const NUM_PRIORITIES := 3

  type Priority = p: nat | p < NUM_PRIORITIES
  type Lanes<T> = q: seq<seq<T>> | |q| == NUM_PRIORITIES witness [[], [], []]

  function Empty<T>(): Lanes<T>
  {
    [[], [], []]
  }

  /** The order in which the queue would be served if nothing else happened. */
  function Order<T>(q: Lanes<T>): seq<T>
  {
    q[HIGH] + q[MEDIUM] + q[LOW]
  }

  function Size<T>(q: Lanes<T>): nat
  {
    |q[LOW]| + |q[MEDIUM]| + |q[HIGH]|
  }

  function Push<T>(q: Lanes<T>, p: Priority, t: T): Lanes<T>
  {
    q[p := q[p] + [t]]
  }

  /** The highest non-empty lane. */
  function Top<T>(q: Lanes<T>): (p: Priority)
    requires Size(q) > 0
    ensures q[p] != [] && forall r: nat :: p < r < NUM_PRIORITIES ==> q[r] == []
  {
    if q[HIGH] != [] then HIGH else if q[MEDIUM] != [] then MEDIUM else LOW
  }

  function Head<T>(q: Lanes<T>): T
    requires Size(q) > 0
  {
    q[Top(q)][0]
  }

  function Rest<T>(q: Lanes<T>): Lanes<T>
    requires Size(q) > 0
  {
    q[Top(q) := q[Top(q)][1..]]
  }

  /** Move the first n tasks of lane src, in order, to the front of the next lane. */
  function Promote<T>(q: Lanes<T>, src: Priority, n: nat): Lanes<T>
    requires src < HIGH && n <= |q[src]|
  {
    q[src + 1 := q[src][..n] + q[src + 1]][src := q[src][n..]]
  }

  // ---------- the operations seen through the order of service ----------

  /** Pop serves the order of service from its front. */
  lemma PopServesInOrder<T>(q: Lanes<T>)
    requires Size(q) > 0
    ensures Order(q) == [Head(q)] + Order(Rest(q))
    ensures Size(Rest(q)) == Size(q) - 1
  {
  }

  /** Push puts the task behind everything of the same or a higher lane, ahead of the lower lanes. */
  lemma PushIntoOrder<T>(q: Lanes<T>, p: Priority, t: T)
    ensures var k := |q[HIGH]| + (if p <= MEDIUM then |q[MEDIUM]| else 0) + (if p == LOW then |q[LOW]| else 0);
            Order(Push(q, p, t)) == Order(q)[..k] + [t] + Order(q)[k..]
    ensures Size(Push(q, p, t)) == Size(q) + 1
  {
  }

  /** Promotion from LOW exchanges the promoted prefix with the MEDIUM lane, and changes nothing else. */
  lemma PromoteLowInOrder<T>(q: Lanes<T>, n: nat)
    requires n <= |q[LOW]|
    ensures Order(q) == q[HIGH] + q[MEDIUM] + q[LOW][..n] + q[LOW][n..]
    ensures Order(Promote(q, LOW, n)) == q[HIGH] + q[LOW][..n] + q[MEDIUM] + q[LOW][n..]
  {
  }

  /** Promotion from MEDIUM puts the promoted prefix ahead of the whole HIGH lane. */
  lemma PromoteMediumInOrder<T>(q: Lanes<T>, n: nat)
    requires n <= |q[MEDIUM]|
    ensures Order(q) == q[HIGH] + q[MEDIUM][..n] + q[MEDIUM][n..] + q[LOW]
    ensures Order(Promote(q, MEDIUM, n)) == q[MEDIUM][..n] + q[HIGH] + q[MEDIUM][n..] + q[LOW]
  {
  }

  lemma PromoteNothing<T>(q: Lanes<T>, src: Priority)
    requires src < HIGH
    ensures Promote(q, src, 0) == q
  {
    assert q[src][..0] + q[src + 1] == q[src + 1] && q[src][0..] == q[src];
  }

  /** Promotion as two lane updates. */
  lemma PromoteByLanes<T>(q: Lanes<T>, src: Priority, moved: seq<T>, kept: seq<T>)
    requires src < HIGH && q[src] == moved + kept
    ensures q[src := kept][src + 1 := moved + q[src + 1]] == Promote(q, src, |moved|)
    ensures Size(q[src := kept][src + 1 := moved + q[src + 1]]) == Size(q)
  {
    assert q[src][..|moved|] == moved && q[src][|moved|..] == kept;
  }

  /** Promotion neither loses nor duplicates a task. */
  lemma PromoteKeepsTasks<T>(q: Lanes<T>, src: Priority, n: nat)
    requires src < HIGH && n <= |q[src]|
    ensures multiset(Order(Promote(q, src, n))) == multiset(Order(q))
    ensures Size(Promote(q, src, n)) == Size(q)
  {
    if src == LOW { PromoteLowInOrder(q, n); } else { PromoteMediumInOrder(q, n); }
  }

  lemma PromoteKeepsSize<T>(q: Lanes<T>, src: Priority, n: nat)
    requires src < HIGH && n <= |q[src]|
    ensures Size(Promote(q, src, n)) == Size(q)
  {
  }

  // ---------- stable priority order ----------

  type Job<T> = (Priority, T)

  function PushAll<T>(jobs: seq<Job<T>>): Lanes<Job<T>>
  {
    if jobs == [] then Empty()
    else
      var last := |jobs| - 1;
      Push(PushAll(jobs[..last]), jobs[last].0, jobs[last])
  }

  /** Pop until the queue is empty. */
  function Drain<T>(q: Lanes<T>): seq<T>
    decreases Size(q)
  {
    if Size(q) == 0 then [] else [Head(q)] + Drain(Rest(q))
  }

  /** Insertion behind every job of at least the same priority. */
  function InsertStable<T>(sorted: seq<Job<T>>, x: Job<T>): seq<Job<T>>
  {
    if sorted != [] && sorted[0].0 >= x.0 then [sorted[0]] + InsertStable(sorted[1..], x) else [x] + sorted
  }

  /** The stable sort by descending priority, with no mention of lanes. */
  function StableSort<T>(jobs: seq<Job<T>>): seq<Job<T>>
  {
    if jobs == [] then []
    else InsertStable(StableSort(jobs[..|jobs| - 1]), jobs[|jobs| - 1])
  }

  lemma {:induction false} DrainIsOrder<T>(q: Lanes<T>)
    ensures Drain(q) == Order(q)
    decreases Size(q)
  {
    if Size(q) > 0 {
      PopServesInOrder(q);
      DrainIsOrder(Rest(q));
    }
  }

  lemma {:induction false} InsertBetween<T>(a: seq<Job<T>>, b: seq<Job<T>>, x: Job<T>)
    requires forall i :: 0 <= i < |a| ==> a[i].0 >= x.0
    requires b != [] ==> b[0].0 < x.0
    ensures InsertStable(a + b, x) == a + [x] + b
  {
    if a == [] {
      assert a + b == b;
    } else {
      assert (a + b)[1..] == a[1..] + b;
      InsertBetween(a[1..], b, x);
      assert a == [a[0]] + a[1..];
    }
  }

  lemma {:induction false} LanesHoldTheirPriority<T>(jobs: seq<Job<T>>)
    ensures forall p: nat, i: nat :: p < NUM_PRIORITIES && i < |PushAll(jobs)[p]| ==> PushAll(jobs)[p][i].0 == p
  {
    if jobs != [] {
      LanesHoldTheirPriority(jobs[..|jobs| - 1]);
    }
  }

  lemma PushInsertsStably<T>(q: Lanes<Job<T>>, x: Job<T>)
    requires forall p: nat, i: nat :: p < NUM_PRIORITIES && i < |q[p]| ==> q[p][i].0 == p
    ensures Order(Push(q, x.0, x)) == InsertStable(Order(q), x)
  {
    if x.0 == HIGH {
      InsertBetween(q[HIGH], q[MEDIUM] + q[LOW], x);
      assert Order(q) == q[HIGH] + (q[MEDIUM] + q[LOW]);
      assert Order(Push(q, HIGH, x)) == q[HIGH] + [x] + (q[MEDIUM] + q[LOW]);
    } else if x.0 == MEDIUM {
      InsertBetween(q[HIGH] + q[MEDIUM], q[LOW], x);
      assert Order(Push(q, MEDIUM, x)) == q[HIGH] + q[MEDIUM] + [x] + q[LOW];
    } else {
      InsertBetween(Order(q), [], x);
      assert Order(q) + [] == Order(q);
      assert Order(Push(q, LOW, x)) == Order(q) + [x] + [];
    }
  }

  /** Pushing any jobs and popping until empty yields their stable sort by descending priority. */
  lemma {:induction false} StableOrder<T>(jobs: seq<Job<T>>)
    ensures Drain(PushAll(jobs)) == StableSort(jobs)
  {
    DrainIsOrder(PushAll(jobs));
    if jobs != [] {
      var last := |jobs| - 1;
      StableOrder(jobs[..last]);
      DrainIsOrder(PushAll(jobs[..last]));
      LanesHoldTheirPriority(jobs[..last]);
      PushInsertsStably(PushAll(jobs[..last]), jobs[last]);
    }
  }
}
