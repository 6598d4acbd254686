/** Counting the entries of a thread table that satisfy a predicate. */
module Counting {

  function Count<T>(p: T -> bool, s: seq<T>): (n: nat)
    ensures n <= |s|
  {
    if s == [] then 0 else (if p(s[0]) then 1 else 0) + Count(p, s[1..])
  }

  lemma {:induction false} CountUpdate<T>(p: T -> bool, s: seq<T>, i: nat, x: T)
    requires i < |s|
    ensures Count(p, s[i := x]) == Count(p, s) - (if p(s[i]) then 1 else 0) + (if p(x) then 1 else 0)
  {
    if i == 0 {
      assert s[i := x][1..] == s[1..];
    } else {
      assert s[i := x][1..] == s[1..][i - 1 := x];
      CountUpdate(p, s[1..], i - 1, x);
    }
  }

  /** A pointwise weaker predicate counts at least as much. */
  lemma {:induction false} CountMonotone<T>(p: T -> bool, q: T -> bool, s: seq<T>)
    requires forall i :: 0 <= i < |s| && p(s[i]) ==> q(s[i])
    ensures Count(p, s) <= Count(q, s)
  {
    if s != [] {
      assert forall i :: 0 <= i < |s[1..]| ==> s[1..][i] == s[1 + i];
      CountMonotone(p, q, s[1..]);
    }
  }

  lemma {:induction false} CountZero<T>(p: T -> bool, s: seq<T>)
    ensures Count(p, s) == 0 <==> forall i :: 0 <= i < |s| ==> !p(s[i])
  {
    if s != [] {
      CountZero(p, s[1..]);
      assert forall i :: 0 <= i < |s[1..]| ==> s[1..][i] == s[1 + i];
      if forall i :: 0 <= i < |s[1..]| ==> !p(s[1..][i]) {
        forall i | 0 < i < |s| ensures !p(s[i]) {
          assert s[i] == s[1..][i - 1];
        }
      }
    }
  }

  /** One entry that fails the predicate leaves room below the length. */
  lemma {:induction false} CountBelowLength<T>(p: T -> bool, s: seq<T>, i: nat)
    requires i < |s| && !p(s[i])
    ensures Count(p, s) < |s|
  {
    if i > 0 {
      CountBelowLength(p, s[1..], i - 1);
    }
  }

  /** One entry that satisfies the predicate is counted. */
  lemma CountPositive<T>(p: T -> bool, s: seq<T>, i: nat)
    requires i < |s| && p(s[i])
    ensures Count(p, s) > 0
  {
    CountZero(p, s);
  }

  /** Two entries that satisfy the predicate are counted twice. */
  lemma {:induction false} CountTwo<T>(p: T -> bool, s: seq<T>, i: nat, j: nat)
    requires i < j < |s| && p(s[i]) && p(s[j])
    ensures Count(p, s) >= 2
  {
    if i == 0 {
      CountPositive(p, s[1..], j - 1);
    } else {
      CountTwo(p, s[1..], i - 1, j - 1);
    }
  }

  /** Tables that agree on the predicate entry by entry have the same count. */
  lemma {:induction false} CountPointwise<T>(p: T -> bool, a: seq<T>, b: seq<T>)
    requires |a| == |b| && forall i :: 0 <= i < |a| ==> p(a[i]) == p(b[i])
    ensures Count(p, a) == Count(p, b)
  {
    if a != [] {
      assert forall i :: 0 <= i < |a[1..]| ==> a[1..][i] == a[1 + i] && b[1..][i] == b[1 + i];
      CountPointwise(p, a[1..], b[1..]);
    }
  }

  lemma {:induction false} CountConcat<T>(p: T -> bool, a: seq<T>, b: seq<T>)
    ensures Count(p, a + b) == Count(p, a) + Count(p, b)
  {
    if a == [] {
      assert a + b == b;
    } else {
      assert (a + b)[1..] == a[1..] + b;
      CountConcat(p, a[1..], b);
    }
  }

  /** Membership is a positive count. */
  function Is(id: nat): nat -> bool
  {
    (x: nat) => x == id
  }

  lemma {:induction false} CountIs(id: nat, s: seq<nat>)
    ensures Count(Is(id), s) > 0 <==> id in s
  {
    CountZero(Is(id), s);
  }

  /** The sum of a weight over a table. */
  function Sum<T>(f: T -> nat, s: seq<T>): nat
  {
    if s == [] then 0 else f(s[0]) + Sum(f, s[1..])
  }

  lemma {:induction false} SumUpdate<T>(f: T -> nat, s: seq<T>, i: nat, x: T)
    requires i < |s|
    ensures Sum(f, s[i := x]) == Sum(f, s) - f(s[i]) + f(x)
  {
    if i == 0 {
      assert s[i := x][1..] == s[1..];
    } else {
      assert s[i := x][1..] == s[1..][i - 1 := x];
      SumUpdate(f, s[1..], i - 1, x);
    }
  }

  lemma {:induction false} SumMonotone<T>(f: T -> nat, a: seq<T>, b: seq<T>)
    requires |a| == |b| && forall i :: 0 <= i < |a| ==> f(a[i]) <= f(b[i])
    ensures Sum(f, a) <= Sum(f, b)
  {
    if a != [] {
      assert forall i :: 0 <= i < |a[1..]| ==> a[1..][i] == a[1 + i] && b[1..][i] == b[1 + i];
      SumMonotone(f, a[1..], b[1..]);
    }
  }

  lemma {:induction false} SumBound<T>(f: T -> nat, s: seq<T>, c: nat)
    requires forall i :: 0 <= i < |s| ==> f(s[i]) <= c
    ensures Sum(f, s) <= |s| * c
  {
    if s != [] {
      assert forall i :: 0 <= i < |s[1..]| ==> s[1..][i] == s[i + 1];
      SumBound(f, s[1..], c);
    }
  }
}
