/** Reachability over a relation of symbols. */
module Graphs {

  /** b is reached from a by a path of at most n + 1 edges. */
  ghost predicate ReachesIn(e: (nat, nat) -> bool, a: nat, b: nat, n: nat)
    decreases n
  {
    e(a, b) || (n > 0 && exists c: nat :: e(a, c) && ReachesIn(e, c, b, n - 1))
  }

  /** A path of one edge or more. */
  ghost predicate Reaches(e: (nat, nat) -> bool, a: nat, b: nat) {
    exists n: nat :: ReachesIn(e, a, b, n)
  }

  lemma ReachesEdge(e: (nat, nat) -> bool, a: nat, b: nat)
    requires e(a, b)
    ensures Reaches(e, a, b)
  {
    assert ReachesIn(e, a, b, 0);
  }

  lemma {:induction false} ReachesThen(e: (nat, nat) -> bool, a: nat, b: nat, c: nat, n: nat)
    requires ReachesIn(e, a, b, n) && e(b, c)
    ensures ReachesIn(e, a, c, n + 1)
    decreases n
  {
    if e(a, b) {
      assert ReachesIn(e, b, c, n);
    } else {
      var d: nat :| e(a, d) && ReachesIn(e, d, b, n - 1);
      ReachesThen(e, d, b, c, n - 1);
    }
  }

  lemma ReachesStep(e: (nat, nat) -> bool, a: nat, b: nat, c: nat)
    requires Reaches(e, a, b) && e(b, c)
    ensures Reaches(e, a, c)
  {
    var n: nat :| ReachesIn(e, a, b, n);
    ReachesThen(e, a, b, c, n);
  }

  /** A path of a smaller relation is a path of a larger one. */
  lemma {:induction false} ReachesMonotone(e: (nat, nat) -> bool, e': (nat, nat) -> bool, a: nat, b: nat, n: nat)
    requires ReachesIn(e, a, b, n) && forall x: nat, y: nat | e(x, y) :: e'(x, y)
    ensures ReachesIn(e', a, b, n)
    decreases n
  {
    if !e(a, b) {
      var c: nat :| e(a, c) && ReachesIn(e, c, b, n - 1);
      ReachesMonotone(e, e', c, b, n - 1);
    }
  }

  ghost predicate Acyclic(e: (nat, nat) -> bool) {
    forall x: nat :: !Reaches(e, x, x)
  }

  /** The symbols below n from which x is reached. */
  ghost function Before(e: (nat, nat) -> bool, n: nat, x: nat): set<nat> {
    set y | 0 <= y < n && Reaches(e, y, x)
  }

  /** Against an edge of an acyclic relation there is strictly less before. */
  lemma BeforeDecreases(e: (nat, nat) -> bool, n: nat, a: nat, b: nat)
    requires Acyclic(e) && e(a, b) && a < n
    ensures |Before(e, n, a)| < |Before(e, n, b)|
  {
    ReachesEdge(e, a, b);
    forall y | y in Before(e, n, a)
      ensures y in Before(e, n, b)
    {
      ReachesStep(e, y, a, b);
    }
    assert a in Before(e, n, b) && a !in Before(e, n, a);
    Smaller(Before(e, n, a), Before(e, n, b), a);
  }

  lemma Smaller(s: set<nat>, t: set<nat>, x: nat)
    requires s <= t && x in t && x !in s
    ensures |s| < |t|
  {
    SizeMonotone(s, t - {x});
  }

  lemma {:induction false} SizeMonotone<T>(s: set<T>, t: set<T>)
    requires s <= t
    ensures |s| <= |t|
    decreases s
  {
    if s != {} {
      var x :| x in s;
      SizeMonotone(s - {x}, t - {x});
    }
  }

  lemma {:induction false} SizeBelow(s: set<nat>, n: nat)
    requires forall x | x in s :: x < n
    ensures |s| <= n
    decreases n
  {
    if n == 0 {
      assert s == {};
    } else {
      SizeBelow(s - {n - 1}, n - 1);
    }
  }
}
