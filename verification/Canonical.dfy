/** The CLR(1) collection and its LALR(1) quotient as state graphs. */
module Canonical {
  import opened Grammars
  import opened Closures
  import opened Automata
  import opened Tables
  import opened Machines
  import opened Parsing

  const START_KERNEL: ItemSet := map[Item(0, 0) := {0}]

  /** What resolving the start state leaves: distinct closed states, each reached from an earlier
      one, with exactly the transitions of their items. */
  ghost predicate IsCanonical(g: Grammar, f: FirstInfo, a: Automaton) {
    && 0 < |a.states| == |a.trans|
    && LeastClosure(g, f, START_KERNEL, a.states[0])
    && (forall s | 0 <= s < |a.states| :: a.trans[s].Keys == NextSymbols(g, a.Core(s)))
    && (forall s, x | 0 <= s < |a.states| && x in a.trans[s] :: ClosureEdge(g, f, a, s, x))
    && (forall s, s' | 0 <= s < s' < |a.states| :: a.states[s] != a.states[s'])
    && (forall s | 0 < s < |a.states| :: Reached(a, s))
  }

  ghost predicate ClosureEdge(g: Grammar, f: FirstInfo, a: Automaton, s: nat, x: nat)
    requires s < |a.states| == |a.trans| && x in a.trans[s]
  {
    a.trans[s][x] < |a.states| && LeastClosure(g, f, Advance(g, a.states[s], x), a.states[a.trans[s][x]])
  }

  /** Some earlier state has a transition to s. */
  ghost predicate Reached(a: Automaton, s: nat)
    requires s < |a.states| == |a.trans|
  {
    exists p: nat, x: nat :: p < s && Link(a, p, x, s)
  }

  lemma EdgeCore(g: Grammar, f: FirstInfo, a: Automaton, s: nat, x: nat)
    requires s < |a.states| == |a.trans| && x in a.trans[s] && ClosureEdge(g, f, a, s, x)
    ensures Edge(g, a, s, x)
  {
    ClosureCore(g, f, Advance(g, a.states[s], x), a.states[a.trans[s][x]]);
    AdvanceKeys(g, a.states[s], x);
  }

  lemma StateBounded(g: Grammar, f: FirstInfo, a: Automaton, s: nat)
    requires IsCanonical(g, f, a) && s < |a.states|
    ensures Bounded(g, a.states[s]) && IsClosed(g, f, a.states[s])
  {
    if s > 0 {
      assert Reached(a, s);
      var p: nat, x: nat :| p < s && Link(a, p, x, s);
      assert ClosureEdge(g, f, a, p, x);
    }
  }

  lemma CanonicalCore(g: Grammar, f: FirstInfo, a: Automaton)
    requires IsCanonical(g, f, a)
    ensures CoreAutomaton(g, a)
  {
    hide LeastClosure, CoreClosure;
    forall s | 0 <= s < |a.states|
      ensures Bounded(g, a.states[s])
    {
      StateBounded(g, f, a, s);
    }
    ClosureCore(g, f, START_KERNEL, a.states[0]);
    assert START_KERNEL.Keys == {Item(0, 0)};
    forall s, x | 0 <= s < |a.states| && x in a.trans[s]
      ensures Edge(g, a, s, x)
    {
      assert ClosureEdge(g, f, a, s, x);
      EdgeCore(g, f, a, s, x);
    }
  }

  lemma CanonicalEdge(g: Grammar, f: FirstInfo, a: Automaton, s: nat, it: Item)
    requires IsCanonical(g, f, a) && s < |a.states| && it in a.states[s] && NotFinal(g, it)
    ensures LookaheadEdge(g, a, s, it)
  {
    hide LeastClosure, Advance;
    var x := Curr(g, it);
    assert it in a.Core(s) && x in NextSymbols(g, a.Core(s));
    assert ClosureEdge(g, f, a, s, x);
    AdvanceItem(g, a.states[s], it);
    KernelKept(g, f, Advance(g, a.states[s], x), a.states[a.trans[s][x]], Item(it.rule, it.dot + 1));
  }

  lemma AdvanceItem(g: Grammar, m: ItemSet, it: Item)
    requires it in m && NotFinal(g, it)
    ensures var next := Item(it.rule, it.dot + 1); next in Advance(g, m, Curr(g, it)) && Advance(g, m, Curr(g, it))[next] == m[it]
  {
    AdvanceKeys(g, m, Curr(g, it));
  }

  lemma KernelKept(g: Grammar, f: FirstInfo, kernel: ItemSet, m: ItemSet, it: Item)
    requires LeastClosure(g, f, kernel, m) && it in kernel
    ensures it in m && kernel[it] <= m[it]
  {
  }

  /** The CLR(1) graph passes lookaheads on within and across states. */
  lemma CanonicalLookaheads(g: Grammar, f: FirstInfo, a: Automaton)
    requires IsCanonical(g, f, a)
    ensures CoreAutomaton(g, a) && LookaheadClosed(g, f, a)
  {
    CanonicalCore(g, f, a);
    hide LeastClosure, CoreAutomaton;
    StartState(g, f, a);
    forall s | 0 <= s < |a.states|
      ensures Expanded(g, a.states[s]) && Propagated(g, f, a.states[s])
    {
      StateBounded(g, f, a, s);
    }
    forall s, it | 0 <= s < |a.states| && it in a.states[s] && NotFinal(g, it)
      ensures LookaheadEdge(g, a, s, it)
    {
      CanonicalEdge(g, f, a, s, it);
    }
  }

  lemma StartState(g: Grammar, f: FirstInfo, a: Automaton)
    requires IsCanonical(g, f, a)
    ensures Item(0, 0) in a.states[0] && 0 in a.states[0][Item(0, 0)]
  {
    assert Item(0, 0) in START_KERNEL;
  }

  // ------------------------------------------------ bounds on lookaheads, by leastness

  /** Lookaheads of a least closure satisfy any bound that the kernel satisfies and the closure
      equations keep. */
  lemma LookaheadBound(g: Grammar, f: FirstInfo, kernel: ItemSet, m: ItemSet, ok: (Item, nat) -> bool)
    requires LeastClosure(g, f, kernel, m)
    requires forall it, a | it in kernel && a in kernel[it] :: ok(it, a)
    requires forall it, it2, la: set<nat>, a |
               && it in m && it2 in m && AtNonterminal(g, it) && Lhs(g, it2) == Curr(g, it)
               && la <= m[it] && (forall b | b in la :: ok(it, b))
               && a in NextLookaheads(g, f, g.rules[it.rule].rhs, it.dot + 1, la) :: ok(it2, a)
    ensures forall it, a | it in m && a in m[it] :: ok(it, a)
  {
    var other := map it | it in m :: set a | a in m[it] && ok(it, a);
    forall it, it2 | it in other && it2 in other && AtNonterminal(g, it) && Lhs(g, it2) == Curr(g, it)
      ensures Contribution(g, f, other, it) <= other[it2]
    {
      NextMonotone(g, f, g.rules[it.rule].rhs, it.dot + 1, other[it], m[it]);
      assert Contribution(g, f, m, it) <= m[it2];
    }
    assert IsClosed(g, f, other);
    assert Leq(kernel, other);
    assert Leq(m, other);
  }

  ghost predicate EofItem(it: Item, a: nat) {
    it.rule == 0 ==> a == 0
  }

  lemma {:induction false} StateEofOnly(g: Grammar, f: FirstInfo, a: Automaton, s: nat)
    requires g.WellFormed() && IsCanonical(g, f, a) && s < |a.states|
    ensures forall it, x | it in a.states[s] && x in a.states[s][it] :: EofItem(it, x)
    decreases s
  {
    hide LeastClosure;
    if s == 0 {
      ClosureEofOnly(g, f, START_KERNEL, a.states[0]);
    } else {
      assert Reached(a, s);
      var p: nat, x: nat :| p < s && Link(a, p, x, s);
      assert ClosureEdge(g, f, a, p, x);
      StateEofOnly(g, f, a, p);
      AdvanceEofOnly(g, a.states[p], x);
      ClosureEofOnly(g, f, Advance(g, a.states[p], x), a.states[s]);
    }
  }

  lemma ClosureEofOnly(g: Grammar, f: FirstInfo, kernel: ItemSet, m: ItemSet)
    requires g.WellFormed() && LeastClosure(g, f, kernel, m)
    requires forall it, x | it in kernel && x in kernel[it] :: EofItem(it, x)
    ensures forall it, x | it in m && x in m[it] :: EofItem(it, x)
  {
    hide LeastClosure, NextLookaheads;
    LookaheadBound(g, f, kernel, m, (it: Item, x: nat) => EofItem(it, x));
  }

  lemma AdvanceEofOnly(g: Grammar, m: ItemSet, y: nat)
    requires forall it, x | it in m && x in m[it] :: EofItem(it, x)
    ensures forall it, x | it in Advance(g, m, y) && x in Advance(g, m, y)[it] :: EofItem(it, x)
  {
    forall it, x | it in Advance(g, m, y) && x in Advance(g, m, y)[it]
      ensures EofItem(it, x)
    {
      var i :| i in m && NotFinal(g, i) && Curr(g, i) == y && Item(i.rule, i.dot + 1) == it;
      assert EofItem(i, x);
    }
  }

  /** The augment item has no lookahead but end of input. */
  lemma CanonicalEofOnly(g: Grammar, f: FirstInfo, a: Automaton)
    requires g.WellFormed() && IsCanonical(g, f, a)
    ensures EofOnly(a)
  {
    forall s, it | 0 <= s < |a.states| && it in a.states[s] && it.rule == 0
      ensures a.states[s][it] <= {0}
    {
      StateEofOnly(g, f, a, s);
    }
  }

  // ------------------------------------------------ the quotient by cores

  /** a1 is a0 with the states of equal core merged: c names each state's class, lookaheads are
      unions over the class, and the start state's class is 0. */
  ghost predicate IsQuotient(g: Grammar, a0: Automaton, a1: Automaton, c: seq<nat>) {
    && |a0.states| == |a0.trans| == |c| > 0
    && |a1.states| == |a1.trans|
    && c[0] == 0
    && (forall s | 0 <= s < |c| :: c[s] < |a1.states|)
    && (forall s, s' | 0 <= s < |c| && 0 <= s' < |c| :: c[s] == c[s'] <==> a0.Core(s) == a0.Core(s'))
    && (forall i | 0 <= i < |a1.states| :: Occurs(c, i))
    && (forall s | 0 <= s < |c| :: Merged(a0, a1, c, s))
    && (forall i, it, x | 0 <= i < |a1.states| && it in a1.states[i] && x in a1.states[i][it] :: Contributed(a0, c, i, it, x))
  }

  ghost predicate Occurs(c: seq<nat>, i: nat) {
    exists s: nat :: s < |c| && c[s] == i
  }

  /** The class of s has its core, at least its lookaheads, and its transitions. */
  ghost predicate Merged(a0: Automaton, a1: Automaton, c: seq<nat>, s: nat)
    requires |a0.states| == |a0.trans| && |a1.states| == |a1.trans| && s < |a0.states| && s < |c|
  {
    && c[s] < |a1.states|
    && a1.Core(c[s]) == a0.Core(s)
    && (forall it | it in a0.states[s] :: a0.states[s][it] <= a1.states[c[s]][it])
    && a1.trans[c[s]].Keys == a0.trans[s].Keys
    && (forall x | x in a0.trans[s] :: a0.trans[s][x] < |c| && a1.trans[c[s]][x] == c[a0.trans[s][x]])
  }

  /** The lookahead comes from some state of the class. */
  ghost predicate Contributed(a0: Automaton, c: seq<nat>, i: nat, it: Item, x: nat) {
    exists s: nat :: s < |c| && s < |a0.states| && c[s] == i && it in a0.states[s] && x in a0.states[s][it]
  }

  lemma QuotientState(g: Grammar, f: FirstInfo, a0: Automaton, a1: Automaton, c: seq<nat>, i: nat) returns (s: nat)
    requires IsQuotient(g, a0, a1, c) && i < |a1.states|
    ensures s < |c| && c[s] == i && Merged(a0, a1, c, s)
  {
    assert Occurs(c, i);
    s :| s < |c| && c[s] == i;
  }

  lemma QuotientEdge(g: Grammar, f: FirstInfo, a0: Automaton, a1: Automaton, c: seq<nat>, i: nat, x: nat)
    requires IsQuotient(g, a0, a1, c) && CoreAutomaton(g, a0) && i < |a1.states| && x in a1.trans[i]
    ensures Edge(g, a1, i, x)
  {
    hide CoreClosure;
    var s := QuotientState(g, f, a0, a1, c, i);
    assert Edge(g, a0, s, x);
    assert Merged(a0, a1, c, a0.trans[s][x]);
  }

  lemma QuotientBounded(g: Grammar, f: FirstInfo, a0: Automaton, a1: Automaton, c: seq<nat>, i: nat)
    requires IsQuotient(g, a0, a1, c) && CoreAutomaton(g, a0) && i < |a1.states|
    ensures Bounded(g, a1.states[i])
    ensures a1.trans[i].Keys == NextSymbols(g, a1.Core(i))
  {
    hide CoreClosure;
    var s := QuotientState(g, f, a0, a1, c, i);
    assert Bounded(g, a0.states[s]);
    forall it, x | it in a1.states[i] && x in a1.states[i][it]
      ensures x in Actions(g)
    {
      assert Contributed(a0, c, i, it, x);
      var p: nat :| p < |c| && p < |a0.states| && c[p] == i && it in a0.states[p] && x in a0.states[p][it];
      assert Bounded(g, a0.states[p]);
    }
  }

  /** Merging by core keeps the shape of the graph. */
  lemma QuotientCore(g: Grammar, f: FirstInfo, a0: Automaton, a1: Automaton, c: seq<nat>)
    requires IsQuotient(g, a0, a1, c) && CoreAutomaton(g, a0)
    ensures CoreAutomaton(g, a1)
  {
    hide CoreClosure, Contributed;
    forall i | 0 <= i < |a1.states|
      ensures Bounded(g, a1.states[i]) && a1.trans[i].Keys == NextSymbols(g, a1.Core(i))
    {
      QuotientBounded(g, f, a0, a1, c, i);
    }
    forall i, x | 0 <= i < |a1.states| && x in a1.trans[i]
      ensures Edge(g, a1, i, x)
    {
      QuotientEdge(g, f, a0, a1, c, i, x);
    }
    assert Merged(a0, a1, c, 0);
  }

  lemma QuotientPropagated(g: Grammar, f: FirstInfo, a0: Automaton, a1: Automaton, c: seq<nat>, i: nat)
    requires IsQuotient(g, a0, a1, c) && CoreAutomaton(g, a0) && LookaheadClosed(g, f, a0) && i < |a1.states|
    ensures Expanded(g, a1.states[i]) && Propagated(g, f, a1.states[i])
  {
    hide CoreAutomaton;
    var s := QuotientState(g, f, a0, a1, c, i);
    assert Expanded(g, a0.states[s]);
    forall it, it2, x | it in a1.states[i] && it2 in a1.states[i] && AtNonterminal(g, it) && Lhs(g, it2) == Curr(g, it)
                        && x in Contribution(g, f, a1.states[i], it)
      ensures x in a1.states[i][it2]
    {
      QuotientContribution(g, f, a0, a1, c, i, it, it2, x);
    }
  }

  lemma ContributedBy(g: Grammar, a0: Automaton, a1: Automaton, c: seq<nat>, i: nat, it: Item, x: nat) returns (s: nat)
    requires IsQuotient(g, a0, a1, c) && i < |a1.states| && it in a1.states[i] && x in a1.states[i][it]
    ensures s < |c| && c[s] == i && s < |a0.states| && it in a0.states[s] && x in a0.states[s][it]
  {
    assert Contributed(a0, c, i, it, x);
    s :| s < |c| && s < |a0.states| && c[s] == i && it in a0.states[s] && x in a0.states[s][it];
  }

  lemma QuotientContribution(g: Grammar, f: FirstInfo, a0: Automaton, a1: Automaton, c: seq<nat>, i: nat, it: Item, it2: Item, x: nat)
    requires IsQuotient(g, a0, a1, c) && CoreAutomaton(g, a0) && LookaheadClosed(g, f, a0) && i < |a1.states|
    requires it in a1.states[i] && it2 in a1.states[i] && AtNonterminal(g, it) && Lhs(g, it2) == Curr(g, it)
    requires x in Contribution(g, f, a1.states[i], it)
    ensures x in a1.states[i][it2]
  {
    hide CoreAutomaton, LookaheadClosed, IsQuotient, NextLookaheads;
    var rhs := g.rules[it.rule].rhs;
    NextSplit(g, f, rhs, it.dot + 1, a1.states[i][it], x);
    if x in NextLookaheads(g, f, rhs, it.dot + 1, {}) {
      var s := QuotientState(g, f, a0, a1, c, i);
      PassOn(g, f, a0, a1, c, s, it, it2, {}, x);
    } else {
      var s := ContributedBy(g, a0, a1, c, i, it, x);
      PassOn(g, f, a0, a1, c, s, it, it2, {x}, x);
    }
  }

  /** What a state of the class passes on is in the class. */
  lemma PassOn(g: Grammar, f: FirstInfo, a0: Automaton, a1: Automaton, c: seq<nat>, s: nat, it: Item, it2: Item, la: set<nat>, x: nat)
    requires IsQuotient(g, a0, a1, c) && CoreAutomaton(g, a0) && LookaheadClosed(g, f, a0) && s < |c|
    requires it in a1.states[c[s]] && it2 in a1.states[c[s]] && AtNonterminal(g, it) && Lhs(g, it2) == Curr(g, it)
    requires it in a0.states[s] ==> la <= a0.states[s][it]
    requires x in NextLookaheads(g, f, g.rules[it.rule].rhs, it.dot + 1, la)
    ensures x in a1.states[c[s]][it2]
  {
    hide CoreAutomaton, Contributed, Expanded, LookaheadEdge;
    assert Merged(a0, a1, c, s);
    NextMonotone(g, f, g.rules[it.rule].rhs, it.dot + 1, la, a0.states[s][it]);
    assert Propagated(g, f, a0.states[s]);
    assert Contribution(g, f, a0.states[s], it) <= a0.states[s][it2];
  }

  lemma QuotientLookaheadEdge(g: Grammar, f: FirstInfo, a0: Automaton, a1: Automaton, c: seq<nat>, i: nat, it: Item)
    requires IsQuotient(g, a0, a1, c) && CoreAutomaton(g, a0) && LookaheadClosed(g, f, a0) && i < |a1.states|
    requires it in a1.states[i] && NotFinal(g, it)
    ensures LookaheadEdge(g, a1, i, it)
  {
    hide CoreAutomaton, LookaheadClosed, IsQuotient, LookaheadEdge, Merged, Contributed;
    var x, next := Curr(g, it), Item(it.rule, it.dot + 1);
    QuotientSizes(g, a0, a1, c);
    var s := QuotientState(g, f, a0, a1, c, i);
    SameCore(a0, a1, c, s, it);
    var to := QuotientMove(g, f, a0, a1, c, s, it);
    forall b | b in a1.states[i][it]
      ensures b in a1.states[to][next]
    {
      var p := ContributedBy(g, a0, a1, c, i, it, b);
      var _ := QuotientMove(g, f, a0, a1, c, p, it);
    }
    EdgeIs(g, a1, i, it, to);
  }

  lemma QuotientSizes(g: Grammar, a0: Automaton, a1: Automaton, c: seq<nat>)
    requires IsQuotient(g, a0, a1, c)
    ensures |a0.states| == |a0.trans| == |c| && |a1.states| == |a1.trans|
  {
  }

  lemma SameCore(a0: Automaton, a1: Automaton, c: seq<nat>, s: nat, it: Item)
    requires |a0.states| == |a0.trans| == |c| && |a1.states| == |a1.trans| && s < |c| && Merged(a0, a1, c, s)
    ensures c[s] < |a1.states| && (it in a1.states[c[s]] ==> it in a0.states[s])
  {
    assert it in a1.Core(c[s]) <==> it in a0.Core(s);
  }

  lemma EdgeIs(g: Grammar, a: Automaton, s: nat, it: Item, to: nat)
    requires s < |a.states| == |a.trans| && it in a.states[s] && NotFinal(g, it)
    requires Curr(g, it) in a.trans[s] && to == a.trans[s][Curr(g, it)] < |a.states| && Item(it.rule, it.dot + 1) in a.states[to]
    requires forall b | b in a.states[s][it] :: b in a.states[to][Item(it.rule, it.dot + 1)]
    ensures LookaheadEdge(g, a, s, it)
  {
  }

  /** The move of an item of one state, seen in the quotient. */
  lemma QuotientMove(g: Grammar, f: FirstInfo, a0: Automaton, a1: Automaton, c: seq<nat>, s: nat, it: Item) returns (to: nat)
    requires IsQuotient(g, a0, a1, c) && CoreAutomaton(g, a0) && LookaheadClosed(g, f, a0)
    requires |a1.states| == |a1.trans| && s < |c| && s < |a0.states| && it in a0.states[s] && NotFinal(g, it)
    ensures c[s] < |a1.states| && Curr(g, it) in a1.trans[c[s]] && to == a1.trans[c[s]][Curr(g, it)] < |a1.states|
    ensures Item(it.rule, it.dot + 1) in a1.states[to] && a0.states[s][it] <= a1.states[to][Item(it.rule, it.dot + 1)]
  {
    hide CoreAutomaton, LookaheadClosed, IsQuotient, Contributed;
    QuotientSizes(g, a0, a1, c);
    Moves(g, f, a0, s, it);
    var x, next := Curr(g, it), Item(it.rule, it.dot + 1);
    var t := a0.trans[s][x];
    MergedAt(g, a0, a1, c, s);
    MergedAt(g, a0, a1, c, t);
    assert next in a0.Core(t);
    to := c[t];
    assert next in a1.Core(to);
  }

  lemma MergedAt(g: Grammar, a0: Automaton, a1: Automaton, c: seq<nat>, s: nat)
    requires IsQuotient(g, a0, a1, c) && |a0.states| == |a0.trans| && |a1.states| == |a1.trans| && s < |a0.states| && s < |c|
    ensures Merged(a0, a1, c, s)
  {
    hide Merged, Contributed;
  }

  /** Merging by core keeps the lookaheads passed on. */
  lemma QuotientLookaheads(g: Grammar, f: FirstInfo, a0: Automaton, a1: Automaton, c: seq<nat>)
    requires IsQuotient(g, a0, a1, c) && CoreAutomaton(g, a0) && LookaheadClosed(g, f, a0)
    ensures CoreAutomaton(g, a1) && LookaheadClosed(g, f, a1)
  {
    QuotientCore(g, f, a0, a1, c);
    hide CoreAutomaton, Propagated, Expanded, Contributed;
    forall i | 0 <= i < |a1.states|
      ensures Expanded(g, a1.states[i]) && Propagated(g, f, a1.states[i])
    {
      QuotientPropagated(g, f, a0, a1, c, i);
    }
    forall i, it | 0 <= i < |a1.states| && it in a1.states[i] && NotFinal(g, it)
      ensures LookaheadEdge(g, a1, i, it)
    {
      QuotientLookaheadEdge(g, f, a0, a1, c, i, it);
    }
    assert Merged(a0, a1, c, 0);
  }

  lemma QuotientEofOnly(g: Grammar, a0: Automaton, a1: Automaton, c: seq<nat>)
    requires IsQuotient(g, a0, a1, c) && EofOnly(a0)
    ensures EofOnly(a1)
  {
    forall i, it, x | 0 <= i < |a1.states| && it in a1.states[i] && it.rule == 0 && x in a1.states[i][it]
      ensures x == 0
    {
      assert Contributed(a0, c, i, it, x);
    }
  }

  /** A state graph whose driver theorems hold, for either parser type. */
  ghost predicate Collected(g: Grammar, f: FirstInfo, a: Automaton) {
    IsCanonical(g, f, a) || IsMerged(g, f, a)
  }

  /** The graph of an LALR(1) collection: the canonical one with equal cores merged. */
  ghost predicate IsMerged(g: Grammar, f: FirstInfo, a: Automaton) {
    exists a0, c :: IsCanonical(g, f, a0) && IsQuotient(g, a0, a, c)
  }

  lemma CollectedGraph(g: Grammar, f: FirstInfo, a: Automaton)
    requires g.WellFormed() && Collected(g, f, a)
    ensures CoreAutomaton(g, a) && LookaheadClosed(g, f, a) && EofOnly(a)
  {
    hide IsCanonical, IsQuotient;
    if IsCanonical(g, f, a) {
      CanonicalLookaheads(g, f, a);
      CanonicalEofOnly(g, f, a);
    } else {
      var a0, c :| IsCanonical(g, f, a0) && IsQuotient(g, a0, a, c);
      CanonicalLookaheads(g, f, a0);
      CanonicalEofOnly(g, f, a0);
      QuotientLookaheads(g, f, a0, a, c);
      QuotientEofOnly(g, a0, a, c);
    }
  }

  // ------------------------------------------------ every state is reached

  lemma {:induction false} CanonicalReached(g: Grammar, f: FirstInfo, a: Automaton, s: nat)
    requires IsCanonical(g, f, a) && CoreAutomaton(g, a) && s < |a.states|
    ensures HasPath(a, s)
    decreases s
  {
    hide LeastClosure, CoreAutomaton, ClosureEdge, Path;
    if s == 0 {
      StartPath(g, a);
    } else {
      assert Reached(a, s);
      var p: nat, x: nat :| p < s && Link(a, p, x, s);
      CanonicalReached(g, f, a, p);
      var states, syms :| PathTo(a, states, syms, p);
      PathSize(a, states, syms);
      PathPush(g, a, states, syms, x);
      assert PathTo(a, states + [s], syms + [x], s);
    }
  }

  lemma StartPath(g: Grammar, a: Automaton)
    requires CoreAutomaton(g, a)
    ensures HasPath(a, 0)
  {
    assert PathTo(a, [0], [], 0);
  }

  lemma PathSize(a: Automaton, states: seq<nat>, syms: seq<nat>)
    requires |a.trans| == |a.states| && Path(a, states, syms)
    ensures |states| == |syms| + 1
  {
  }

  lemma QuotientPath(g: Grammar, a0: Automaton, a1: Automaton, c: seq<nat>, states: seq<nat>, syms: seq<nat>)
    requires IsQuotient(g, a0, a1, c) && Path(a0, states, syms)
    ensures (forall k | 0 <= k < |states| :: states[k] < |c|) && Path(a1, Renamed(c, states), syms)
  {
    hide Contributed;
    var named := Renamed(c, states);
    forall k | 0 <= k < |syms|
      ensures Link(a1, named[k], syms[k], named[k + 1])
    {
      assert Link(a0, states[k], syms[k], states[k + 1]);
      assert Merged(a0, a1, c, states[k]);
    }
  }

  /** Every state of a collected graph is at the end of some path. */
  lemma CollectedReached(g: Grammar, f: FirstInfo, a: Automaton)
    requires g.WellFormed() && Collected(g, f, a)
    ensures |a.trans| == |a.states| && AllReached(a)
  {
    hide IsCanonical, IsQuotient, CoreAutomaton, HasPath;
    CollectedGraph(g, f, a);
    CoreSizes(g, a);
    forall s: nat | s < |a.states|
      ensures HasPath(a, s)
    {
      if IsCanonical(g, f, a) {
        CanonicalReached(g, f, a, s);
      } else {
        var a0, c :| IsCanonical(g, f, a0) && IsQuotient(g, a0, a, c);
        ClassReached(g, f, a0, a, c, s);
      }
    }
  }

  lemma CoreSizes(g: Grammar, a: Automaton)
    requires CoreAutomaton(g, a)
    ensures |a.trans| == |a.states|
  {
  }

  lemma ClassReached(g: Grammar, f: FirstInfo, a0: Automaton, a1: Automaton, c: seq<nat>, i: nat)
    requires g.WellFormed() && IsCanonical(g, f, a0) && IsQuotient(g, a0, a1, c) && i < |a1.states|
    ensures |a1.trans| == |a1.states| && HasPath(a1, i)
  {
    hide IsCanonical, CoreAutomaton, Contributed, Merged, Path;
    CanonicalCore(g, f, a0);
    var s := QuotientState(g, f, a0, a1, c, i);
    CanonicalReached(g, f, a0, s);
    var states, syms :| PathTo(a0, states, syms, s);
    PathSize(a0, states, syms);
    QuotientPath(g, a0, a1, c, states, syms);
    assert PathTo(a1, Renamed(c, states), syms, i);
  }

  // ------------------------------------------------ conflicts and simulation

  /** A state in which the same token can be shifted and reduced on. */
  ghost predicate ShiftReduce(g: Grammar, a: Automaton, s: nat, x: nat)
    requires |a.states| == |a.trans|
  {
    s < |a.states| && x in a.trans[s] && exists r: nat :: Reduces(g, a.states[s], r, x)
  }

  /** Merging by core adds no shift/reduce conflict. */
  lemma MergeAddsNoShiftReduce(g: Grammar, a0: Automaton, a1: Automaton, c: seq<nat>, i: nat, x: nat) returns (s: nat)
    requires IsQuotient(g, a0, a1, c) && ShiftReduce(g, a1, i, x)
    ensures ShiftReduce(g, a0, s, x)
  {
    var r: nat :| Reduces(g, a1.states[i], r, x);
    var it := Item(r, |g.rules[r].rhs|);
    assert Contributed(a0, c, i, it, x);
    s :| s < |c| && s < |a0.states| && c[s] == i && it in a0.states[s] && x in a0.states[s][it];
    assert Merged(a0, a1, c, s);
    assert Reduces(g, a0.states[s], r, x);
  }

  function Renamed(c: seq<nat>, states: seq<nat>): seq<nat> {
    seq(|states|, i requires 0 <= i < |states| => if states[i] < |c| then c[states[i]] else 0)
  }

  function RenamedConfig(c: seq<nat>, cfg: Config): Config {
    cfg.(states := Renamed(c, cfg.states))
  }

  function RenamedOutcome(c: seq<nat>, o: Outcome): Outcome {
    match o
    case Running(k) => Running(RenamedConfig(c, k))
    case Accepted(k) => Accepted(RenamedConfig(c, k))
    case SyntaxError(k) => SyntaxError(RenamedConfig(c, k))
    case LexError(k) => LexError(RenamedConfig(c, k))
    case Stuck => Stuck
  }

  /** Both collections with their tables; no move of the second displaced another. */
  ghost predicate Pair(g: Grammar, a0: Automaton, t0: seq<nat>, a1: Automaton, t1: seq<nat>, c: seq<nat>, input: seq<Lexeme>) {
    && Setting(g, a0, t0, input)
    && Setting(g, a1, t1, input)
    && TableComplete(g, a1, t1)
    && IsQuotient(g, a0, a1, c)
  }

  function RenamedAction(c: seq<nat>, act: Action): Action {
    if act.Shift? && act.state < |c| then Shift(c[act.state]) else act
  }

  lemma CellSimulates(g: Grammar, a0: Automaton, t0: seq<nat>, a1: Automaton, t1: seq<nat>, c: seq<nat>, input: seq<Lexeme>, s: nat, x: nat)
    requires Pair(g, a0, t0, a1, t1, c, input) && s < |c| && x < g.tokenN
    requires Cell(g, t0, s, x) != Error
    ensures c[s] < |a1.states|
    ensures Cell(g, t0, s, x).Shift? ==> Cell(g, t0, s, x).state < |c|
    ensures Cell(g, t1, c[s], x) == RenamedAction(c, Cell(g, t0, s, x))
  {
    hide CoreAutomaton, TableSound, Cell, Contributed;
    CellInTable(g, a0, t0, input, s, x);
    assert Merged(a0, a1, c, s);
    var act := Cell(g, t0, s, x);
    assert Candidate(g, a0.states[s], a0.trans[s], x, act);
    assert Candidate(g, a1.states[c[s]], a1.trans[c[s]], x, RenamedAction(c, act));
  }

  lemma GotoSimulates(g: Grammar, a0: Automaton, t0: seq<nat>, a1: Automaton, t1: seq<nat>, c: seq<nat>, input: seq<Lexeme>, s: nat, x: nat)
    requires Pair(g, a0, t0, a1, t1, c, input) && s < |c| && g.actionN <= x < g.tokenN && x in a0.trans[s]
    ensures Goto(g, t0, s, x) < |c| && Goto(g, t1, c[s], x) == c[Goto(g, t0, s, x)]
  {
    hide CoreAutomaton, TableSound, TableComplete, Goto, Cell, Contributed;
    assert Merged(a0, a1, c, s);
    GotoCell(g, a0, t0, input, s, x);
    GotoCell(g, a1, t1, input, c[s], x);
  }

  lemma ReduceSimulates(g: Grammar, a0: Automaton, t0: seq<nat>, a1: Automaton, t1: seq<nat>, c: seq<nat>, input: seq<Lexeme>, cfg: Config, r: nat)
    requires Pair(g, a0, t0, a1, t1, c, input) && Inv(g, a0, input, cfg) && g.IsRule(r)
    requires Item(r, |g.rules[r].rhs|) in a0.Core(cfg.states[|cfg.forest|])
    ensures Reduced(g, t1, RenamedConfig(c, cfg), r) == RenamedOutcome(c, Reduced(g, t0, cfg, r))
  {
    hide CoreAutomaton, TableSound, TableComplete, Goto, Cell, IsQuotient, Inv;
    PairSizes(g, a0, t0, a1, t1, c, input);
    ReduceHandle(g, a0, t0, input, cfg, r);
    var n := |g.rules[r].rhs|;
    InvShape(g, a0, input, cfg);
    var below := cfg.states[|cfg.forest| - n];
    GotoSimulates(g, a0, t0, a1, t1, c, input, below, g.rules[r].lhs);
    var states := cfg.states[..|cfg.states| - n];
    assert Renamed(c, cfg.states)[..|cfg.states| - n] == Renamed(c, states);
    var next := Goto(g, t0, below, g.rules[r].lhs);
    assert Renamed(c, states + [next]) == Renamed(c, states) + [c[next]];
  }

  lemma PairSizes(g: Grammar, a0: Automaton, t0: seq<nat>, a1: Automaton, t1: seq<nat>, c: seq<nat>, input: seq<Lexeme>)
    requires Pair(g, a0, t0, a1, t1, c, input)
    ensures |a0.states| == |a0.trans| == |c| && |a1.states| == |a1.trans| && c[0] == 0
    ensures Setting(g, a0, t0, input)
  {
  }

  /** One step: unless the CLR(1) driver reports a syntax error, the LALR(1) driver does the same. */
  lemma StepSimulates(g: Grammar, a0: Automaton, t0: seq<nat>, a1: Automaton, t1: seq<nat>, c: seq<nat>, input: seq<Lexeme>, cfg: Config)
    requires Pair(g, a0, t0, a1, t1, c, input) && Inv(g, a0, input, cfg)
    requires !Step(g, t0, input, cfg).SyntaxError?
    ensures Step(g, t1, input, RenamedConfig(c, cfg)) == RenamedOutcome(c, Step(g, t0, input, cfg))
  {
    hide CoreAutomaton, TableSound, TableComplete, Cell, IsQuotient, Inv, Reduced;
    PairSizes(g, a0, t0, a1, t1, c, input);
    InvShape(g, a0, input, cfg);
    var la := input[cfg.pos];
    if la.tok >= 0 {
      InputAt(g, input, cfg.pos);
      var s := cfg.states[|cfg.states| - 1];
      CellSimulates(g, a0, t0, a1, t1, c, input, s, la.tok);
      match Cell(g, t0, s, la.tok)
      case Shift(p) =>
        assert Renamed(c, cfg.states + [p]) == Renamed(c, cfg.states) + [c[p]];
      case Reduce(r) =>
        CellReduce(g, a0, t0, input, s, la.tok, r);
        ReduceSimulates(g, a0, t0, a1, t1, c, input, cfg, r);
      case _ =>
    }
  }

  lemma {:induction false} StepsSimulate(g: Grammar, a0: Automaton, t0: seq<nat>, a1: Automaton, t1: seq<nat>, c: seq<nat>, input: seq<Lexeme>, cfg: Config, n: nat)
    requires Pair(g, a0, t0, a1, t1, c, input) && Inv(g, a0, input, cfg)
    requires !Steps(g, t0, input, Running(cfg), n).SyntaxError?
    ensures Steps(g, t1, input, Running(RenamedConfig(c, cfg)), n) == RenamedOutcome(c, Steps(g, t0, input, Running(cfg), n))
    decreases n
  {
    hide Pair, Inv, Step, RenamedConfig;
    PairSizes(g, a0, t0, a1, t1, c, input);
    if n > 0 {
      var o := Step(g, t0, input, cfg);
      StepSimulates(g, a0, t0, a1, t1, c, input, cfg);
      StepKeeps(g, a0, t0, input, cfg);
      if o.Running? {
        StepsSimulate(g, a0, t0, a1, t1, c, input, o.c, n - 1);
      }
    }
  }

  /** LALR(1) simulates CLR(1): every run of the CLR(1) driver without a syntax error is a run of
      the LALR(1) driver, step for step, with each state replaced by its class. */
  lemma Simulation(g: Grammar, a0: Automaton, t0: seq<nat>, a1: Automaton, t1: seq<nat>, c: seq<nat>, input: seq<Lexeme>, n: nat)
    requires Pair(g, a0, t0, a1, t1, c, input)
    requires !Run(g, t0, input, n).SyntaxError?
    ensures Run(g, t1, input, n) == RenamedOutcome(c, Run(g, t0, input, n))
  {
    hide IsQuotient, CoreAutomaton, TableSound, TableComplete;
    PairSizes(g, a0, t0, a1, t1, c, input);
    StartInv(g, a0, input);
    assert RenamedConfig(c, Start()) == Start() by {
      assert Renamed(c, [0]) == [0];
    }
    StepsSimulate(g, a0, t0, a1, t1, c, input, Start(), n);
  }
}
