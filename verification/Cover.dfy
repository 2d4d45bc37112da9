/** Bounding the states of a graph by a finite list of item sets, to show that a grammar's table has no
    conflict. */
module Covers {
  import opened Grammars
  import opened Closures
  import opened Automata
  import opened Tables
  import opened Machines
  import opened Canonical
  import opened Explorations
  import opened Textbooks
  import opened Rows
  import opened Pipelines

  /** Closed sets, the first over the start kernel, that contain what each of them advances to. */
  ghost predicate IsCover(g: Grammar, f: FirstInfo, u: seq<ItemSet>) {
    && |u| > 0
    && Leq(START_KERNEL, u[0])
    && (forall i | 0 <= i < |u| :: IsClosed(g, f, u[i]))
    && (forall i, x | 0 <= i < |u| && x in NextSymbols(g, u[i].Keys) :: AdvancesInto(g, u, i, x))
  }

  ghost predicate AdvancesInto(g: Grammar, u: seq<ItemSet>, i: nat, x: nat)
    requires i < |u|
  {
    exists j: nat :: j < |u| && Leq(Advance(g, u[i], x), u[j])
  }

  lemma NextMonotone(g: Grammar, a: set<Item>, b: set<Item>)
    requires a <= b
    ensures NextSymbols(g, a) <= NextSymbols(g, b)
  {
  }

  /** What moving the items of a set over a symbol must stay below. */
  lemma AdvanceBelow(g: Grammar, u: seq<ItemSet>, i: nat, x: nat, j: nat)
    requires i < |u| && j < |u|
    requires forall it | it in u[i] && NotFinal(g, it) && Curr(g, it) == x ::
               Item(it.rule, it.dot + 1) in u[j] && u[i][it] <= u[j][Item(it.rule, it.dot + 1)]
    ensures AdvancesInto(g, u, i, x)
  {
    hide Advance;
    forall it | it in Advance(g, u[i], x)
      ensures it in u[j] && Advance(g, u[i], x)[it] <= u[j][it]
    {
      var from := AdvanceFrom(g, u[i], it, x);
      AdvanceItem(g, u[i], from);
    }
    assert Leq(Advance(g, u[i], x), u[j]);
  }

  /** A set with no nonterminal behind a dot is closed. */
  lemma NothingToExpand(g: Grammar, f: FirstInfo, m: ItemSet)
    requires AllInRange(g, m) && forall it | it in m :: !AtNonterminal(g, it)
    ensures IsClosed(g, f, m)
  {
    hide Contribution;
  }

  lemma ClosureBelow(g: Grammar, f: FirstInfo, kernel: ItemSet, m: ItemSet, bound: ItemSet)
    requires LeastClosure(g, f, kernel, m) && IsClosed(g, f, bound) && Leq(kernel, bound)
    ensures Leq(m, bound)
  {
  }

  /** Every state of a canonical graph is below a set of the cover. */
  lemma {:induction false} CoverState(g: Grammar, f: FirstInfo, a: Automaton, u: seq<ItemSet>, s: nat) returns (i: nat)
    requires IsCanonical(g, f, a) && IsCover(g, f, u) && s < |a.states|
    ensures i < |u| && Leq(a.states[s], u[i])
    decreases s
  {
    hide LeastClosure, IsClosed, Leq, Advance, NextSymbols;
    if s == 0 {
      i := 0;
      ClosureBelow(g, f, START_KERNEL, a.states[0], u[0]);
    } else {
      assert Reached(a, s);
      var p: nat, x: nat :| p < s && Link(a, p, x, s);
      var k := CoverState(g, f, a, u, p);
      assert ClosureEdge(g, f, a, p, x);
      LeqKeys(a.states[p], u[k]);
      NextMonotone(g, a.states[p].Keys, u[k].Keys);
      assert AdvancesInto(g, u, k, x);
      i :| i < |u| && Leq(Advance(g, u[k], x), u[i]);
      AdvanceMonotone(g, a.states[p], u[k], x);
      LeqTrans(Advance(g, a.states[p], x), Advance(g, u[k], x), u[i]);
      ClosureBelow(g, f, Advance(g, a.states[p], x), a.states[s], u[i]);
    }
  }

  lemma LeqKeys(a: ItemSet, b: ItemSet)
    requires Leq(a, b)
    ensures a.Keys <= b.Keys
  {
  }

  // ------------------------------------------------ merged graphs

  /** An item that tells which closure its state is of. */
  predicate Marks(it: Item) {
    it.dot > 0 || it.rule == 0
  }

  /** No such item is in two sets of the cover. */
  ghost predicate Apart(u: seq<ItemSet>) {
    forall i, j, it | 0 <= i < |u| && 0 <= j < |u| && it in u[i] && it in u[j] && Marks(it) :: i == j
  }

  lemma MarkedState(g: Grammar, f: FirstInfo, a: Automaton, s: nat) returns (it: Item)
    requires IsCanonical(g, f, a) && s < |a.states|
    ensures it in a.states[s] && Marks(it)
  {
    hide LeastClosure, Advance;
    if s == 0 {
      it := Item(0, 0);
      StartKept(g, f, a);
    } else {
      assert Reached(a, s);
      var p: nat, x: nat :| p < s && Link(a, p, x, s);
      assert ClosureEdge(g, f, a, p, x);
      var from: Item :| from in a.Core(p) && NotFinal(g, from) && Curr(g, from) == x;
      it := Item(from.rule, from.dot + 1);
      AdvanceItem(g, a.states[p], from);
      KernelKept(g, f, Advance(g, a.states[p], x), a.states[s], it);
    }
  }

  lemma StartKept(g: Grammar, f: FirstInfo, a: Automaton)
    requires IsCanonical(g, f, a)
    ensures Item(0, 0) in a.states[0]
  {
    hide Below, IsClosed;
    assert Item(0, 0) in START_KERNEL;
  }

  /** Every state of a collected graph, merged or not, is below a set of the cover. */
  lemma CoverCollected(g: Grammar, f: FirstInfo, a: Automaton, u: seq<ItemSet>, s: nat) returns (i: nat)
    requires Collected(g, f, a) && IsCover(g, f, u) && Apart(u) && s < |a.states|
    ensures i < |u| && Leq(a.states[s], u[i])
  {
    hide IsCanonical, IsQuotient, IsCover, Leq, Apart;
    if IsCanonical(g, f, a) {
      i := CoverState(g, f, a, u, s);
    } else {
      var a0, c :| IsCanonical(g, f, a0) && IsQuotient(g, a0, a, c);
      i := CoverClass(g, f, a0, a, c, u, s);
    }
  }

  lemma CoverClass(g: Grammar, f: FirstInfo, a0: Automaton, a: Automaton, c: seq<nat>, u: seq<ItemSet>, s: nat) returns (i: nat)
    requires IsCanonical(g, f, a0) && IsQuotient(g, a0, a, c) && IsCover(g, f, u) && Apart(u) && s < |a.states|
    ensures i < |u| && Leq(a.states[s], u[i])
  {
    hide IsCanonical, IsQuotient, IsCover, Merged, Contributed, Apart;
    QuotientSizes(g, a0, a, c);
    var p := QuotientState(g, f, a0, a, c, s);
    i := CoverState(g, f, a0, u, p);
    var mark := MarkedState(g, f, a0, p);
    MergedCore(a0, a, c, p);
    forall it | it in a.states[s]
      ensures it in u[i] && a.states[s][it] <= u[i][it]
    {
      assert it in a0.Core(p);
      forall b | b in a.states[s][it]
        ensures b in u[i][it]
      {
        var q := ContributedBy(g, a0, a, c, s, it, b);
        var j := CoverState(g, f, a0, u, q);
        MergedAt(g, a0, a, c, q);
        MergedCore(a0, a, c, q);
        assert a0.Core(p) == a.Core(s) && a.Core(s) == a0.Core(q) && mark in a0.Core(p);
        SameCover(u, i, j, mark);
      }
    }
  }

  lemma MergedCore(a0: Automaton, a1: Automaton, c: seq<nat>, s: nat)
    requires |a0.states| == |a0.trans| && |a1.states| == |a1.trans| && s < |a0.states| && s < |c| && Merged(a0, a1, c, s)
    ensures c[s] < |a1.states| && a1.Core(c[s]) == a0.Core(s)
  {
  }

  lemma SameCover(u: seq<ItemSet>, i: nat, j: nat, it: Item)
    requires Apart(u) && i < |u| && j < |u| && it in u[i] && it in u[j] && Marks(it)
    ensures i == j
  {
  }

  // ------------------------------------------------ conflicts

  /** The items ask for one move at most for each token. */
  ghost predicate OneMove(g: Grammar, m: ItemSet) {
    && (forall r: nat, x: nat | Reduces(g, m, r, x) :: x !in NextSymbols(g, m.Keys))
    && (forall r: nat, r2: nat, x: nat | Reduces(g, m, r, x) && Reduces(g, m, r2, x) :: r == r2)
  }

  lemma NothingToReduce(g: Grammar, m: ItemSet)
    requires forall it | it in m :: NotFinal(g, it)
    ensures OneMove(g, m)
  {
  }

  lemma OneToReduce(g: Grammar, m: ItemSet, it: Item)
    requires m.Keys <= {it} && IsFinal(g, it)
    ensures OneMove(g, m)
  {
  }

  lemma ReducesMonotone(g: Grammar, a: ItemSet, b: ItemSet, r: nat, x: nat)
    requires Leq(a, b) && Reduces(g, a, r, x)
    ensures Reduces(g, b, r, x)
  {
  }

  /** A grammar whose cover asks for one move at most has no conflict, in either graph: with null
      precedence the generator reports no error. */
  lemma CoverNoConflict(g: Grammar, f: FirstInfo, a: Automaton, u: seq<ItemSet>)
    requires g.WellFormed() && Collected(g, f, a) && IsCover(g, f, u) && Apart(u)
    requires forall i | 0 <= i < |u| :: OneMove(g, u[i])
    ensures |a.states| == |a.trans| && !Conflicted(g, a)
  {
    hide Collected, CoreAutomaton, LookaheadClosed, IsCover, Apart, ShiftReduce, ReduceReduce, OneMove;
    CollectedGraph(g, f, a);
    SameSize(g, a);
    forall s: nat, x: nat
      ensures !ShiftReduce(g, a, s, x) && !ReduceReduce(g, a, s, x)
    {
      if s < |a.states| {
        var i := CoverCollected(g, f, a, u, s);
        StateOneMove(g, a, s, x, u[i]);
      } else {
        NoState(g, a, s, x);
      }
    }
  }

  lemma NoState(g: Grammar, a: Automaton, s: nat, x: nat)
    requires |a.states| == |a.trans| && s >= |a.states|
    ensures !ShiftReduce(g, a, s, x) && !ReduceReduce(g, a, s, x)
  {
  }

  lemma StateOneMove(g: Grammar, a: Automaton, s: nat, x: nat, m: ItemSet)
    requires CoreAutomaton(g, a) && |a.states| == |a.trans| && s < |a.states| && Leq(a.states[s], m) && OneMove(g, m)
    ensures !ShiftReduce(g, a, s, x) && !ReduceReduce(g, a, s, x)
  {
    hide CoreClosure, Reduces, NextSymbols;
    LeqKeys(a.states[s], m);
    NextMonotone(g, a.states[s].Keys, m.Keys);
    if r: nat :| Reduces(g, a.states[s], r, x) {
      ReducesMonotone(g, a.states[s], m, r, x);
      forall r2: nat | Reduces(g, a.states[s], r2, x)
        ensures r2 == r
      {
        ReducesMonotone(g, a.states[s], m, r2, x);
      }
    }
  }
}
