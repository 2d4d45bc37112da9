/** Building the state graph: the part of the collection that adds and resolves states
    (src/parsergen/derivation.cc 149-193, src/parsergen/canonical_collection.cc 137-167).
    A state is known by its position in the order of creation, where the source has pointers. */
module Explorations {
  import opened Grammars
  import opened Closures
  import opened Automata
  import opened Canonical
  import opened Universes

  /** The state has exactly the transitions of its items, each to the closure of the advanced items. */
  ghost predicate Explored(g: Grammar, f: FirstInfo, a: Automaton, s: nat) {
    && s < |a.states| == |a.trans|
    && a.trans[s].Keys == NextSymbols(g, a.Core(s))
    && forall x | x in a.trans[s] :: ClosureEdge(g, f, a, s, x)
  }

  /** What holds of the graph while it is being explored: states are distinct and closed, and a
      state has either no transitions yet or all of them. */
  ghost predicate SoFar(g: Grammar, f: FirstInfo, a: Automaton) {
    && Nodes(g, f, a)
    && (forall s | 0 <= s < |a.states| :: a.trans[s] == map[] || Explored(g, f, a, s))
    && (forall s | 0 < s < |a.states| :: Reached(a, s))
  }

  ghost predicate Nodes(g: Grammar, f: FirstInfo, a: Automaton) {
    && 0 < |a.states| == |a.trans|
    && LeastClosure(g, f, START_KERNEL, a.states[0])
    && (forall s | 0 <= s < |a.states| :: Bounded(g, a.states[s]))
    && (forall s, s' | 0 <= s < s' < |a.states| :: a.states[s] != a.states[s'])
  }

  /** a' has the states of a, under the same numbers, and their transitions. */
  ghost predicate Extends(a: Automaton, a': Automaton) {
    && |a.trans| == |a.states| <= |a'.states| == |a'.trans|
    && (forall s | 0 <= s < |a.states| :: a'.states[s] == a.states[s])
    && (forall s | 0 <= s < |a.states| :: a.trans[s] == map[] || a'.trans[s] == a.trans[s])
  }

  lemma ExtendsTrans(a: Automaton, b: Automaton, c: Automaton)
    requires Extends(a, b) && Extends(b, c)
    ensures Extends(a, c)
  {
  }

  lemma EdgeExtends(g: Grammar, f: FirstInfo, a: Automaton, a': Automaton, s: nat, x: nat)
    requires Extends(a, a') && s < |a.states| && x in a.trans[s] && ClosureEdge(g, f, a, s, x) && a'.trans[s] == a.trans[s]
    ensures ClosureEdge(g, f, a', s, x)
  {
  }

  lemma ExploredKept(g: Grammar, f: FirstInfo, a: Automaton, a': Automaton, s: nat)
    requires Explored(g, f, a, s) && Extends(a, a') && a'.trans[s] == a.trans[s]
    ensures Explored(g, f, a', s)
  {
    hide LeastClosure;
    forall x | x in a'.trans[s]
      ensures ClosureEdge(g, f, a', s, x)
    {
      EdgeExtends(g, f, a, a', s, x);
    }
  }

  lemma ExploredExtends(g: Grammar, f: FirstInfo, a: Automaton, a': Automaton, s: nat)
    requires Explored(g, f, a, s) && Extends(a, a') && SoFar(g, f, a')
    ensures Explored(g, f, a', s)
  {
    hide ClosureEdge, Nodes;
    if a.trans[s] != map[] {
      ExploredKept(g, f, a, a', s);
    }
  }

  /** The states whose transitions have been filled in. */
  ghost function Filled(a: Automaton): set<ItemSet>
    requires |a.trans| == |a.states|
  {
    set s | 0 <= s < |a.states| && a.trans[s] != map[] :: a.states[s]
  }

  lemma FilledGrows(a: Automaton, a': Automaton)
    requires Extends(a, a')
    ensures Filled(a) <= Filled(a')
  {
    forall m | m in Filled(a)
      ensures m in Filled(a')
    {
      var s :| 0 <= s < |a.states| && a.trans[s] != map[] && a.states[s] == m;
      assert a'.trans[s] != map[] && a'.states[s] == m;
    }
  }

  /** Filling one more state leaves fewer to fill. */
  lemma FilledDecreases(g: Grammar, f: FirstInfo, a: Automaton, a': Automaton, s: nat)
    requires Nodes(g, f, a) && Nodes(g, f, a') && Extends(a, a') && s < |a.states| && a.trans[s] == map[] && a'.trans[s] != map[]
    ensures Universe(g) - Filled(a') < Universe(g) - Filled(a)
  {
    FilledGrows(a, a');
    var m := a.states[s];
    InUniverse(g, m);
    assert m in Filled(a');
    if m in Filled(a) {
      var p :| 0 <= p < |a.states| && a.trans[p] != map[] && a.states[p] == m;
      assert false;
    }
  }

  lemma AdvanceIsKernel(g: Grammar, m: ItemSet, x: nat)
    requires Bounded(g, m)
    ensures IsKernel(g, Advance(g, m, x))
  {
  }

  /** The item before its dot moved over x, if that is where it comes from. */
  predicate MovedOver(g: Grammar, it: Item, x: nat) {
    it.dot > 0 && NotFinal(g, Item(it.rule, it.dot - 1)) && Curr(g, Item(it.rule, it.dot - 1)) == x
  }

  /** The groups hold the seen items, each moved over the symbol of its group, and nothing else. */
  ghost predicate Grouped(g: Grammar, m: ItemSet, seen: set<Item>, kernels: map<nat, ItemSet>) {
    && seen <= m.Keys
    && (forall it | it in seen && NotFinal(g, it) :: Curr(g, it) in kernels && Item(it.rule, it.dot + 1) in kernels[Curr(g, it)])
    && (forall x | x in kernels :: kernels[x] != map[] && InGroup(g, m, seen, kernels[x], x))
  }

  ghost predicate InGroup(g: Grammar, m: ItemSet, seen: set<Item>, group: ItemSet, x: nat) {
    forall it | it in group :: && MovedOver(g, it, x)
                               && Item(it.rule, it.dot - 1) in seen
                               && Item(it.rule, it.dot - 1) in m
                               && group[it] == m[Item(it.rule, it.dot - 1)]
  }

  lemma GroupedAdvance(g: Grammar, m: ItemSet, kernels: map<nat, ItemSet>)
    requires Grouped(g, m, m.Keys, kernels)
    ensures kernels.Keys == NextSymbols(g, m.Keys)
    ensures forall x | x in kernels :: kernels[x] == Advance(g, m, x)
  {
    forall x | x in kernels
      ensures x in NextSymbols(g, m.Keys) && kernels[x] == Advance(g, m, x)
    {
      hide Grouped;
      GroupedAll(g, m, kernels, x);
      GroupIsAdvance(g, m, kernels[x], x);
    }
  }

  lemma GroupedAll(g: Grammar, m: ItemSet, kernels: map<nat, ItemSet>, x: nat)
    requires Grouped(g, m, m.Keys, kernels) && x in kernels
    ensures kernels[x] != map[] && InGroup(g, m, m.Keys, kernels[x], x)
    ensures forall it | it in m && NotFinal(g, it) && Curr(g, it) == x :: Item(it.rule, it.dot + 1) in kernels[x]
  {
  }

  lemma GroupIsAdvance(g: Grammar, m: ItemSet, group: ItemSet, x: nat)
    requires group != map[] && InGroup(g, m, m.Keys, group, x)
    requires forall it | it in m && NotFinal(g, it) && Curr(g, it) == x :: Item(it.rule, it.dot + 1) in group
    ensures x in NextSymbols(g, m.Keys) && group == Advance(g, m, x)
  {
    hide Advance, NextSymbols;
    GroupInAdvance(g, m, group, x);
    var adv := Advance(g, m, x);
    forall it | it in adv
      ensures it in group
    {
      var prev := AdvanceFrom(g, m, it, x);
    }
    assert group.Keys == adv.Keys;
  }

  lemma GroupInAdvance(g: Grammar, m: ItemSet, group: ItemSet, x: nat)
    requires group != map[] && InGroup(g, m, m.Keys, group, x)
    ensures x in NextSymbols(g, m.Keys)
    ensures forall it | it in group :: it in Advance(g, m, x) && Advance(g, m, x)[it] == group[it]
  {
    hide Advance, NextSymbols;
    assert group.Keys != {};
    var i :| i in group.Keys;
    AdvanceAt(g, m, i, x);
    forall it | it in group
      ensures it in Advance(g, m, x) && Advance(g, m, x)[it] == group[it]
    {
      AdvanceAt(g, m, it, x);
    }
  }

  lemma AdvanceAt(g: Grammar, m: ItemSet, it: Item, x: nat)
    requires MovedOver(g, it, x) && Item(it.rule, it.dot - 1) in m
    ensures it in Advance(g, m, x) && Advance(g, m, x)[it] == m[Item(it.rule, it.dot - 1)]
    ensures x in NextSymbols(g, m.Keys)
  {
    var prev := Item(it.rule, it.dot - 1);
    assert Item(prev.rule, prev.dot + 1) == it;
    assert prev in m.Keys;
  }

  lemma AdvanceFrom(g: Grammar, m: ItemSet, it: Item, x: nat) returns (prev: Item)
    requires it in Advance(g, m, x)
    ensures prev in m && NotFinal(g, prev) && Curr(g, prev) == x && Item(prev.rule, prev.dot + 1) == it
  {
    prev :| prev in m && NotFinal(g, prev) && Curr(g, prev) == x && Item(prev.rule, prev.dot + 1) == it;
  }

  lemma GroupItem(g: Grammar, m: ItemSet, seen: set<Item>, kernels: map<nat, ItemSet>, it: Item)
    requires Grouped(g, m, seen, kernels) && it in m && NotFinal(g, it)
    ensures var x := Curr(g, it);
            var group := if x in kernels then kernels[x] else map[];
            Grouped(g, m, seen + {it}, kernels[x := group[Item(it.rule, it.dot + 1) := m[it]]])
  {
    hide InGroup;
    var x := Curr(g, it);
    var group := if x in kernels then kernels[x] else map[];
    var more := group[Item(it.rule, it.dot + 1) := m[it]];
    assert Item(it.rule, it.dot + 1) in more;
    EmptyGroup(g, m, seen, x);
    GroupMore(g, m, seen, group, x, it);
    forall y | y in kernels
      ensures InGroup(g, m, seen + {it}, kernels[y], y)
    {
      GroupSeen(g, m, seen, kernels[y], y, it);
    }
  }

  lemma EmptyGroup(g: Grammar, m: ItemSet, seen: set<Item>, x: nat)
    ensures InGroup(g, m, seen, map[], x)
  {
  }

  lemma GroupSeen(g: Grammar, m: ItemSet, seen: set<Item>, group: ItemSet, x: nat, it: Item)
    requires InGroup(g, m, seen, group, x)
    ensures InGroup(g, m, seen + {it}, group, x)
  {
  }

  lemma GroupMore(g: Grammar, m: ItemSet, seen: set<Item>, group: ItemSet, x: nat, it: Item)
    requires InGroup(g, m, seen, group, x) && it in m && NotFinal(g, it) && Curr(g, it) == x
    ensures InGroup(g, m, seen + {it}, group[Item(it.rule, it.dot + 1) := m[it]], x)
  {
  }

  lemma GroupFinal(g: Grammar, m: ItemSet, seen: set<Item>, kernels: map<nat, ItemSet>, it: Item)
    requires Grouped(g, m, seen, kernels) && it in m && !NotFinal(g, it)
    ensures Grouped(g, m, seen + {it}, kernels)
  {
    forall y | y in kernels
      ensures InGroup(g, m, seen + {it}, kernels[y], y)
    {
      assert InGroup(g, m, seen, kernels[y], y);
    }
  }

  /** Group the items of a state by the symbol after the dot, advanced over it. */
  method AdvancedItems(g: Grammar, m: ItemSet) returns (kernels: map<nat, ItemSet>)
    ensures kernels.Keys == NextSymbols(g, m.Keys)
    ensures forall x | x in kernels :: kernels[x] == Advance(g, m, x)
  {
    hide Grouped;
    kernels := map[];
    var todo := m.Keys;
    NothingGrouped(g, m);
    while todo != {}
      invariant todo <= m.Keys && Grouped(g, m, m.Keys - todo, kernels)
    {
      var it :| it in todo;
      ghost var seen := m.Keys - todo;
      todo := todo - {it};
      assert m.Keys - todo == seen + {it};
      if NotFinal(g, it) {
        GroupItem(g, m, seen, kernels, it);
        var x := Curr(g, it);
        var group := if x in kernels then kernels[x] else map[];
        kernels := kernels[x := group[Item(it.rule, it.dot + 1) := m[it]]];
      } else {
        GroupFinal(g, m, seen, kernels, it);
      }
    }
    assert m.Keys - todo == m.Keys;
    GroupedAdvance(g, m, kernels);
  }

  lemma NothingGrouped(g: Grammar, m: ItemSet)
    ensures Grouped(g, m, m.Keys - m.Keys, map[])
  {
  }

  // ------------------------------------------------ one state's transitions

  ghost predicate TargetOf(a: Automaton, s: nat, k: nat)
    requires |a.trans| == |a.states|
  {
    exists x: nat :: Link(a, s, x, k)
  }

  /** a is a0 with the transitions of s on the symbols in done, and the states they needed. */
  ghost predicate Connecting(g: Grammar, f: FirstInfo, a0: Automaton, a: Automaton, s: nat, done: set<nat>) {
    && Nodes(g, f, a)
    && |a0.trans| == |a0.states| <= |a.states| && s < |a0.states|
    && OthersKept(a0, a, s)
    && NewTargets(a0, a, s)
    && a.trans[s].Keys == done
    && (forall x | x in done :: ClosureEdge(g, f, a, s, x))
  }

  ghost predicate OthersKept(a0: Automaton, a: Automaton, s: nat)
    requires |a0.trans| == |a0.states| <= |a.states| == |a.trans|
  {
    && (forall k | 0 <= k < |a0.states| :: a.states[k] == a0.states[k])
    && (forall k | 0 <= k < |a0.states| && k != s :: a.trans[k] == a0.trans[k])
  }

  ghost predicate NewTargets(a0: Automaton, a: Automaton, s: nat)
    requires |a0.trans| == |a0.states| <= |a.states| == |a.trans|
  {
    forall k | |a0.states| <= k < |a.states| :: a.trans[k] == map[] && TargetOf(a, s, k)
  }

  /** The graph after a state has been looked up or appended. */
  ghost predicate Looked(g: Grammar, a: Automaton, a1: Automaton, t: nat, m: ItemSet) {
    && |a.trans| == |a.states|
    && t < |a1.states| == |a1.trans|
    && a1.states[t] == m
    && (a1 == a || (t == |a.states| && a1.states == a.states + [m] && a1.trans == a.trans + [map[]] && m !in a.states))
  }

  function WithEdge(a: Automaton, s: nat, x: nat, t: nat): Automaton
    requires s < |a.trans|
  {
    var row: map<nat, nat> := a.trans[s][x := t];
    Automaton(a.states, a.trans[s := row])
  }

  lemma LookedNodes(g: Grammar, f: FirstInfo, a: Automaton, a1: Automaton, t: nat, m: ItemSet)
    requires Nodes(g, f, a) && Looked(g, a, a1, t, m) && Bounded(g, m)
    ensures Nodes(g, f, a1)
  {
    hide LeastClosure, Bounded;
    if a1 != a {
      forall p, q | 0 <= p < q < |a1.states|
        ensures a1.states[p] != a1.states[q]
      {
        assert p < |a.states| ==> a1.states[p] in a.states;
      }
    }
  }

  lemma ConnectStep(g: Grammar, f: FirstInfo, a0: Automaton, a: Automaton, a1: Automaton, s: nat, done: set<nat>, x: nat, t: nat, m: ItemSet)
    requires Connecting(g, f, a0, a, s, done) && x !in done
    requires Looked(g, a, a1, t, m) && LeastClosure(g, f, Advance(g, a.states[s], x), m)
    ensures Connecting(g, f, a0, WithEdge(a1, s, x, t), s, done + {x})
  {
    hide LeastClosure, ClosureEdge, Looked, Advance, OthersKept, NewTargets, Nodes, WithEdge, Bounded;
    NodesSizes(g, f, a);
    LeastBounded(g, f, Advance(g, a.states[s], x), m);
    LookedNodes(g, f, a, a1, t, m);
    LookedSizes(g, a, a1, t, m);
    NodesWithEdge(g, f, a1, s, x, t);
    EdgeRow(a1, s, x, t);
    var a' := WithEdge(a1, s, x, t);
    assert |a'.states| == |a1.states| && a'.trans[s].Keys == a.trans[s].Keys + {x};
    forall y | y in done + {x}
      ensures ClosureEdge(g, f, a', s, y)
    {
      EdgeAfter(g, f, a, a1, s, x, t, m, y);
    }
    OthersAfter(g, a0, a, a1, s, x, t, m);
    TargetsAfter(g, a0, a, a1, s, x, t, m);
  }

  lemma LeastBounded(g: Grammar, f: FirstInfo, kernel: ItemSet, m: ItemSet)
    requires LeastClosure(g, f, kernel, m)
    ensures Bounded(g, m)
  {
  }

  lemma NodesSizes(g: Grammar, f: FirstInfo, a: Automaton)
    requires Nodes(g, f, a)
    ensures |a.trans| == |a.states|
  {
  }

  lemma EdgeRow(a: Automaton, s: nat, x: nat, t: nat)
    requires s < |a.trans|
    ensures var a' := WithEdge(a, s, x, t);
            a'.states == a.states && |a'.trans| == |a.trans| && a'.trans[s].Keys == a.trans[s].Keys + {x}
  {
  }

  lemma OthersAfter(g: Grammar, a0: Automaton, a: Automaton, a1: Automaton, s: nat, x: nat, t: nat, m: ItemSet)
    requires |a0.trans| == |a0.states| <= |a.states| == |a.trans| && OthersKept(a0, a, s)
    requires Looked(g, a, a1, t, m) && s < |a0.states|
    ensures OthersKept(a0, WithEdge(a1, s, x, t), s)
  {
    LookedSizes(g, a, a1, t, m);
  }

  lemma TargetsAfter(g: Grammar, a0: Automaton, a: Automaton, a1: Automaton, s: nat, x: nat, t: nat, m: ItemSet)
    requires |a0.trans| == |a0.states| <= |a.states| == |a.trans| && NewTargets(a0, a, s)
    requires Looked(g, a, a1, t, m) && s < |a0.states| && x !in a.trans[s]
    ensures NewTargets(a0, WithEdge(a1, s, x, t), s)
  {
    hide TargetOf;
    LookedSizes(g, a, a1, t, m);
    var a' := WithEdge(a1, s, x, t);
    forall k | |a0.states| <= k < |a'.states|
      ensures a'.trans[k] == map[] && TargetOf(a', s, k)
    {
      TargetAfter(g, a, a1, s, x, t, m, k);
    }
  }

  lemma LookedSizes(g: Grammar, a: Automaton, a1: Automaton, t: nat, m: ItemSet)
    requires Looked(g, a, a1, t, m)
    ensures |a.states| == |a.trans| <= |a1.states| == |a1.trans| && t < |a1.states| <= |a.states| + 1
    ensures forall k | 0 <= k < |a.states| :: a1.states[k] == a.states[k] && a1.trans[k] == a.trans[k]
    ensures |a1.states| > |a.states| ==> a1.trans[|a.states|] == map[] && t == |a.states|
  {
  }

  lemma EdgeAfter(g: Grammar, f: FirstInfo, a: Automaton, a1: Automaton, s: nat, x: nat, t: nat, m: ItemSet, y: nat)
    requires |a.trans| == |a.states| && s < |a.states|
    requires Looked(g, a, a1, t, m) && LeastClosure(g, f, Advance(g, a.states[s], x), m)
    requires y == x || (y in a.trans[s] && ClosureEdge(g, f, a, s, y))
    ensures var a' := WithEdge(a1, s, x, t); ClosureEdge(g, f, a', s, y)
  {
    hide LeastClosure;
  }

  lemma TargetAfter(g: Grammar, a: Automaton, a1: Automaton, s: nat, x: nat, t: nat, m: ItemSet, k: nat)
    requires |a.trans| == |a.states| && s < |a.states| && Looked(g, a, a1, t, m) && x !in a.trans[s] && s != k
    requires k < |a.states| ==> TargetOf(a, s, k) && a.trans[k] == map[]
    requires k < |a1.states|
    ensures var a' := WithEdge(a1, s, x, t); TargetOf(a', s, k) && a'.trans[k] == map[]
  {
    var a' := WithEdge(a1, s, x, t);
    if k < |a.states| {
      var y: nat :| Link(a, s, y, k);
      assert Link(a', s, y, k);
    } else {
      assert Link(a', s, x, k);
    }
  }

  lemma NodesWithEdge(g: Grammar, f: FirstInfo, a: Automaton, s: nat, x: nat, t: nat)
    requires Nodes(g, f, a) && s < |a.states|
    ensures Nodes(g, f, WithEdge(a, s, x, t))
  {
  }

  lemma Connected(g: Grammar, f: FirstInfo, a0: Automaton, a: Automaton, s: nat)
    requires SoFar(g, f, a0) && s < |a0.states| && a0.trans[s] == map[]
    requires Connecting(g, f, a0, a, s, NextSymbols(g, a0.Core(s)))
    ensures SoFar(g, f, a) && Extends(a0, a) && Explored(g, f, a, s)
  {
    hide LeastClosure, Nodes, ClosureEdge, Reached, TargetOf;
    ConnectingExtends(g, f, a0, a, s, NextSymbols(g, a0.Core(s)));
    forall k | 0 <= k < |a.states|
      ensures a.trans[k] == map[] || Explored(g, f, a, k)
    {
      if k < |a0.states| && k != s && a0.trans[k] != map[] {
        ExploredKept(g, f, a0, a, k);
      }
    }
    forall k | 0 < k < |a.states|
      ensures Reached(a, k)
    {
      ReachedConnected(g, f, a0, a, s, k, NextSymbols(g, a0.Core(s)));
    }
  }

  lemma ConnectingExtends(g: Grammar, f: FirstInfo, a0: Automaton, a: Automaton, s: nat, done: set<nat>)
    requires |a0.states| == |a0.trans| && s < |a0.states| && a0.trans[s] == map[] && Connecting(g, f, a0, a, s, done)
    ensures Extends(a0, a) && |a.states| > 0
  {
    hide LeastClosure;
  }

  lemma ReachedConnected(g: Grammar, f: FirstInfo, a0: Automaton, a: Automaton, s: nat, k: nat, done: set<nat>)
    requires |a0.states| == |a0.trans| && s < |a0.states| && a0.trans[s] == map[] && 0 < k < |a.states|
    requires k < |a0.states| ==> Reached(a0, k)
    requires Connecting(g, f, a0, a, s, done)
    ensures Reached(a, k)
  {
    hide LeastClosure, ClosureEdge;
    if k < |a0.states| {
      var p: nat, x: nat :| p < k && Link(a0, p, x, k);
      assert Link(a, p, x, k);
    } else {
      assert TargetOf(a, s, k);
      var x: nat :| Link(a, s, x, k);
    }
  }

  lemma StartConnecting(g: Grammar, f: FirstInfo, a: Automaton, s: nat)
    requires SoFar(g, f, a) && s < |a.states| && a.trans[s] == map[]
    ensures Connecting(g, f, a, a, s, {})
  {
  }

  // ------------------------------------------------ the recursion over states

  ghost predicate ToVisit(a1: Automaton, s: nat, todo: set<nat>, k: nat)
    requires |a1.trans| == |a1.states|
  {
    exists x: nat :: x in todo && Link(a1, s, x, k)
  }

  /** Every state numbered n0 or later is explored, or is a target of s still to be visited. */
  ghost predicate Visiting(g: Grammar, f: FirstInfo, a1: Automaton, a: Automaton, s: nat, todo: set<nat>, n0: nat)
    requires |a1.trans| == |a1.states|
  {
    forall k | n0 <= k < |a.states| :: Explored(g, f, a, k) || ToVisit(a1, s, todo, k)
  }

  lemma VisitingStart(g: Grammar, f: FirstInfo, a: Automaton, s: nat, n0: nat)
    requires |a.trans| == |a.states| && s < |a.states| && forall k | n0 <= k < |a.states| :: TargetOf(a, s, k)
    ensures Visiting(g, f, a, a, s, a.trans[s].Keys, n0)
  {
    forall k | n0 <= k < |a.states|
      ensures ToVisit(a, s, a.trans[s].Keys, k)
    {
      assert TargetOf(a, s, k);
      var x: nat :| Link(a, s, x, k);
    }
  }

  /** After the target over x has been resolved. */
  lemma VisitingStep(g: Grammar, f: FirstInfo, a1: Automaton, a: Automaton, a': Automaton, s: nat, todo: set<nat>, x: nat, n0: nat)
    requires |a1.trans| == |a1.states| && s < |a1.states| && x in a1.trans[s]
    requires Visiting(g, f, a1, a, s, todo, n0) && Extends(a, a') && SoFar(g, f, a')
    requires Explored(g, f, a', a1.trans[s][x])
    requires forall k | |a.states| <= k < |a'.states| :: Explored(g, f, a', k)
    ensures Visiting(g, f, a1, a', s, todo - {x}, n0)
  {
    hide Explored, SoFar;
    forall k | n0 <= k < |a'.states|
      ensures Explored(g, f, a', k) || ToVisit(a1, s, todo - {x}, k)
    {
      if k < |a.states| {
        if Explored(g, f, a, k) {
          ExploredExtends(g, f, a, a', k);
        } else {
          assert ToVisit(a1, s, todo, k);
          var y: nat :| y in todo && Link(a1, s, y, k);
          if y != x {
            assert y in todo - {x};
          }
        }
      }
    }
  }

  lemma VisitingDone(g: Grammar, f: FirstInfo, a1: Automaton, a: Automaton, s: nat, n0: nat)
    requires |a1.trans| == |a1.states| && Visiting(g, f, a1, a, s, {}, n0)
    ensures forall k | n0 <= k < |a.states| :: Explored(g, f, a, k)
  {
  }

  lemma ExtendsRefl(a: Automaton)
    requires |a.trans| == |a.states|
    ensures Extends(a, a)
  {
  }

  lemma TargetInRange(g: Grammar, f: FirstInfo, a: Automaton, s: nat, x: nat)
    requires Explored(g, f, a, s) && x in a.trans[s]
    ensures a.trans[s][x] < |a.states| && a.trans[s] != map[]
  {
    assert ClosureEdge(g, f, a, s, x);
  }

  /** While one state is being resolved, fewer remain to be filled in. */
  lemma RemainingDecreases(g: Grammar, f: FirstInfo, a0: Automaton, a1: Automaton, a: Automaton, s: nat)
    requires SoFar(g, f, a0) && SoFar(g, f, a1) && Extends(a0, a1) && Extends(a1, a)
    requires s < |a0.states| && a0.trans[s] == map[] && a1.trans[s] != map[]
    ensures Universe(g) - Filled(a) < Universe(g) - Filled(a0)
  {
    FilledDecreases(g, f, a0, a1, s);
    FilledGrows(a1, a);
  }

  lemma AllExplored(g: Grammar, f: FirstInfo, a: Automaton)
    requires SoFar(g, f, a) && forall s | 0 <= s < |a.states| :: Explored(g, f, a, s)
    ensures IsCanonical(g, f, a)
  {
    hide LeastClosure, ClosureEdge, Reached;
    forall s, x | 0 <= s < |a.states| && x in a.trans[s]
      ensures ClosureEdge(g, f, a, s, x)
    {
      assert Explored(g, f, a, s);
    }
    forall s | 0 <= s < |a.states|
      ensures a.trans[s].Keys == NextSymbols(g, a.Core(s))
    {
      assert Explored(g, f, a, s);
    }
  }
}
