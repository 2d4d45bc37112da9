/** The computed closure against the textbook's: it always contains it, and when they agree. */
module Textbooks {
  import opened Grammars
  import opened Closures
  import opened Automata
  import opened Canonical
  import opened Explorations

  /** The textbook equations pass lookaheads to fresh items only. */
  ghost predicate TextbookClosed(g: Grammar, f: FirstInfo, m: ItemSet) {
    && AllInRange(g, m)
    && Expanded(g, m)
    && forall it, it2 | it in m && it2 in m && AtNonterminal(g, it) && it2.dot == 0 && Lhs(g, it2) == Curr(g, it) ::
         Contribution(g, f, m, it) <= m[it2]
  }

  ghost predicate TextbookClosure(g: Grammar, f: FirstInfo, kernel: ItemSet, m: ItemSet) {
    && Leq(kernel, m)
    && TextbookClosed(g, f, m)
    && forall other | TextbookClosed(g, f, other) && Leq(kernel, other) :: Leq(m, other)
  }

  /** The computed closure contains the textbook's, over the same first sets. */
  lemma ContainsTextbook(g: Grammar, f: FirstInfo, kernel: ItemSet, textbook: ItemSet, m: ItemSet)
    requires TextbookClosure(g, f, kernel, textbook) && LeastClosure(g, f, kernel, m)
    ensures Leq(textbook, m)
  {
    assert TextbookClosed(g, f, m);
  }

  /** A least closure adds nothing but fresh items. */
  lemma TextbookOnlyAdds(g: Grammar, f: FirstInfo, kernel: ItemSet, m: ItemSet)
    requires g.WellFormed() && TextbookClosure(g, f, kernel, m)
    ensures OnlyAdds(kernel, m)
  {
    hide TextbookClosed;
    var other := Added(kernel, m);
    AddedClosed(g, f, kernel, m);
    assert Leq(m, other);
  }

  /** The kernel's items and the fresh ones. */
  function Added(kernel: ItemSet, m: ItemSet): ItemSet {
    map it | it in m && (it in kernel || (it.dot == 0 && it.rule > 0)) :: m[it]
  }

  lemma AddedClosed(g: Grammar, f: FirstInfo, kernel: ItemSet, m: ItemSet)
    requires g.WellFormed() && TextbookClosed(g, f, m)
    ensures TextbookClosed(g, f, Added(kernel, m))
  {
    var other := Added(kernel, m);
    forall it, r: nat | it in other && AtNonterminal(g, it) && r < |g.rules| && g.rules[r].lhs == Curr(g, it)
      ensures Item(r, 0) in other
    {
      assert Item(r, 0) in m;
    }
    forall it, it2 | it in other && it2 in other && AtNonterminal(g, it) && it2.dot == 0 && Lhs(g, it2) == Curr(g, it)
      ensures Contribution(g, f, other, it) <= other[it2]
    {
      assert Contribution(g, f, m, it) <= m[it2];
    }
  }

  /** Passing lookaheads to the kernel items as well gives them nothing new. */
  ghost predicate KernelFed(g: Grammar, f: FirstInfo, kernel: ItemSet, m: ItemSet)
    requires AllInRange(g, m)
  {
    forall it, it2 | it in m && it2 in kernel && it2 in m && AtNonterminal(g, it) && Lhs(g, it2) == Curr(g, it) ::
      Contribution(g, f, m, it) <= m[it2]
  }

  /** The two closures agree exactly when the textbook's has nothing to pass to its kernel items. */
  lemma EqualsTextbook(g: Grammar, f: FirstInfo, kernel: ItemSet, textbook: ItemSet, m: ItemSet)
    requires g.WellFormed() && TextbookClosure(g, f, kernel, textbook) && LeastClosure(g, f, kernel, m)
    ensures m == textbook <==> KernelFed(g, f, kernel, textbook)
  {
    hide Contribution, AtNonterminal;
    TextbookOnlyAdds(g, f, kernel, textbook);
    ContainsTextbook(g, f, kernel, textbook, m);
    if KernelFed(g, f, kernel, textbook) {
      FedIsClosed(g, f, kernel, textbook);
      assert Leq(m, textbook);
      SameItems(m, textbook);
    }
  }

  lemma FedIsClosed(g: Grammar, f: FirstInfo, kernel: ItemSet, m: ItemSet)
    requires TextbookClosed(g, f, m) && OnlyAdds(kernel, m) && KernelFed(g, f, kernel, m)
    ensures IsClosed(g, f, m)
  {
    hide Contribution;
    forall it, it2 | it in m && it2 in m && AtNonterminal(g, it) && Lhs(g, it2) == Curr(g, it)
      ensures Contribution(g, f, m, it) <= m[it2]
    {
      if it2 !in kernel {
        assert it2.dot == 0;
      }
    }
  }

  lemma SameItems(a: ItemSet, b: ItemSet)
    requires Leq(a, b) && Leq(b, a)
    ensures a == b
  {
    assert a.Keys == b.Keys;
    assert forall it | it in a :: a[it] == b[it];
  }

  /** No kernel item's left side stands after a dot of the closure: a check of the LR(0) items. */
  ghost predicate KernelApart(g: Grammar, kernel: ItemSet, items: set<Item>) {
    forall it, it2 | it in items && it2 in kernel && AtNonterminal(g, it) :: Lhs(g, it2) != Curr(g, it)
  }

  lemma ApartIsFed(g: Grammar, f: FirstInfo, kernel: ItemSet, textbook: ItemSet, m: ItemSet)
    requires AllInRange(g, textbook) && Leq(textbook, m) && KernelApart(g, kernel, m.Keys)
    ensures KernelFed(g, f, kernel, textbook)
  {
    hide Contribution;
    assert textbook.Keys <= m.Keys;
  }

  lemma TextbookInRange(g: Grammar, f: FirstInfo, kernel: ItemSet, m: ItemSet)
    requires TextbookClosure(g, f, kernel, m)
    ensures AllInRange(g, m)
  {
  }

  lemma ApartEqualsTextbook(g: Grammar, f: FirstInfo, kernel: ItemSet, textbook: ItemSet, m: ItemSet)
    requires g.WellFormed() && TextbookClosure(g, f, kernel, textbook) && LeastClosure(g, f, kernel, m)
    requires KernelApart(g, kernel, m.Keys)
    ensures m == textbook
  {
    hide KernelFed, KernelApart, TextbookClosure, LeastClosure;
    TextbookInRange(g, f, kernel, textbook);
    ContainsTextbook(g, f, kernel, textbook, m);
    ApartIsFed(g, f, kernel, textbook, m);
    EqualsTextbook(g, f, kernel, textbook, m);
  }

  // ------------------------------------------------ along the paths of the graph

  /** The canonical LR(1) item sets met along a path: textbook closures, advanced over each symbol. */
  ghost predicate TextbookPath(g: Grammar, f: FirstInfo, syms: seq<nat>, sets: seq<ItemSet>) {
    && |sets| == |syms| + 1
    && TextbookClosure(g, f, START_KERNEL, sets[0])
    && forall k | 0 <= k < |syms| :: TextbookClosure(g, f, Advance(g, sets[k], syms[k]), sets[k + 1])
  }

  lemma TextbookBelow(g: Grammar, f: FirstInfo, kernel: ItemSet, textbook: ItemSet, kernel': ItemSet, m: ItemSet)
    requires TextbookClosure(g, f, kernel, textbook) && Leq(kernel, kernel') && LeastClosure(g, f, kernel', m)
    ensures Leq(textbook, m)
  {
    assert TextbookClosed(g, f, m);
    LeqTrans(kernel, kernel', m);
  }

  lemma LeqTrans(a: ItemSet, b: ItemSet, c: ItemSet)
    requires Leq(a, b) && Leq(b, c)
    ensures Leq(a, c)
  {
  }

  lemma AdvanceMonotone(g: Grammar, a: ItemSet, b: ItemSet, x: nat)
    requires Leq(a, b)
    ensures Leq(Advance(g, a, x), Advance(g, b, x))
  {
    hide Advance;
    var a', b' := Advance(g, a, x), Advance(g, b, x);
    forall it | it in a'
      ensures it in b' && a'[it] <= b'[it]
    {
      var from := AdvanceFrom(g, a, it, x);
      AdvanceItem(g, a, from);
      AdvanceItem(g, b, from);
    }
  }

  /** Along every path the canonical LR(1) item set is below the state that is reached. */
  lemma {:induction false} PathContainsTextbook(g: Grammar, f: FirstInfo, a: Automaton, states: seq<nat>, syms: seq<nat>,
                                                sets: seq<ItemSet>, k: nat)
    requires IsCanonical(g, f, a) && Path(a, states, syms) && TextbookPath(g, f, syms, sets) && k < |states|
    ensures Leq(sets[k], a.states[states[k]])
    decreases k
  {
    hide LeastClosure, TextbookClosure, Advance, Leq;
    if k == 0 {
      KernelBelow(g, f, sets[0], a.states[0]);
    } else {
      PathContainsTextbook(g, f, a, states, syms, sets, k - 1);
      assert Link(a, states[k - 1], syms[k - 1], states[k]);
      EdgeBelow(g, f, a, states[k - 1], syms[k - 1], sets[k - 1], sets[k]);
    }
  }

  lemma EdgeBelow(g: Grammar, f: FirstInfo, a: Automaton, s: nat, x: nat, before: ItemSet, after: ItemSet)
    requires IsCanonical(g, f, a) && s < |a.states| && x in a.trans[s]
    requires Leq(before, a.states[s]) && TextbookClosure(g, f, Advance(g, before, x), after)
    ensures a.trans[s][x] < |a.states| && Leq(after, a.states[a.trans[s][x]])
  {
    hide LeastClosure, TextbookClosure, Advance, Leq, IsCanonical;
    EdgeLeast(g, f, a, s, x);
    AdvanceMonotone(g, before, a.states[s], x);
    TextbookBelow(g, f, Advance(g, before, x), after, Advance(g, a.states[s], x), a.states[a.trans[s][x]]);
  }

  lemma KernelBelow(g: Grammar, f: FirstInfo, textbook: ItemSet, m: ItemSet)
    requires TextbookClosure(g, f, START_KERNEL, textbook) && LeastClosure(g, f, START_KERNEL, m)
    ensures Leq(textbook, m)
  {
    TextbookBelow(g, f, START_KERNEL, textbook, START_KERNEL, m);
  }

  // ------------------------------------------------ the whole graph

  ghost predicate InAll(g: Grammar, f: FirstInfo, kernel: ItemSet, it: Item) {
    forall other | TextbookClosed(g, f, other) && Leq(kernel, other) :: it in other
  }

  ghost predicate FollowsInAll(g: Grammar, f: FirstInfo, kernel: ItemSet, it: Item, x: nat) {
    forall other | TextbookClosed(g, f, other) && Leq(kernel, other) :: it in other && x in other[it]
  }

  /** What all closed sets over a kernel have in common, within one of them. */
  ghost function Common(g: Grammar, f: FirstInfo, kernel: ItemSet, m: ItemSet): ItemSet {
    map it | it in m && InAll(g, f, kernel, it) :: set x | x in m[it] && FollowsInAll(g, f, kernel, it, x)
  }

  lemma CommonBelow(g: Grammar, f: FirstInfo, kernel: ItemSet, m: ItemSet, other: ItemSet)
    requires TextbookClosed(g, f, other) && Leq(kernel, other)
    ensures Leq(Common(g, f, kernel, m), other)
  {
    hide TextbookClosed;
  }

  lemma CommonAbove(g: Grammar, f: FirstInfo, kernel: ItemSet, m: ItemSet)
    requires Leq(kernel, m)
    ensures Leq(kernel, Common(g, f, kernel, m))
  {
    hide TextbookClosed;
  }

  lemma CommonPasses(g: Grammar, f: FirstInfo, kernel: ItemSet, m: ItemSet, it: Item, it2: Item, x: nat)
    requires TextbookClosed(g, f, m) && Leq(kernel, m) && it in Common(g, f, kernel, m) && it2 in Common(g, f, kernel, m)
    requires AtNonterminal(g, it) && it2.dot == 0 && Lhs(g, it2) == Curr(g, it)
    requires x in Contribution(g, f, Common(g, f, kernel, m), it)
    ensures x in Common(g, f, kernel, m)[it2]
  {
    hide TextbookClosed, Common, InAll, FollowsInAll;
    var t := Common(g, f, kernel, m);
    forall other | TextbookClosed(g, f, other) && Leq(kernel, other)
      ensures it2 in other && x in other[it2]
    {
      CommonBelow(g, f, kernel, m, other);
      NextLonger(g, f, t, other, it);
      PassedOn(g, f, other, it, it2, x);
    }
    CommonHas(g, f, kernel, m, it2, x);
  }

  lemma NextLonger(g: Grammar, f: FirstInfo, a: ItemSet, b: ItemSet, it: Item)
    requires Leq(a, b) && it in a && it.rule < |g.rules|
    ensures it in b && Contribution(g, f, a, it) <= Contribution(g, f, b, it)
  {
    NextMonotone(g, f, g.rules[it.rule].rhs, it.dot + 1, a[it], b[it]);
  }

  lemma PassedOn(g: Grammar, f: FirstInfo, m: ItemSet, it: Item, it2: Item, x: nat)
    requires TextbookClosed(g, f, m) && it in m && it2 in m && AtNonterminal(g, it) && it2.dot == 0 && Lhs(g, it2) == Curr(g, it)
    requires x in Contribution(g, f, m, it)
    ensures x in m[it2]
  {
    hide Contribution;
  }

  lemma CommonHas(g: Grammar, f: FirstInfo, kernel: ItemSet, m: ItemSet, it: Item, x: nat)
    requires TextbookClosed(g, f, m) && Leq(kernel, m) && it in Common(g, f, kernel, m)
    requires forall other | TextbookClosed(g, f, other) && Leq(kernel, other) :: it in other && x in other[it]
    ensures x in Common(g, f, kernel, m)[it]
  {
    hide TextbookClosed;
  }

  lemma CommonExpands(g: Grammar, f: FirstInfo, kernel: ItemSet, m: ItemSet, it: Item, r: nat)
    requires TextbookClosed(g, f, m) && Leq(kernel, m) && it in Common(g, f, kernel, m)
    requires AtNonterminal(g, it) && r < |g.rules| && g.rules[r].lhs == Curr(g, it)
    ensures Item(r, 0) in Common(g, f, kernel, m)
  {
    hide Contribution;
    assert Item(r, 0) in m;
    forall other | TextbookClosed(g, f, other) && Leq(kernel, other)
      ensures Item(r, 0) in other
    {
      assert it in other;
    }
  }

  /** Below any closed set over a kernel there is a least one. */
  lemma TextbookExists(g: Grammar, f: FirstInfo, kernel: ItemSet, m: ItemSet) returns (t: ItemSet)
    requires TextbookClosed(g, f, m) && Leq(kernel, m)
    ensures TextbookClosure(g, f, kernel, t)
  {
    hide Common, Contribution, Leq;
    t := Common(g, f, kernel, m);
    CommonAbove(g, f, kernel, m);
    CommonBelow(g, f, kernel, m, m);
    LeqKeysIn(t, m);
    forall it, r: nat | it in t && AtNonterminal(g, it) && r < |g.rules| && g.rules[r].lhs == Curr(g, it)
      ensures Item(r, 0) in t
    {
      CommonExpands(g, f, kernel, m, it, r);
    }
    forall it, it2 | it in t && it2 in t && AtNonterminal(g, it) && it2.dot == 0 && Lhs(g, it2) == Curr(g, it)
      ensures Contribution(g, f, t, it) <= t[it2]
    {
      forall x | x in Contribution(g, f, t, it)
        ensures x in t[it2]
      {
        CommonPasses(g, f, kernel, m, it, it2, x);
      }
    }
    assert TextbookClosed(g, f, t);
    forall other | TextbookClosed(g, f, other) && Leq(kernel, other)
      ensures Leq(t, other)
    {
      CommonBelow(g, f, kernel, m, other);
    }
  }

  lemma LeqKeysIn(a: ItemSet, b: ItemSet)
    requires Leq(a, b)
    ensures a.Keys <= b.Keys
  {
  }

  lemma ClosedIsTextbook(g: Grammar, f: FirstInfo, m: ItemSet)
    requires IsClosed(g, f, m)
    ensures TextbookClosed(g, f, m)
  {
  }

  /** The canonical LR(1) item sets exist along every path. */
  lemma {:induction false} PathTextbook(g: Grammar, f: FirstInfo, a: Automaton, states: seq<nat>, syms: seq<nat>) returns (sets: seq<ItemSet>)
    requires IsCanonical(g, f, a) && Path(a, states, syms)
    ensures TextbookPath(g, f, syms, sets)
    decreases |syms|
  {
    hide LeastClosure, TextbookClosure, Advance, Leq;
    var n := |syms|;
    if n == 0 {
      var t := StartTextbook(g, f, a);
      sets := [t];
    } else {
      PathPrefix(a, states, syms, n - 1);
      var before := PathTextbook(g, f, a, states[..n], syms[..n - 1]);
      PathContainsTextbook(g, f, a, states[..n], syms[..n - 1], before, n - 1);
      assert Link(a, states[n - 1], syms[n - 1], states[n]);
      var t := NextTextbook(g, f, a, states[n - 1], syms[n - 1], before[n - 1]);
      sets := before + [t];
      PathGrown(g, f, syms[..n - 1], before, syms[n - 1], t);
      assert syms[..n - 1] + [syms[n - 1]] == syms;
    }
  }

  lemma StartTextbook(g: Grammar, f: FirstInfo, a: Automaton) returns (t: ItemSet)
    requires IsCanonical(g, f, a)
    ensures TextbookClosure(g, f, START_KERNEL, t)
  {
    hide IsClosed, TextbookClosed, TextbookClosure, Leq, Below;
    ClosedIsTextbook(g, f, a.states[0]);
    t := TextbookExists(g, f, START_KERNEL, a.states[0]);
  }

  lemma NextTextbook(g: Grammar, f: FirstInfo, a: Automaton, s: nat, x: nat, before: ItemSet) returns (t: ItemSet)
    requires IsCanonical(g, f, a) && s < |a.states| && x in a.trans[s] && Leq(before, a.states[s])
    ensures TextbookClosure(g, f, Advance(g, before, x), t)
  {
    hide IsCanonical, IsClosed, TextbookClosed, TextbookClosure, Advance, Leq, Below;
    EdgeLeast(g, f, a, s, x);
    var m := a.states[a.trans[s][x]];
    AdvanceMonotone(g, before, a.states[s], x);
    LeqTrans(Advance(g, before, x), Advance(g, a.states[s], x), m);
    ClosedIsTextbook(g, f, m);
    t := TextbookExists(g, f, Advance(g, before, x), m);
  }

  lemma PathGrown(g: Grammar, f: FirstInfo, syms: seq<nat>, sets: seq<ItemSet>, x: nat, t: ItemSet)
    requires TextbookPath(g, f, syms, sets) && TextbookClosure(g, f, Advance(g, sets[|syms|], x), t)
    ensures TextbookPath(g, f, syms + [x], sets + [t])
  {
    hide TextbookClosure, Advance;
    var more, all := syms + [x], sets + [t];
    forall k | 0 <= k < |more|
      ensures TextbookClosure(g, f, Advance(g, all[k], more[k]), all[k + 1])
    {
      if k < |syms| {
        assert TextbookClosure(g, f, Advance(g, sets[k], syms[k]), sets[k + 1]);
      }
    }
  }

  /** The textbook's closure of the kernel has nothing to pass to the kernel items. */
  ghost predicate Fed(g: Grammar, f: FirstInfo, kernel: ItemSet) {
    forall t | TextbookClosure(g, f, kernel, t) :: KernelFed(g, f, kernel, t)
  }

  /** That is so for the kernel of every state. */
  ghost predicate AllFed(g: Grammar, f: FirstInfo, a: Automaton)
    requires |a.trans| == |a.states|
  {
    && Fed(g, f, START_KERNEL)
    && (forall s, x | 0 <= s < |a.states| && x in a.trans[s] :: Fed(g, f, Advance(g, a.states[s], x)))
  }

  /** Along every path the canonical LR(1) item sets are the states met. */
  ghost predicate IsTextbook(g: Grammar, f: FirstInfo, a: Automaton)
    requires |a.trans| == |a.states|
  {
    forall states, syms, sets | Path(a, states, syms) && TextbookPath(g, f, syms, sets) :: EndsMatch(a, states, syms, sets)
  }

  ghost predicate EndsMatch(a: Automaton, states: seq<nat>, syms: seq<nat>, sets: seq<ItemSet>)
    requires |states| == |syms| + 1 == |sets|
  {
    states[|syms|] < |a.states| && sets[|syms|] == a.states[states[|syms|]]
  }

  lemma {:induction false} FedMatches(g: Grammar, f: FirstInfo, a: Automaton, states: seq<nat>, syms: seq<nat>, sets: seq<ItemSet>)
    requires g.WellFormed() && IsCanonical(g, f, a) && AllFed(g, f, a) && Path(a, states, syms) && TextbookPath(g, f, syms, sets)
    ensures EndsMatch(a, states, syms, sets)
    decreases |syms|
  {
    hide LeastClosure, TextbookClosure, Advance, KernelFed, Fed;
    var n := |syms|;
    if n == 0 {
      FedEquals(g, f, START_KERNEL, sets[0], a.states[0]);
    } else {
      PathPrefix(a, states, syms, n - 1);
      PathCut(g, f, syms, sets);
      FedMatches(g, f, a, states[..n], syms[..n - 1], sets[..n]);
      assert Link(a, states[n - 1], syms[n - 1], states[n]);
      assert ClosureEdge(g, f, a, states[n - 1], syms[n - 1]);
      FedEquals(g, f, Advance(g, a.states[states[n - 1]], syms[n - 1]), sets[n], a.states[states[n]]);
    }
  }

  lemma PathCut(g: Grammar, f: FirstInfo, syms: seq<nat>, sets: seq<ItemSet>)
    requires TextbookPath(g, f, syms, sets) && syms != []
    ensures TextbookPath(g, f, syms[..|syms| - 1], sets[..|syms|])
    ensures TextbookClosure(g, f, Advance(g, sets[|syms| - 1], syms[|syms| - 1]), sets[|syms|])
  {
    hide TextbookClosure, Advance;
  }

  lemma FedEquals(g: Grammar, f: FirstInfo, kernel: ItemSet, t: ItemSet, m: ItemSet)
    requires g.WellFormed() && TextbookClosure(g, f, kernel, t) && LeastClosure(g, f, kernel, m) && Fed(g, f, kernel)
    ensures t == m
  {
    hide TextbookClosure, LeastClosure, KernelFed;
    TextbookInRange(g, f, kernel, t);
    EqualsTextbook(g, f, kernel, t, m);
  }

  lemma EqualsFed(g: Grammar, f: FirstInfo, kernel: ItemSet, m: ItemSet)
    requires g.WellFormed() && LeastClosure(g, f, kernel, m)
    requires forall t | TextbookClosure(g, f, kernel, t) :: t == m
    ensures Fed(g, f, kernel)
  {
    hide TextbookClosure, LeastClosure, KernelFed;
    forall t | TextbookClosure(g, f, kernel, t)
      ensures AllInRange(g, t) && KernelFed(g, f, kernel, t)
    {
      TextbookInRange(g, f, kernel, t);
      EqualsTextbook(g, f, kernel, t, m);
    }
  }

  /** The graph is the canonical LR(1) collection over its first sets exactly when no state's textbook
      closure has anything to pass to its kernel items. */
  lemma GraphEqualsTextbook(g: Grammar, f: FirstInfo, a: Automaton)
    requires g.WellFormed() && IsCanonical(g, f, a)
    ensures IsTextbook(g, f, a) <==> AllFed(g, f, a)
  {
    hide LeastClosure, TextbookClosure, Fed, Path, TextbookPath, Advance;
    if AllFed(g, f, a) {
      forall states, syms, sets | Path(a, states, syms) && TextbookPath(g, f, syms, sets)
        ensures |states| == |syms| + 1 == |sets| && EndsMatch(a, states, syms, sets)
      {
        PathSize(a, states, syms);
        PathSets(g, f, syms, sets);
        FedMatches(g, f, a, states, syms, sets);
      }
    }
    if IsTextbook(g, f, a) {
      StartFed(g, f, a);
      forall s, x | 0 <= s < |a.states| && x in a.trans[s]
        ensures Fed(g, f, Advance(g, a.states[s], x))
      {
        EdgeFed(g, f, a, s, x);
      }
    }
  }

  lemma PathSets(g: Grammar, f: FirstInfo, syms: seq<nat>, sets: seq<ItemSet>)
    requires TextbookPath(g, f, syms, sets)
    ensures |sets| == |syms| + 1
  {
  }

  lemma StartFed(g: Grammar, f: FirstInfo, a: Automaton)
    requires g.WellFormed() && IsCanonical(g, f, a) && IsTextbook(g, f, a)
    ensures Fed(g, f, START_KERNEL)
  {
    hide LeastClosure, TextbookClosure, Fed;
    forall t | TextbookClosure(g, f, START_KERNEL, t)
      ensures t == a.states[0]
    {
      assert Path(a, [0], []) && TextbookPath(g, f, [], [t]);
      assert EndsMatch(a, [0], [], [t]);
    }
    EqualsFed(g, f, START_KERNEL, a.states[0]);
  }

  lemma EdgeLeast(g: Grammar, f: FirstInfo, a: Automaton, s: nat, x: nat)
    requires IsCanonical(g, f, a) && s < |a.states| && x in a.trans[s]
    ensures |a.trans| == |a.states| && a.trans[s][x] < |a.states|
    ensures LeastClosure(g, f, Advance(g, a.states[s], x), a.states[a.trans[s][x]])
  {
    hide LeastClosure, Advance;
    assert ClosureEdge(g, f, a, s, x);
  }

  lemma EdgeFed(g: Grammar, f: FirstInfo, a: Automaton, s: nat, x: nat)
    requires g.WellFormed() && IsCanonical(g, f, a) && IsTextbook(g, f, a) && s < |a.states| && x in a.trans[s]
    ensures Fed(g, f, Advance(g, a.states[s], x))
  {
    hide IsCanonical, LeastClosure, TextbookClosure, Fed, Advance, CoreAutomaton, IsTextbook;
    EdgeLeast(g, f, a, s, x);
    CanonicalCore(g, f, a);
    CanonicalReached(g, f, a, s);
    var states, syms :| PathTo(a, states, syms, s);
    var sets := PathTextbook(g, f, a, states, syms);
    forall t | TextbookClosure(g, f, Advance(g, a.states[s], x), t)
      ensures t == a.states[a.trans[s][x]]
    {
      EdgeMatches(g, f, a, states, syms, sets, x, t);
    }
    EqualsFed(g, f, Advance(g, a.states[s], x), a.states[a.trans[s][x]]);
  }

  lemma EdgeMatches(g: Grammar, f: FirstInfo, a: Automaton, states: seq<nat>, syms: seq<nat>, sets: seq<ItemSet>, x: nat, t: ItemSet)
    requires CoreAutomaton(g, a) && |a.trans| == |a.states| && IsTextbook(g, f, a) && Path(a, states, syms) && TextbookPath(g, f, syms, sets)
    requires x in a.trans[states[|syms|]] && TextbookClosure(g, f, Advance(g, a.states[states[|syms|]], x), t)
    ensures a.trans[states[|syms|]][x] < |a.states| && t == a.states[a.trans[states[|syms|]][x]]
  {
    hide TextbookClosure, Advance, CoreAutomaton, Path, TextbookPath;
    PathSize(a, states, syms);
    PathSets(g, f, syms, sets);
    assert EndsMatch(a, states, syms, sets);
    PathPush(g, a, states, syms, x);
    PathGrown(g, f, syms, sets, x, t);
    PathSets(g, f, syms + [x], sets + [t]);
    assert EndsMatch(a, states + [a.trans[states[|syms|]][x]], syms + [x], sets + [t]);
  }
}
