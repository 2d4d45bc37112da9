/** LR(1) items and their closure (src/parsergen/derivation.cc). Lookaheads are sets of token
    columns; module BitVectors shows that the bit vectors of the source implement such sets. */
module Closures {
  import opened Grammars

  /** What the collection has computed of each nonterminal: its first tokens, and whether it
      was flagged as possibly empty. */
  datatype FirstInfo = FirstInfo(first: map<nat, set<nat>>, empty: set<nat>) {

    function First(x: nat): set<nat> {
      if x in first then first[x] else {}
    }

    ghost predicate WellFormed(g: Grammar) {
      && (forall x | g.actionN <= x <= g.tokenN :: x in first)
      && (forall x, a | x in first && a in first[x] :: a < g.actionN)
    }
  }

  datatype Item = Item(rule: nat, dot: nat)

  type ItemSet = map<Item, set<nat>>

  function Range(lo: nat, hi: nat): (s: set<nat>)
    ensures forall x :: x in s <==> lo <= x < hi
    decreases hi - lo
  {
    if lo >= hi then {} else {lo} + Range(lo + 1, hi)
  }

  function Actions(g: Grammar): (s: set<nat>)
    ensures forall a: nat :: a in s <==> a < g.actionN
  {
    Range(0, g.actionN)
  }

  predicate InRange(g: Grammar, it: Item) {
    it.rule < |g.rules| && it.dot <= |g.rules[it.rule].rhs|
  }

  predicate IsFinal(g: Grammar, it: Item) {
    it.rule < |g.rules| && it.dot == |g.rules[it.rule].rhs|
  }

  predicate NotFinal(g: Grammar, it: Item) {
    it.rule < |g.rules| && it.dot < |g.rules[it.rule].rhs|
  }

  function Curr(g: Grammar, it: Item): nat
    requires NotFinal(g, it)
  {
    g.rules[it.rule].rhs[it.dot]
  }

  function Lhs(g: Grammar, it: Item): nat {
    if it.rule < |g.rules| then g.rules[it.rule].lhs else 0
  }

  predicate AtNonterminal(g: Grammar, it: Item) {
    NotFinal(g, it) && !g.IsAction(Curr(g, it))
  }

  ghost predicate AllInRange(g: Grammar, m: ItemSet) {
    forall it | it in m :: InRange(g, it)
  }

  ghost predicate Bounded(g: Grammar, m: ItemSet) {
    && AllInRange(g, m)
    && forall it | it in m :: m[it] <= Actions(g)
  }

  /** The items a state is started from: they are past their first symbol, unless they
      belong to the augment rule. */
  ghost predicate IsKernel(g: Grammar, m: ItemSet) {
    && Bounded(g, m)
    && forall it | it in m :: it.dot > 0 || it.rule == 0
  }

  // ------------------------------------------------ first tokens of a suffix

  /** The computed first tokens of the symbols of s from position j on, when la follows them. */
  function NextLookaheads(g: Grammar, f: FirstInfo, s: seq<nat>, j: nat, la: set<nat>): set<nat>
    decreases |s| - j
  {
    if j >= |s| then la
    else if g.IsAction(s[j]) then {s[j]}
    else f.First(s[j]) + if s[j] in f.empty then NextLookaheads(g, f, s, j + 1, la) else {}
  }

  method MergeFirstOf(g: Grammar, f: FirstInfo, dest: set<nat>, x: nat) returns (merged: set<nat>, hasEmpty: bool)
    ensures merged == dest + if g.IsAction(x) then {x} else f.First(x)
    ensures hasEmpty <==> !g.IsAction(x) && x in f.empty
  {
    if g.IsAction(x) {
      return dest + {x}, false;
    }
    merged := dest + f.First(x);
    hasEmpty := x in f.empty;
  }

  method MergeNextLookaheads(g: Grammar, f: FirstInfo, it: Item, la: set<nat>) returns (dest: set<nat>)
    requires NotFinal(g, it)
    ensures dest == NextLookaheads(g, f, g.rules[it.rule].rhs, it.dot + 1, la)
  {
    dest := {};
    var next := it.dot + 1;
    var rhs := g.rules[it.rule].rhs;
    var lastHasEmpty := true;
    while lastHasEmpty
      invariant it.dot + 1 <= next
      invariant dest + (if lastHasEmpty then NextLookaheads(g, f, rhs, next, la) else {})
             == NextLookaheads(g, f, rhs, it.dot + 1, la)
      decreases lastHasEmpty, |rhs| - next
    {
      if next >= |rhs| {
        return dest + la;
      }
      dest, lastHasEmpty := MergeFirstOf(g, f, dest, rhs[next]);
      next := next + 1;
    }
  }

  lemma {:induction false} NextMonotone(g: Grammar, f: FirstInfo, s: seq<nat>, j: nat, a: set<nat>, b: set<nat>)
    requires a <= b
    ensures NextLookaheads(g, f, s, j, a) <= NextLookaheads(g, f, s, j, b)
    decreases |s| - j
  {
    if j < |s| {
      NextMonotone(g, f, s, j + 1, a, b);
    }
  }

  lemma {:induction false} NextBounded(g: Grammar, f: FirstInfo, s: seq<nat>, j: nat, la: set<nat>)
    requires f.WellFormed(g) && la <= Actions(g)
    ensures NextLookaheads(g, f, s, j, la) <= Actions(g)
    decreases |s| - j
  {
    if j < |s| {
      NextBounded(g, f, s, j + 1, la);
    }
  }

  /** A token reaches the result either whatever the lookahead set is, or from the set itself. */
  lemma {:induction false} NextSplit(g: Grammar, f: FirstInfo, s: seq<nat>, j: nat, la: set<nat>, a: nat)
    requires a in NextLookaheads(g, f, s, j, la)
    ensures a in NextLookaheads(g, f, s, j, {}) || (a in la && a in NextLookaheads(g, f, s, j, {a}))
    decreases |s| - j
  {
    if j < |s| && !g.IsAction(s[j]) && a !in f.First(s[j]) {
      NextSplit(g, f, s, j + 1, la, a);
    }
  }

  /** Only the symbols from j on matter. */
  lemma {:induction false} NextSlice(g: Grammar, f: FirstInfo, s: seq<nat>, t: seq<nat>, j: nat, la: set<nat>)
    ensures NextLookaheads(g, f, s + t, |s| + j, la) == NextLookaheads(g, f, t, j, la)
    decreases |t| - j
  {
    if j < |t| {
      NextSlice(g, f, s, t, j + 1, la);
    }
  }

  /** First tokens of a concatenation: what follows the left part is first in the right part. */
  lemma {:induction false} NextConcat(g: Grammar, f: FirstInfo, s: seq<nat>, t: seq<nat>, j: nat, la: set<nat>)
    requires j <= |s|
    ensures NextLookaheads(g, f, s + t, j, la) == NextLookaheads(g, f, s, j, NextLookaheads(g, f, t, 0, la))
    decreases |s| - j
  {
    if j < |s| {
      NextConcat(g, f, s, t, j + 1, la);
    } else {
      NextSlice(g, f, s, t, 0, la);
    }
  }

  // ------------------------------------------------ the closure equations

  /** Every production of a nonterminal after a dot is in the state. */
  ghost predicate Expanded(g: Grammar, m: ItemSet) {
    forall it, r: nat | it in m && AtNonterminal(g, it) && r < |g.rules| && g.rules[r].lhs == Curr(g, it) :: Item(r, 0) in m
  }

  function Contribution(g: Grammar, f: FirstInfo, m: ItemSet, it: Item): set<nat>
    requires it in m && it.rule < |g.rules|
  {
    NextLookaheads(g, f, g.rules[it.rule].rhs, it.dot + 1, m[it])
  }

  /** Every item whose left side is the symbol after a dot, kernel items included, has the
      lookaheads which follow that symbol. */
  ghost predicate Propagated(g: Grammar, f: FirstInfo, m: ItemSet) {
    forall it, it2 | it in m && it2 in m && AtNonterminal(g, it) && Lhs(g, it2) == Curr(g, it) ::
      Contribution(g, f, m, it) <= m[it2]
  }

  ghost predicate IsClosed(g: Grammar, f: FirstInfo, m: ItemSet) {
    AllInRange(g, m) && Expanded(g, m) && Propagated(g, f, m)
  }

  ghost predicate Leq(a: ItemSet, b: ItemSet) {
    forall it | it in a :: it in b && a[it] <= b[it]
  }

  /** m is below every closed set that contains the kernel. */
  ghost predicate Below(g: Grammar, f: FirstInfo, kernel: ItemSet, m: ItemSet) {
    forall other | IsClosed(g, f, other) && Leq(kernel, other) :: Leq(m, other)
  }

  /** m is the least solution of the closure equations above the kernel. */
  ghost predicate LeastClosure(g: Grammar, f: FirstInfo, kernel: ItemSet, m: ItemSet) {
    && Leq(kernel, m)
    && IsClosed(g, f, m)
    && Below(g, f, kernel, m)
    && Bounded(g, m)
  }

  /** The closure depends on the kernel alone, so no iteration order can be seen in it. */
  lemma ClosureUnique(g: Grammar, f: FirstInfo, kernel: ItemSet, a: ItemSet, b: ItemSet)
    requires LeastClosure(g, f, kernel, a) && LeastClosure(g, f, kernel, b)
    ensures a == b
  {
    assert Leq(a, b) && Leq(b, a);
    assert a.Keys == b.Keys;
    assert forall it | it in a :: a[it] == b[it];
  }

  lemma BelowMerge(g: Grammar, f: FirstInfo, kernel: ItemSet, m: ItemSet, it: Item, it2: Item, la: set<nat>)
    requires Below(g, f, kernel, m) && it in m && it2 in m && AtNonterminal(g, it)
    requires Lhs(g, it2) == Curr(g, it)
    requires la <= Contribution(g, f, m, it)
    ensures Below(g, f, kernel, m[it2 := m[it2] + la])
  {
    forall other | IsClosed(g, f, other) && Leq(kernel, other)
      ensures Leq(m[it2 := m[it2] + la], other)
    {
      assert Leq(m, other);
      NextMonotone(g, f, g.rules[it.rule].rhs, it.dot + 1, m[it], other[it]);
      assert Contribution(g, f, other, it) <= other[it2];
    }
  }

  lemma BelowAdd(g: Grammar, f: FirstInfo, kernel: ItemSet, m: ItemSet, it: Item, r: nat, la: set<nat>)
    requires Below(g, f, kernel, m) && it in m && AtNonterminal(g, it)
    requires r < |g.rules| && g.rules[r].lhs == Curr(g, it)
    requires la <= Contribution(g, f, m, it)
    requires Item(r, 0) !in m
    ensures Below(g, f, kernel, m[Item(r, 0) := la])
  {
    forall other | IsClosed(g, f, other) && Leq(kernel, other)
      ensures Leq(m[Item(r, 0) := la], other)
    {
      assert Leq(m, other);
      NextMonotone(g, f, g.rules[it.rule].rhs, it.dot + 1, m[it], other[it]);
      assert Item(r, 0) in other;
      assert Lhs(g, Item(r, 0)) == Curr(g, it);
      assert Contribution(g, f, other, it) <= other[Item(r, 0)];
    }
  }

  // ------------------------------------------------ apply_closure

  ghost predicate Partial(g: Grammar, f: FirstInfo, kernel: ItemSet, m: ItemSet) {
    Leq(kernel, m) && Bounded(g, m) && Below(g, f, kernel, m) && OnlyAdds(kernel, m)
  }

  /** Closure adds nothing but productions with the dot in front. */
  ghost predicate OnlyAdds(kernel: ItemSet, m: ItemSet) {
    forall it | it in m && it !in kernel :: it.dot == 0 && it.rule > 0
  }

  /** The symbols in expanded have all their productions in the state, and no other symbol has any. */
  ghost predicate ExpandedSymbols(g: Grammar, m: ItemSet, expanded: set<nat>) {
    && expanded <= Nonterminals(g)
    && (forall r: nat | r < |g.rules| && g.rules[r].lhs in expanded :: Item(r, 0) in m)
    && (forall it | it in m && it.dot == 0 && 0 < it.rule < |g.rules| :: Lhs(g, it) in expanded)
  }

  ghost function Nonterminals(g: Grammar): (s: set<nat>)
    ensures forall x :: x in s <==> g.actionN <= x < g.tokenN
  {
    Range(g.actionN, g.tokenN)
  }

  /** Every item still to be looked at is in the worklist. */
  ghost predicate Pending(g: Grammar, m: ItemSet, expanded: set<nat>, work: set<Item>) {
    forall it | it in m && AtNonterminal(g, it) :: Curr(g, it) in expanded || it in work
  }

  lemma PartialMerge(g: Grammar, f: FirstInfo, kernel: ItemSet, m: ItemSet, it: Item, it2: Item, la: set<nat>)
    requires Partial(g, f, kernel, m) && it in m && it2 in m && AtNonterminal(g, it)
    requires Lhs(g, it2) == Curr(g, it)
    requires la <= Contribution(g, f, m, it) && la <= Actions(g)
    ensures Partial(g, f, kernel, m[it2 := m[it2] + la])
  {
    BelowMerge(g, f, kernel, m, it, it2, la);
  }

  lemma PartialAdd(g: Grammar, f: FirstInfo, kernel: ItemSet, m: ItemSet, it: Item, r: nat, la: set<nat>)
    requires Partial(g, f, kernel, m) && it in m && AtNonterminal(g, it)
    requires g.WellFormed() && r < |g.rules| && g.rules[r].lhs == Curr(g, it) && Item(r, 0) !in m
    requires la <= Contribution(g, f, m, it) && la <= Actions(g)
    ensures Partial(g, f, kernel, m[Item(r, 0) := la])
  {
    BelowAdd(g, f, kernel, m, it, r, la);
    hide Below;
    assert g.rules[r].lhs != g.rules[0].lhs;
    assert InRange(g, Item(r, 0));
  }

  lemma PartialKernel(g: Grammar, f: FirstInfo, kernel: ItemSet)
    requires IsKernel(g, kernel)
    ensures Partial(g, f, kernel, kernel)
  {
  }

  /** What an item with left side lhs gains when la follows the symbol b. */
  function Gain(lhs: nat, b: nat, la: set<nat>): set<nat> {
    if lhs == b then la else {}
  }

  /** Merge la into every item whose left side is the symbol after the dot of it. */
  method MergeMatching(g: Grammar, f: FirstInfo, ghost kernel: ItemSet, items: ItemSet, it: Item, la: set<nat>)
    returns (merged: ItemSet)
    requires Partial(g, f, kernel, items) && it in items && AtNonterminal(g, it)
    requires la == Contribution(g, f, items, it) && la <= Actions(g)
    ensures Partial(g, f, kernel, merged) && merged.Keys == items.Keys
    ensures forall it2 | it2 in items :: merged[it2] == items[it2] + Gain(Lhs(g, it2), Curr(g, it), la)
  {
    hide Partial;
    merged := items;
    var todo := items.Keys;
    while todo != {}
      invariant todo <= items.Keys == merged.Keys
      invariant Partial(g, f, kernel, merged)
      invariant forall it2 | it2 in todo :: merged[it2] == items[it2]
      invariant forall it2 | it2 in items && it2 !in todo :: merged[it2] == items[it2] + Gain(Lhs(g, it2), Curr(g, it), la)
    {
      var it2 :| it2 in todo;
      todo := todo - {it2};
      if Lhs(g, it2) == Curr(g, it) {
        assert items[it] <= merged[it];
        NextMonotone(g, f, g.rules[it.rule].rhs, it.dot + 1, items[it], merged[it]);
        PartialMerge(g, f, kernel, merged, it, it2, la);
        merged := merged[it2 := merged[it2] + la];
      }
    }
  }

  /** Add every production of the symbol after the dot of it. */
  method AddProductions(g: Grammar, f: FirstInfo, ghost kernel: ItemSet, items: ItemSet, it: Item, la: set<nat>)
    returns (more: ItemSet, added: set<Item>)
    requires g.WellFormed() && Partial(g, f, kernel, items) && it in items && AtNonterminal(g, it)
    requires la == Contribution(g, f, items, it) && la <= Actions(g)
    requires forall r: nat | r < |g.rules| && g.rules[r].lhs == Curr(g, it) :: Item(r, 0) !in items
    ensures Partial(g, f, kernel, more) && more.Keys == items.Keys + added
    ensures forall i :: i in added <==> i.dot == 0 && i.rule < |g.rules| && Lhs(g, i) == Curr(g, it)
  {
    hide Below;
    more, added := items, {};
    for r := 0 to |g.rules|
      invariant Partial(g, f, kernel, more) && more.Keys == items.Keys + added
      invariant forall i :: i in added <==> i.dot == 0 && i.rule < r && Lhs(g, i) == Curr(g, it)
      invariant more[it] == items[it]
    {
      if g.rules[r].lhs == Curr(g, it) {
        PartialAdd(g, f, kernel, more, it, r, la);
        more := more[Item(r, 0) := la];
        added := added + {Item(r, 0)};
      }
    }
  }

  /** Look at one item of the worklist; added are the items to look at next. */
  method ExpandItem(g: Grammar, f: FirstInfo, ghost kernel: ItemSet, items: ItemSet, expanded: set<nat>, it: Item)
    returns (more: ItemSet, done: set<nat>, added: set<Item>)
    requires g.WellFormed() && f.WellFormed(g)
    requires Partial(g, f, kernel, items) && ExpandedSymbols(g, items, expanded)
    requires it in items && AtNonterminal(g, it)
    ensures Partial(g, f, kernel, more) && ExpandedSymbols(g, more, done)
    ensures more.Keys == items.Keys + added
    ensures done == expanded + {Curr(g, it)} && (expanded == done ==> added == {})
  {
    hide Partial, ExpandedSymbols, NextLookaheads;
    var la := MergeNextLookaheads(g, f, it, items[it]);
    PartialBounded(g, f, kernel, items, it);
    NextBounded(g, f, g.rules[it.rule].rhs, it.dot + 1, items[it]);
    CurrIsNonterminal(g, it);
    if Curr(g, it) in expanded {
      more := MergeMatching(g, f, kernel, items, it, la);
      done, added := expanded, {};
      ExpandedKeys(g, items, more, expanded);
    } else {
      NotExpanded(g, f, items, expanded, it);
      more, added := AddProductions(g, f, kernel, items, it, la);
      done := expanded + {Curr(g, it)};
      ExpandedMore(g, items, more, expanded, it, added);
    }
  }

  lemma PartialBounded(g: Grammar, f: FirstInfo, kernel: ItemSet, m: ItemSet, it: Item)
    requires Partial(g, f, kernel, m) && it in m
    ensures m[it] <= Actions(g)
  {
  }

  lemma NotExpanded(g: Grammar, f: FirstInfo, m: ItemSet, expanded: set<nat>, it: Item)
    requires g.WellFormed() && ExpandedSymbols(g, m, expanded) && AtNonterminal(g, it) && Curr(g, it) !in expanded
    ensures forall r: nat | r < |g.rules| && g.rules[r].lhs == Curr(g, it) :: Item(r, 0) !in m
  {
  }

  lemma ExpandedKeys(g: Grammar, m: ItemSet, m': ItemSet, expanded: set<nat>)
    requires ExpandedSymbols(g, m, expanded) && m'.Keys == m.Keys
    ensures ExpandedSymbols(g, m', expanded)
  {
    assert forall i :: i in m <==> i in m';
  }

  lemma ExpandedMore(g: Grammar, m: ItemSet, m': ItemSet, expanded: set<nat>, it: Item, added: set<Item>)
    requires ExpandedSymbols(g, m, expanded) && AtNonterminal(g, it) && Curr(g, it) in Nonterminals(g)
    requires m'.Keys == m.Keys + added
    requires forall i :: i in added <==> i.dot == 0 && i.rule < |g.rules| && Lhs(g, i) == Curr(g, it)
    ensures ExpandedSymbols(g, m', expanded + {Curr(g, it)})
  {
    assert forall i :: i in m' <==> i in m || i in added;
  }

  /** One pass over the worklist, in any order. */
  method ExpandItems(g: Grammar, f: FirstInfo, ghost kernel: ItemSet, items: ItemSet, expanded: set<nat>, work: set<Item>)
    returns (more: ItemSet, done: set<nat>, next: set<Item>)
    requires g.WellFormed() && f.WellFormed(g)
    requires Partial(g, f, kernel, items) && ExpandedSymbols(g, items, expanded)
    requires Pending(g, items, expanded, work) && work <= items.Keys
    ensures Partial(g, f, kernel, more) && ExpandedSymbols(g, more, done)
    ensures Pending(g, more, done, next) && next <= more.Keys
    ensures expanded <= done && (expanded == done ==> next == {})
  {
    hide Partial, ExpandedSymbols;
    more, done, next := items, expanded, {};
    var todo := work;
    while todo != {}
      invariant Partial(g, f, kernel, more) && ExpandedSymbols(g, more, done)
      invariant Pending(g, more, done, todo + next) && todo <= more.Keys && next <= more.Keys
      invariant expanded <= done && (expanded == done ==> next == {})
      decreases todo
    {
      var it :| it in todo;
      todo := todo - {it};
      if AtNonterminal(g, it) {
        var added;
        more, done, added := ExpandItem(g, f, kernel, more, done, it);
        next := next + added;
      }
    }
  }

  lemma CurrIsNonterminal(g: Grammar, it: Item)
    requires g.WellFormed() && AtNonterminal(g, it)
    ensures Curr(g, it) in Nonterminals(g)
  {
  }

  /** The lookaheads a state could still gain. */
  ghost function Missing(g: Grammar, m: ItemSet): set<(Item, nat)> {
    set it, a | it in m && a in Actions(g) && a !in m[it] :: (it, a)
  }

  /** The pairs of items between which lookaheads have been passed on. */
  ghost predicate PropagatedFrom(g: Grammar, f: FirstInfo, m: ItemSet, it: Item)
    requires it in m
  {
    AtNonterminal(g, it) ==>
      forall it2 | it2 in m && Lhs(g, it2) == Curr(g, it) :: Contribution(g, f, m, it) <= m[it2]
  }

  /** Pass the lookaheads of one item on. As in the source, nothing more is merged once the
      state has changed in this pass. */
  method PropagateItem(g: Grammar, f: FirstInfo, ghost kernel: ItemSet, items: ItemSet, it: Item, wasDirty: bool)
    returns (merged: ItemSet, dirty: bool)
    requires Partial(g, f, kernel, items) && f.WellFormed(g) && it in items && AtNonterminal(g, it)
    ensures Partial(g, f, kernel, merged) && merged.Keys == items.Keys
    ensures wasDirty ==> dirty && merged == items
    ensures !dirty ==> merged == items && PropagatedFrom(g, f, items, it)
    ensures Missing(g, merged) <= Missing(g, items)
    ensures dirty && !wasDirty ==> Missing(g, merged) < Missing(g, items)
  {
    hide Below;
    merged, dirty := items, wasDirty;
    var la := MergeNextLookaheads(g, f, it, items[it]);
    NextBounded(g, f, g.rules[it.rule].rhs, it.dot + 1, items[it]);
    var todo := items.Keys;
    while todo != {}
      invariant todo <= items.Keys == merged.Keys
      invariant Partial(g, f, kernel, merged) && (wasDirty ==> dirty)
      invariant !dirty || wasDirty ==> merged == items
      invariant !dirty ==> forall it2 | it2 in items && it2 !in todo && Lhs(g, it2) == Curr(g, it) :: la <= items[it2]
      invariant Missing(g, merged) <= Missing(g, items)
      invariant dirty && !wasDirty ==> Missing(g, merged) < Missing(g, items)
    {
      var it2 :| it2 in todo;
      todo := todo - {it2};
      if Lhs(g, it2) == Curr(g, it) && !dirty {
        dirty := !(la <= merged[it2]);
        PartialMerge(g, f, kernel, merged, it, it2, la);
        merged := merged[it2 := merged[it2] + la];
        if dirty {
          var a :| a in la && a !in items[it2];
          assert (it2, a) in Missing(g, items) && (it2, a) !in Missing(g, merged);
        } else {
          assert la <= items[it2] && items[it2] + la == items[it2];
          assert merged == items;
        }
      }
    }
  }

  method PropagatePass(g: Grammar, f: FirstInfo, ghost kernel: ItemSet, items: ItemSet)
    returns (merged: ItemSet, dirty: bool)
    requires Partial(g, f, kernel, items) && f.WellFormed(g)
    ensures Partial(g, f, kernel, merged) && merged.Keys == items.Keys
    ensures !dirty ==> merged == items && Propagated(g, f, items)
    ensures dirty ==> Missing(g, merged) < Missing(g, items)
  {
    hide Below;
    merged, dirty := items, false;
    var todo := items.Keys;
    while todo != {}
      invariant todo <= items.Keys == merged.Keys
      invariant Partial(g, f, kernel, merged)
      invariant !dirty ==> merged == items && forall it | it in items && it !in todo :: PropagatedFrom(g, f, items, it)
      invariant dirty ==> Missing(g, merged) < Missing(g, items)
    {
      var it :| it in todo;
      todo := todo - {it};
      if AtNonterminal(g, it) {
        merged, dirty := PropagateItem(g, f, kernel, merged, it, dirty);
      }
    }
  }

  /** Close a kernel: expand with a worklist, then pass lookaheads on until nothing changes. */
  method ApplyClosure(g: Grammar, f: FirstInfo, kernel: ItemSet) returns (items: ItemSet)
    requires g.WellFormed() && f.WellFormed(g) && IsKernel(g, kernel)
    ensures LeastClosure(g, f, kernel, items)
    ensures OnlyAdds(kernel, items)
  {
    hide Below;
    PartialKernel(g, f, kernel);
    items := kernel;
    var expanded: set<nat>, work := {}, kernel.Keys;
    while work != {}
      invariant Partial(g, f, kernel, items) && ExpandedSymbols(g, items, expanded)
      invariant Pending(g, items, expanded, work) && work <= items.Keys
      decreases Nonterminals(g) - expanded, |work|
    {
      items, expanded, work := ExpandItems(g, f, kernel, items, expanded, work);
    }
    assert Expanded(g, items);
    var dirty := true;
    while dirty
      invariant Partial(g, f, kernel, items) && Expanded(g, items)
      invariant !dirty ==> Propagated(g, f, items)
      decreases Missing(g, items), dirty
    {
      items, dirty := PropagatePass(g, f, kernel, items);
    }
  }
}
