/** The state graph as a value: what both the CLR(1) and the LALR(1) collections satisfy, and
    what the paths of such a graph spell. */
module Automata {
  import opened Grammars
  import opened Closures

  datatype Automaton = Automaton(states: seq<ItemSet>, trans: seq<map<nat, nat>>) {

    function Core(s: nat): set<Item>
      requires s < |states|
    {
      states[s].Keys
    }
  }

  // ------------------------------------------------ cores

  ghost predicate CoreClosed(g: Grammar, k: set<Item>) {
    forall it, r: nat | it in k && AtNonterminal(g, it) && r < |g.rules| && g.rules[r].lhs == Curr(g, it) :: Item(r, 0) in k
  }

  /** k is the least closed set of LR(0) items that contains the kernel. */
  ghost predicate CoreClosure(g: Grammar, kernel: set<Item>, k: set<Item>) {
    && kernel <= k
    && CoreClosed(g, k)
    && forall other | CoreClosed(g, other) && kernel <= other :: k <= other
  }

  function NextSymbols(g: Grammar, k: set<Item>): set<nat> {
    set it | it in k && NotFinal(g, it) :: Curr(g, it)
  }

  function AdvanceCore(g: Grammar, k: set<Item>, x: nat): set<Item> {
    set it | it in k && NotFinal(g, it) && Curr(g, it) == x :: Item(it.rule, it.dot + 1)
  }

  /** The items of m with x after the dot, advanced over x with their lookaheads. */
  function Advance(g: Grammar, m: ItemSet, x: nat): ItemSet {
    map it | it in m && NotFinal(g, it) && Curr(g, it) == x :: Item(it.rule, it.dot + 1) := m[it]
  }

  lemma AdvanceKeys(g: Grammar, m: ItemSet, x: nat)
    ensures Advance(g, m, x).Keys == AdvanceCore(g, m.Keys, x)
    ensures forall it | it in m && NotFinal(g, it) && Curr(g, it) == x :: Advance(g, m, x)[Item(it.rule, it.dot + 1)] == m[it]
  {
  }

  /** The shape of the state graph: states are closures of advanced items. */
  ghost predicate CoreAutomaton(g: Grammar, a: Automaton) {
    && 0 < |a.states| == |a.trans|
    && (forall s | 0 <= s < |a.states| :: Bounded(g, a.states[s]))
    && CoreClosure(g, {Item(0, 0)}, a.Core(0))
    && (forall s | 0 <= s < |a.states| :: a.trans[s].Keys == NextSymbols(g, a.Core(s)))
    && (forall s, x | 0 <= s < |a.states| && x in a.trans[s] :: Edge(g, a, s, x))
  }

  ghost predicate Edge(g: Grammar, a: Automaton, s: nat, x: nat)
    requires s < |a.states| == |a.trans| && x in a.trans[s]
  {
    a.trans[s][x] < |a.states| && CoreClosure(g, AdvanceCore(g, a.Core(s), x), a.Core(a.trans[s][x]))
  }

  /** The lookaheads of the graph: end of input at the start, passed on within and across states. */
  ghost predicate LookaheadClosed(g: Grammar, f: FirstInfo, a: Automaton)
    requires CoreAutomaton(g, a)
  {
    && Item(0, 0) in a.states[0] && 0 in a.states[0][Item(0, 0)]
    && (forall s | 0 <= s < |a.states| :: Expanded(g, a.states[s]) && Propagated(g, f, a.states[s]))
    && (forall s, it | 0 <= s < |a.states| && it in a.states[s] && NotFinal(g, it) :: LookaheadEdge(g, a, s, it))
  }

  ghost predicate LookaheadEdge(g: Grammar, a: Automaton, s: nat, it: Item)
    requires s < |a.states| == |a.trans| && it in a.states[s] && NotFinal(g, it)
  {
    var x, next := Curr(g, it), Item(it.rule, it.dot + 1);
    && x in a.trans[s]
    && a.trans[s][x] < |a.states|
    && next in a.states[a.trans[s][x]]
    && a.states[s][it] <= a.states[a.trans[s][x]][next]
  }

  /** Closed lookaheads: the productions of the symbol after a dot have what follows it. */
  lemma Expands(g: Grammar, f: FirstInfo, a: Automaton, s: nat, it: Item, r: nat)
    requires CoreAutomaton(g, a) && LookaheadClosed(g, f, a) && s < |a.states| && it in a.states[s] && AtNonterminal(g, it)
    requires r < |g.rules| && g.rules[r].lhs == Curr(g, it)
    ensures Item(r, 0) in a.states[s] && Contribution(g, f, a.states[s], it) <= a.states[s][Item(r, 0)]
  {
    hide CoreAutomaton, Contribution;
    assert Expanded(g, a.states[s]) && Propagated(g, f, a.states[s]);
    assert Item(r, 0) in a.states[s];
    assert Lhs(g, Item(r, 0)) == Curr(g, it);
  }

  /** An item moves on with its lookaheads. */
  lemma Moves(g: Grammar, f: FirstInfo, a: Automaton, s: nat, it: Item)
    requires CoreAutomaton(g, a) && LookaheadClosed(g, f, a) && s < |a.states| && it in a.states[s] && NotFinal(g, it)
    ensures |a.states| == |a.trans| && LookaheadEdge(g, a, s, it)
  {
    hide CoreClosure, Contribution;
  }

  /** What the driver needs of lookaheads: the productions of the symbol after a dot have what
      follows it, and items move on with what they have. */
  ghost predicate LookaheadFlow(g: Grammar, f: FirstInfo, a: Automaton)
    requires CoreAutomaton(g, a)
  {
    && Item(0, 0) in a.states[0] && 0 in a.states[0][Item(0, 0)]
    && (forall s, it, r: nat | 0 <= s < |a.states| && it in a.states[s] && AtNonterminal(g, it) && IsProduction(g, Curr(g, it), r) ::
          Flows(g, f, a.states[s], it, r))
    && (forall s, it | 0 <= s < |a.states| && it in a.states[s] && NotFinal(g, it) :: LookaheadEdge(g, a, s, it))
  }

  predicate IsProduction(g: Grammar, x: nat, r: nat) {
    r < |g.rules| && g.rules[r].lhs == x
  }

  ghost predicate Flows(g: Grammar, f: FirstInfo, m: ItemSet, it: Item, r: nat)
    requires it in m && it.rule < |g.rules|
  {
    Item(r, 0) in m && Contribution(g, f, m, it) <= m[Item(r, 0)]
  }

  lemma ClosedFlow(g: Grammar, f: FirstInfo, a: Automaton)
    requires CoreAutomaton(g, a) && LookaheadClosed(g, f, a)
    ensures LookaheadFlow(g, f, a)
  {
    hide CoreClosure, Contribution, Propagated, Expanded;
    forall s, it, r: nat | 0 <= s < |a.states| && it in a.states[s] && AtNonterminal(g, it) && IsProduction(g, Curr(g, it), r)
      ensures Flows(g, f, a.states[s], it, r)
    {
      Expands(g, f, a, s, it, r);
    }
  }

  // ------------------------------------------------ facts about least closures

  /** A closure has the core closure of its kernel's core. */
  lemma ClosureCore(g: Grammar, f: FirstInfo, kernel: ItemSet, m: ItemSet)
    requires LeastClosure(g, f, kernel, m)
    ensures CoreClosure(g, kernel.Keys, m.Keys)
  {
    forall other | CoreClosed(g, other) && kernel.Keys <= other
      ensures m.Keys <= other
    {
      var part := map it | it in m && it in other :: m[it];
      PartIsClosed(g, f, m, other);
      assert Leq(kernel, part);
      assert Leq(m, part);
    }
  }

  lemma PartIsClosed(g: Grammar, f: FirstInfo, m: ItemSet, k: set<Item>)
    requires IsClosed(g, f, m) && CoreClosed(g, k)
    ensures IsClosed(g, f, map it | it in m && it in k :: m[it])
  {
    var part := map it | it in m && it in k :: m[it];
    forall it, it2 | it in part && it2 in part && AtNonterminal(g, it) && Lhs(g, it2) == Curr(g, it)
      ensures Contribution(g, f, part, it) <= part[it2]
    {
      assert Contribution(g, f, m, it) <= m[it2];
    }
  }

  lemma CoreClosureUnique(g: Grammar, kernel: set<Item>, a: set<Item>, b: set<Item>)
    requires CoreClosure(g, kernel, a) && CoreClosure(g, kernel, b)
    ensures a == b
  {
  }

  /** Items past their first symbol are kernel items. */
  lemma CoreKernelItems(g: Grammar, kernel: set<Item>, k: set<Item>, it: Item)
    requires CoreClosure(g, kernel, k) && it in k && it.dot > 0
    ensures it in kernel
  {
    var other := kernel + set i | i in k && i.dot == 0;
    forall i, r: nat | i in other && AtNonterminal(g, i) && r < |g.rules| && g.rules[r].lhs == Curr(g, i)
      ensures Item(r, 0) in other
    {
      assert i in k;
      assert Item(r, 0) in k;
    }
    assert CoreClosed(g, other);
  }

  /** Closure never adds the augment item. */
  lemma CoreNoAugment(g: Grammar, kernel: set<Item>, k: set<Item>)
    requires g.WellFormed() && CoreClosure(g, kernel, k) && Item(0, 0) !in kernel
    ensures Item(0, 0) !in k
  {
    var other := k - {Item(0, 0)};
    forall i, r: nat | i in other && AtNonterminal(g, i) && r < |g.rules| && g.rules[r].lhs == Curr(g, i)
      ensures Item(r, 0) in other
    {
      assert Item(r, 0) in k;
      assert r != 0;
    }
    assert CoreClosed(g, other);
  }

  // ------------------------------------------------ paths

  /** states is the run of the graph from state 0 over syms. */
  ghost predicate Path(a: Automaton, states: seq<nat>, syms: seq<nat>)
    requires |a.trans| == |a.states|
  {
    && |states| == |syms| + 1
    && states[0] == 0
    && (forall k | 0 <= k < |states| :: states[k] < |a.states|)
    && (forall k | 0 <= k < |syms| :: Link(a, states[k], syms[k], states[k + 1]))
  }

  ghost predicate Link(a: Automaton, s: nat, x: nat, t: nat)
    requires |a.trans| == |a.states|
  {
    s < |a.states| && x in a.trans[s] && a.trans[s][x] == t
  }

  ghost predicate PathTo(a: Automaton, states: seq<nat>, syms: seq<nat>, s: nat)
    requires |a.trans| == |a.states|
  {
    Path(a, states, syms) && states[|syms|] == s
  }

  /** Every state is at the end of some path. */
  ghost predicate AllReached(a: Automaton)
    requires |a.trans| == |a.states|
  {
    forall s: nat | s < |a.states| :: HasPath(a, s)
  }

  ghost predicate HasPath(a: Automaton, s: nat)
    requires |a.trans| == |a.states|
  {
    exists states, syms :: PathTo(a, states, syms, s)
  }

  lemma EdgeTarget(g: Grammar, a: Automaton, s: nat, x: nat)
    requires CoreAutomaton(g, a) && s < |a.states| && x in a.trans[s]
    ensures |a.trans| == |a.states| && a.trans[s][x] < |a.states|
  {
    hide CoreClosure, Bounded, NextSymbols;
    assert Edge(g, a, s, x);
  }

  lemma PathExtend(a: Automaton, states: seq<nat>, syms: seq<nat>, x: nat, t: nat)
    requires |a.trans| == |a.states| && Path(a, states, syms) && Link(a, states[|syms|], x, t) && t < |a.states|
    ensures Path(a, states + [t], syms + [x])
  {
    var st, sy := states + [t], syms + [x];
    forall k | 0 <= k < |sy|
      ensures Link(a, st[k], sy[k], st[k + 1])
    {
      if k < |syms| {
        assert Link(a, states[k], syms[k], states[k + 1]);
      }
    }
  }

  lemma PathEnd(g: Grammar, a: Automaton, states: seq<nat>, syms: seq<nat>)
    requires CoreAutomaton(g, a) && Path(a, states, syms)
    ensures |a.trans| == |a.states| && |states| == |syms| + 1 && states[|syms|] < |a.states|
  {
    hide CoreClosure, Bounded, NextSymbols, Link;
  }

  lemma PathPush(g: Grammar, a: Automaton, states: seq<nat>, syms: seq<nat>, x: nat)
    requires CoreAutomaton(g, a) && Path(a, states, syms) && x in a.trans[states[|syms|]]
    ensures Path(a, states + [a.trans[states[|syms|]][x]], syms + [x])
  {
    hide CoreAutomaton, Path;
    PathEnd(g, a, states, syms);
    EdgeTarget(g, a, states[|syms|], x);
    PathExtend(a, states, syms, x, a.trans[states[|syms|]][x]);
  }

  lemma PathPrefix(a: Automaton, states: seq<nat>, syms: seq<nat>, n: nat)
    requires |a.trans| == |a.states| && Path(a, states, syms) && n <= |syms|
    ensures Path(a, states[..n + 1], syms[..n])
  {
    forall k | 0 <= k < n
      ensures Link(a, states[..n + 1][k], syms[..n][k], states[..n + 1][k + 1])
    {
      assert Link(a, states[k], syms[k], states[k + 1]);
    }
  }

  /** An item past its first symbol comes from the item with the dot one symbol earlier. */
  lemma CoreBack(g: Grammar, k: set<Item>, x: nat, k': set<Item>, it: Item)
    requires CoreClosure(g, AdvanceCore(g, k, x), k') && it in k' && it.dot > 0
    ensures NotFinal(g, Item(it.rule, it.dot - 1)) && Item(it.rule, it.dot - 1) in k
    ensures g.rules[it.rule].rhs[it.dot - 1] == x
  {
    CoreKernelItems(g, AdvanceCore(g, k, x), k', it);
    var i :| i in k && NotFinal(g, i) && Curr(g, i) == x && Item(i.rule, i.dot + 1) == it;
    assert i == Item(it.rule, it.dot - 1);
  }

  lemma LinkBack(g: Grammar, a: Automaton, s: nat, x: nat, t: nat, it: Item)
    requires g.WellFormed() && CoreAutomaton(g, a) && Link(a, s, x, t) && t < |a.states| && it in a.Core(t) && it.dot > 0
    ensures NotFinal(g, Item(it.rule, it.dot - 1)) && Item(it.rule, it.dot - 1) in a.Core(s)
    ensures g.rules[it.rule].rhs[it.dot - 1] == x
  {
    hide CoreClosure;
    assert Edge(g, a, s, x);
    CoreBack(g, a.Core(s), x, a.Core(t), it);
  }

  /** Only the first state has the augment item. */
  lemma LinkNoAugment(g: Grammar, a: Automaton, s: nat, x: nat, t: nat)
    requires g.WellFormed() && CoreAutomaton(g, a) && Link(a, s, x, t) && t < |a.states|
    ensures Item(0, 0) !in a.Core(t)
  {
    hide CoreClosure;
    assert Edge(g, a, s, x);
    CoreNoAugment(g, AdvanceCore(g, a.Core(s), x), a.Core(t));
  }

  lemma StartItems(g: Grammar, a: Automaton, it: Item)
    requires CoreAutomaton(g, a) && it in a.Core(0)
    ensures it.dot == 0
  {
    if it.dot > 0 {
      CoreKernelItems(g, {Item(0, 0)}, a.Core(0), it);
    }
  }

  /** Handle: an item on top of a path has the symbols before its dot on the path, and the state
      below them has the item with the dot in front. */
  lemma {:induction false} Handle(g: Grammar, a: Automaton, states: seq<nat>, syms: seq<nat>, it: Item)
    requires g.WellFormed() && CoreAutomaton(g, a) && Path(a, states, syms) && it in a.Core(states[|syms|])
    ensures InRange(g, it)
    ensures it.dot <= |syms|
    ensures syms[|syms| - it.dot..] == g.rules[it.rule].rhs[..it.dot]
    ensures Item(it.rule, 0) in a.Core(states[|syms| - it.dot])
    decreases it.dot
  {
    hide CoreAutomaton, CoreClosure;
    var n := |syms|;
    ItemInRange(g, a, states[n], it);
    if it.dot > 0 {
      if n == 0 {
        StartItems(g, a, it);
      }
      HandleBack(g, a, states, syms, it);
      var prev := Item(it.rule, it.dot - 1);
      var states', syms' := states[..n], syms[..n - 1];
      assert states'[|syms'|] == states[n - 1];
      Handle(g, a, states', syms', prev);
      assert states'[|syms'| - prev.dot] == states[n - it.dot];
      HandleSlice(syms, g.rules[it.rule].rhs, it.dot);
    }
  }

  lemma ItemInRange(g: Grammar, a: Automaton, s: nat, it: Item)
    requires CoreAutomaton(g, a) && s < |a.states| && it in a.Core(s)
    ensures InRange(g, it)
  {
    assert Bounded(g, a.states[s]);
  }

  lemma HandleBack(g: Grammar, a: Automaton, states: seq<nat>, syms: seq<nat>, it: Item)
    requires g.WellFormed() && CoreAutomaton(g, a) && Path(a, states, syms) && it in a.Core(states[|syms|])
    requires it.dot > 0 && |syms| > 0
    ensures Path(a, states[..|syms|], syms[..|syms| - 1])
    ensures Item(it.rule, it.dot - 1) in a.Core(states[|syms| - 1])
    ensures NotFinal(g, Item(it.rule, it.dot - 1)) && g.rules[it.rule].rhs[it.dot - 1] == syms[|syms| - 1]
  {
    hide CoreClosure;
    var n := |syms|;
    assert Link(a, states[n - 1], syms[n - 1], states[n]);
    LinkBack(g, a, states[n - 1], syms[n - 1], states[n], it);
    PathPrefix(a, states, syms, n - 1);
  }

  lemma HandleSlice(syms: seq<nat>, rhs: seq<nat>, d: nat)
    requires 0 < d <= |rhs| && d <= |syms| && syms[|syms| - 1] == rhs[d - 1]
    requires syms[..|syms| - 1][|syms| - d..] == rhs[..d - 1]
    ensures syms[|syms| - d..] == rhs[..d]
  {
    assert syms[|syms| - d..] == syms[..|syms| - 1][|syms| - d..] + [syms[|syms| - 1]];
  }

  /** The final augment item is reached by the start symbol alone. */
  lemma AcceptPath(g: Grammar, a: Automaton, states: seq<nat>, syms: seq<nat>)
    requires g.WellFormed() && CoreAutomaton(g, a) && Path(a, states, syms) && Item(0, 1) in a.Core(states[|syms|])
    ensures syms == [g.Start()]
  {
    Handle(g, a, states, syms, Item(0, 1));
    var n := |syms|;
    if n > 1 {
      assert Link(a, states[n - 2], syms[n - 2], states[n - 1]);
      LinkNoAugment(g, a, states[n - 2], syms[n - 2], states[n - 1]);
    }
    assert syms == syms[n - 1..];
  }

  // ------------------------------------------------ viable prefixes

  /** The item is valid for the prefix: some sentential form of the start symbol (or the augment
      rule itself) has the item's left side right where the prefix puts its right-hand side. */
  ghost predicate ValidItem(g: Grammar, syms: seq<nat>, it: Item)
    requires g.WellFormed()
  {
    && InRange(g, it)
    && it.dot <= |syms|
    && syms[|syms| - it.dot..] == g.rules[it.rule].rhs[..it.dot]
    && (if it.rule == 0 then |syms| == it.dot else Sentential(g, syms[..|syms| - it.dot], Lhs(g, it)))
  }

  /** Some sentential form of the start symbol begins with before and then x. */
  ghost predicate Sentential(g: Grammar, before: seq<nat>, x: nat)
    requires g.WellFormed()
  {
    exists rest: seq<nat> :: DerivesStar(g, [g.Start()], before + [x] + rest)
  }

  lemma SententialRule(g: Grammar, before: seq<nat>, r: nat) returns (rest: seq<nat>)
    requires g.WellFormed() && g.IsRule(r) && Sentential(g, before, g.rules[r].lhs)
    ensures DerivesStar(g, [g.Start()], before + g.rules[r].rhs + rest)
  {
    rest :| DerivesStar(g, [g.Start()], before + [g.rules[r].lhs] + rest);
    StarRule(g, r);
    StarContext(g, before, [g.rules[r].lhs], g.rules[r].rhs, rest);
    StarTrans(g, [g.Start()], before + [g.rules[r].lhs] + rest, before + g.rules[r].rhs + rest);
  }

  lemma ItemSlice(syms: seq<nat>, before: seq<nat>, rhs: seq<nat>, d: nat, rest: seq<nat>)
    requires d < |rhs| && syms == before + rhs[..d]
    ensures before + rhs + rest == syms + [rhs[d]] + (rhs[d + 1..] + rest)
  {
    assert rhs == rhs[..d] + [rhs[d]] + rhs[d + 1..];
  }

  lemma ValidClosed(g: Grammar, syms: seq<nat>, it: Item, r: nat)
    requires g.WellFormed() && ValidItem(g, syms, it) && AtNonterminal(g, it)
    requires r < |g.rules| && g.rules[r].lhs == Curr(g, it)
    ensures ValidItem(g, syms, Item(r, 0))
  {
    hide DerivesStar;
    var rhs := g.rules[it.rule].rhs;
    var before := syms[..|syms| - it.dot];
    assert syms == before + rhs[..it.dot];
    var b := Curr(g, it);
    assert r > 0;
    if it.rule == 0 {
      assert before == [] && rhs == [g.Start()] && it.dot == 0 && syms == [];
      StarRefl(g, [g.Start()]);
      assert syms + [b] + [] == [g.Start()];
    } else {
      var rest := SententialRule(g, before, it.rule);
      ItemSlice(syms, before, rhs, it.dot, rest);
    }
    assert Sentential(g, syms, b);
    assert syms[..|syms|] == syms;
  }

  lemma ValidAdvance(g: Grammar, syms: seq<nat>, it: Item, x: nat)
    requires g.WellFormed() && ValidItem(g, syms, it) && NotFinal(g, it) && Curr(g, it) == x
    ensures ValidItem(g, syms + [x], Item(it.rule, it.dot + 1))
  {
    var longer := syms + [x];
    assert longer[|longer| - it.dot - 1..] == syms[|syms| - it.dot..] + [x];
    assert longer[..|longer| - it.dot - 1] == syms[..|syms| - it.dot];
  }

  /** Every item of every state is valid for every prefix that leads to the state. */
  lemma {:induction false} PathItemsValid(g: Grammar, a: Automaton, states: seq<nat>, syms: seq<nat>)
    requires g.WellFormed() && CoreAutomaton(g, a) && Path(a, states, syms)
    ensures forall it | it in a.Core(states[|syms|]) :: ValidItem(g, syms, it)
    decreases |syms|
  {
    var n := |syms|;
    if n == 0 {
      assert ValidItem(g, syms, Item(0, 0));
      ValidLeast(g, syms, {Item(0, 0)}, a.Core(0));
    } else {
      PathPrefix(a, states, syms, n - 1);
      PathItemsValid(g, a, states[..n], syms[..n - 1]);
      assert syms == syms[..n - 1] + [syms[n - 1]];
      assert Link(a, states[n - 1], syms[n - 1], states[n]);
      assert Edge(g, a, states[n - 1], syms[n - 1]);
      var kernel := AdvanceCore(g, a.Core(states[n - 1]), syms[n - 1]);
      forall it | it in kernel
        ensures ValidItem(g, syms, it)
      {
        var i :| i in a.Core(states[n - 1]) && NotFinal(g, i) && Curr(g, i) == syms[n - 1] && Item(i.rule, i.dot + 1) == it;
        ValidAdvance(g, syms[..n - 1], i, syms[n - 1]);
      }
      ValidLeast(g, syms, kernel, a.Core(states[n]));
    }
  }

  lemma ValidLeast(g: Grammar, syms: seq<nat>, kernel: set<Item>, k: set<Item>)
    requires g.WellFormed() && CoreClosure(g, kernel, k)
    requires forall it | it in kernel :: ValidItem(g, syms, it)
    ensures forall it | it in k :: ValidItem(g, syms, it)
  {
    var other := set it | it in k && ValidItem(g, syms, it);
    forall it, r: nat | it in other && AtNonterminal(g, it) && r < |g.rules| && g.rules[r].lhs == Curr(g, it)
      ensures Item(r, 0) in other
    {
      ValidClosed(g, syms, it, r);
    }
    assert CoreClosed(g, other);
  }

  /** Viable prefix: what a path spells begins a sentential form of the start symbol. */
  lemma ViablePrefix(g: Grammar, a: Automaton, states: seq<nat>, syms: seq<nat>)
    requires g.WellFormed() && CoreAutomaton(g, a) && Path(a, states, syms)
    ensures exists rest: seq<nat> :: DerivesStar(g, [g.Start()], syms + rest)
  {
    PathItemsValid(g, a, states, syms);
    var it := NonEmptyState(g, a, states, syms);
    ValidViable(g, syms, it);
  }

  lemma ValidViable(g: Grammar, syms: seq<nat>, it: Item)
    requires g.WellFormed() && ValidItem(g, syms, it)
    ensures exists rest: seq<nat> :: DerivesStar(g, [g.Start()], syms + rest)
  {
    var rhs := g.rules[it.rule].rhs;
    var before := syms[..|syms| - it.dot];
    assert syms == before + rhs[..it.dot];
    assert rhs == rhs[..it.dot] + rhs[it.dot..];
    if it.rule == 0 {
      StarRefl(g, [g.Start()]);
      assert syms + rhs[it.dot..] == [g.Start()];
    } else {
      var rest := SententialRule(g, before, it.rule);
      assert before + rhs + rest == syms + (rhs[it.dot..] + rest);
    }
  }

  lemma NonEmptyState(g: Grammar, a: Automaton, states: seq<nat>, syms: seq<nat>) returns (it: Item)
    requires g.WellFormed() && CoreAutomaton(g, a) && Path(a, states, syms)
    ensures it in a.Core(states[|syms|])
  {
    var n := |syms|;
    if n == 0 {
      it := Item(0, 0);
    } else {
      assert Link(a, states[n - 1], syms[n - 1], states[n]);
      assert Edge(g, a, states[n - 1], syms[n - 1]);
      assert syms[n - 1] in NextSymbols(g, a.Core(states[n - 1]));
      var i :| i in a.Core(states[n - 1]) && NotFinal(g, i) && Curr(g, i) == syms[n - 1];
      it := Item(i.rule, i.dot + 1);
      assert it in AdvanceCore(g, a.Core(states[n - 1]), syms[n - 1]);
    }
  }
}
