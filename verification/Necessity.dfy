/** When the driver rebuilds every parse tree: exactly when the table serves lookaheads that flow over
    first sets satisfying the rules. */
module Necessity {
  import opened Grammars
  import opened Closures
  import opened FirstProofs
  import opened Automata
  import opened Tables
  import opened Machines
  import opened Parsing

  /** Some tree stands over every nonterminal. */
  ghost predicate Productive(g: Grammar) {
    forall x: nat | g.actionN <= x < g.tokenN :: HasTree(g, x)
  }

  ghost predicate HasTree(g: Grammar, x: nat) {
    exists tree :: Valid(g, tree) && Root(g, tree) == x
  }

  /** Every symbol may stand in a right-hand side. */
  predicate AreSymbols(g: Grammar, s: seq<nat>) {
    forall i | 0 <= i < |s| :: 0 < s[i] < g.tokenN
  }

  lemma AnyTree(g: Grammar, x: nat, v: Value) returns (tree: Tree)
    requires Productive(g) && 0 < x < g.tokenN
    ensures Valid(g, tree) && Root(g, tree) == x
  {
    if g.IsAction(x) {
      tree := Leaf(x, v);
    } else {
      assert HasTree(g, x);
      tree :| Valid(g, tree) && Root(g, tree) == x;
    }
  }

  lemma {:induction false} AnyForest(g: Grammar, s: seq<nat>, v: Value) returns (ts: seq<Tree>)
    requires Productive(g) && AreSymbols(g, s)
    ensures ValidForest(g, ts) && Roots(g, ts) == s
  {
    ts := [];
    if s != [] {
      var n := |s| - 1;
      var us := AnyForest(g, s[..n], v);
      var t := AnyTree(g, s[n], v);
      ts := us + [t];
      assert s == s[..n] + [s[n]];
    }
  }

  lemma RuleSymbols(g: Grammar, r: nat, k: nat)
    requires g.WellFormed() && r < |g.rules| && k <= |g.rules[r].rhs|
    ensures AreSymbols(g, g.rules[r].rhs[k..])
  {
  }

  // ------------------------------------------------ first sets read off the trees

  /** Some tree over x begins with the token a. */
  ghost predicate TreeBegins(g: Grammar, x: nat, a: nat) {
    exists tree :: Valid(g, tree) && Root(g, tree) == x && Leads(Yield(tree), a)
  }

  predicate Leads(w: seq<Lexeme>, a: nat) {
    w != [] && w[0].tok == a
  }

  ghost predicate TreeEmpty(g: Grammar, x: nat) {
    exists tree :: Valid(g, tree) && Root(g, tree) == x && Yield(tree) == []
  }

  ghost function TreeFirst(g: Grammar): FirstInfo {
    FirstInfo(map x: nat | x in Range(g.actionN, g.tokenN) :: set a: nat | a in Actions(g) && TreeBegins(g, x, a),
              set x: nat | x in Range(g.actionN, g.tokenN) && TreeEmpty(g, x))
  }

  lemma TreeFirstAt(g: Grammar, x: nat)
    ensures x in TreeFirst(g).empty <==> g.actionN <= x < g.tokenN && TreeEmpty(g, x)
    ensures forall a: nat :: a in TreeFirst(g).First(x) <==> g.actionN <= x < g.tokenN && a < g.actionN && TreeBegins(g, x, a)
  {
    hide TreeBegins, TreeEmpty;
  }

  /** What a forest begins with, when something follows it. */
  predicate LeadsOr(w: seq<Lexeme>, a: nat, la: set<nat>) {
    if w == [] then a in la else w[0].tok == a
  }

  /** Every computed first token of a suffix is one of some forest over it. */
  lemma {:induction false} Ahead(g: Grammar, s: seq<nat>, j: nat, la: set<nat>, a: nat, v: Value) returns (ts: seq<Tree>)
    requires Productive(g) && AreSymbols(g, s) && j <= |s| && a in NextLookaheads(g, TreeFirst(g), s, j, la)
    ensures ValidForest(g, ts) && Roots(g, ts) == s[j..] && LeadsOr(Yields(ts), a, la)
    decreases |s| - j
  {
    hide TreeFirst, Productive, Valid;
    ts := [];
    if j < |s| {
      var x := s[j];
      TreeFirstAt(g, x);
      var t, us;
      if g.IsAction(x) || a in TreeFirst(g).First(x) {
        t := FirstTree(g, x, a, v);
        us := AnyForest(g, s[j + 1..], v);
      } else {
        t :| Valid(g, t) && Root(g, t) == x && Yield(t) == [];
        us := Ahead(g, s, j + 1, la, a, v);
      }
      ts := [t] + us;
      assert s[j..] == [x] + s[j + 1..];
      RootsAppend(g, [t], us);
      YieldsAppend([t], us);
      YieldsOne(t);
    }
  }

  lemma FirstTree(g: Grammar, x: nat, a: nat, v: Value) returns (t: Tree)
    requires 0 < x < g.tokenN && (if g.IsAction(x) then a == x else TreeBegins(g, x, a))
    ensures Valid(g, t) && Root(g, t) == x && Leads(Yield(t), a)
  {
    if g.IsAction(x) {
      t := Leaf(x, v);
    } else {
      t :| Valid(g, t) && Root(g, t) == x && Leads(Yield(t), a);
    }
  }

  lemma {:induction false} EmptyForest(g: Grammar, s: seq<nat>) returns (ts: seq<Tree>)
    requires AllEmpty(TreeFirst(g), s)
    ensures ValidForest(g, ts) && Roots(g, ts) == s && Yields(ts) == []
  {
    hide TreeFirst, Valid;
    ts := [];
    if s != [] {
      var n := |s| - 1;
      var us := EmptyForest(g, s[..n]);
      TreeFirstAt(g, s[n]);
      var t :| Valid(g, t) && Root(g, t) == s[n] && Yield(t) == [];
      ts := us + [t];
      assert s == s[..n] + [s[n]];
      YieldsPush(us, t);
    }
  }

  /** These first sets satisfy every rule's equation. */
  lemma TreeFirstClosed(g: Grammar, v: Value)
    requires g.WellFormed() && Productive(g)
    ensures FirstClosed(g, TreeFirst(g))
  {
    hide TreeFirst, NextLookaheads, Productive;
    forall r | 0 < r < |g.rules|
      ensures RuleClosed(g, TreeFirst(g), r)
    {
      var rule := g.rules[r];
      TreeFirstAt(g, rule.lhs);
      RuleSymbols(g, r, 0);
      assert rule.rhs[0..] == rule.rhs;
      forall a | a in NextLookaheads(g, TreeFirst(g), rule.rhs, 0, {})
        ensures a in TreeFirst(g).First(rule.lhs)
      {
        var ts := Ahead(g, rule.rhs, 0, {}, a, v);
        NodeBegins(g, r, ts, a);
      }
      if AllEmpty(TreeFirst(g), rule.rhs) {
        var ts := EmptyForest(g, rule.rhs);
        NodeEmpty(g, r, ts);
      }
    }
    forall x | x in TreeFirst(g).empty
      ensures !g.IsAction(x)
    {
      TreeFirstAt(g, x);
    }
  }

  lemma NodeBegins(g: Grammar, r: nat, ts: seq<Tree>, a: nat)
    requires g.WellFormed() && g.IsRule(r) && ValidForest(g, ts) && Roots(g, ts) == g.rules[r].rhs && Leads(Yields(ts), a)
    ensures a < g.actionN && TreeBegins(g, g.rules[r].lhs, a)
  {
    YieldIsTerminal(g, ts);
    var node := Node(r, ts);
    assert Valid(g, node) && Root(g, node) == g.rules[r].lhs && Yield(node) == Yields(ts);
  }

  lemma NodeEmpty(g: Grammar, r: nat, ts: seq<Tree>)
    requires g.WellFormed() && g.IsRule(r) && ValidForest(g, ts) && Roots(g, ts) == g.rules[r].rhs && Yields(ts) == []
    ensures TreeEmpty(g, g.rules[r].lhs)
  {
    var node := Node(r, ts);
    assert Valid(g, node) && Root(g, node) == g.rules[r].lhs && Yield(node) == Yields(ts);
  }

  // ------------------------------------------------ undoing the driver's turns

  /** The forest before the turn that left this one. */
  function Before(forest: seq<Tree>): seq<Tree> {
    if forest == [] then []
    else match forest[|forest| - 1]
      case Leaf(_, _) => forest[..|forest| - 1]
      case Node(_, kids) => forest[..|forest| - 1] + kids
  }

  function Unwound(forest: seq<Tree>, k: nat): seq<Tree>
    decreases k
  {
    if k == 0 then forest else Unwound(Before(forest), k - 1)
  }

  lemma {:induction false} UnwoundAdd(forest: seq<Tree>, k: nat, m: nat)
    ensures Unwound(forest, k + m) == Unwound(Unwound(forest, k), m)
    decreases k
  {
    hide Before;
    if k > 0 {
      UnwoundAdd(Before(forest), k - 1, m);
    }
  }

  lemma {:induction false} UnwoundNothing(k: nat)
    ensures Unwound([], k) == []
  {
    if k > 0 {
      UnwoundNothing(k - 1);
    }
  }

  /** The forest is left on the way to the tree. */
  ghost predicate OnTheWay(tree: Tree, forest: seq<Tree>) {
    exists k: nat :: Unwound([tree], k) == forest
  }

  lemma WayBack(tree: Tree, forest: seq<Tree>, k: nat)
    requires OnTheWay(tree, forest)
    ensures OnTheWay(tree, Unwound(forest, k))
  {
    var m: nat :| Unwound([tree], m) == forest;
    UnwoundAdd([tree], m, k);
  }

  lemma BeforeNode(below: seq<Tree>, r: nat, kids: seq<Tree>)
    ensures Before(below + [Node(r, kids)]) == below + kids
  {
    assert (below + [Node(r, kids)])[..|below|] == below;
  }

  lemma BeforeLeaf(below: seq<Tree>, tok: nat, val: Value)
    ensures Before(below + [Leaf(tok, val)]) == below
  {
    assert (below + [Leaf(tok, val)])[..|below|] == below;
  }

  lemma UnwoundLeaf(below: seq<Tree>, tok: nat, val: Value, k: nat)
    ensures Unwound(below + [Leaf(tok, val)], k + 1) == Unwound(below, k)
  {
    hide Before;
    BeforeLeaf(below, tok, val);
  }

  lemma UnwoundNode(below: seq<Tree>, r: nat, kids: seq<Tree>, k: nat)
    ensures Unwound(below + [Node(r, kids)], k + 1) == Unwound(below + kids, k)
  {
    hide Before;
    BeforeNode(below, r, kids);
  }

  /** Before the first tree after it, a stack was as it stands below. */
  lemma {:induction false} Unwinding(below: seq<Tree>, ts: seq<Tree>)
    ensures Unwound(below + ts, Sizes(ts)) == below
    decreases ts
  {
    hide Unwound;
    if ts == [] {
      assert below + ts == below;
      UnwoundNone(below);
    } else {
      var n := |ts| - 1;
      var us := ts[..n];
      assert below + ts == below + us + [ts[n]];
      Unwinding(below, us);
      match ts[n]
      case Leaf(tok, val) =>
        UnwoundLeaf(below + us, tok, val, Sizes(us));
      case Node(r, kids) =>
        Unwinding(below + us, kids);
        UnwoundNode(below + us, r, kids, Sizes(kids) + Sizes(us));
        UnwoundAdd(below + us + kids, Sizes(kids), Sizes(us));
    }
  }

  lemma UnwoundNone(forest: seq<Tree>)
    ensures Unwound(forest, 0) == forest
  {
  }

  lemma ReducedBefore(g: Grammar, t: seq<nat>, c: Config, r: nat)
    requires Reduced(g, t, c, r).Running?
    ensures Before(Reduced(g, t, c, r).c.forest) == c.forest
  {
    hide Goto, Before;
    var n := |g.rules[r].rhs|;
    BeforeNode(c.forest[..|c.forest| - n], r, c.forest[|c.forest| - n..]);
    assert c.forest == c.forest[..|c.forest| - n] + c.forest[|c.forest| - n..];
  }

  lemma StepBefore(g: Grammar, t: seq<nat>, input: seq<Lexeme>, c: Config)
    requires Step(g, t, input, c).Running?
    ensures Before(Step(g, t, input, c).c.forest) == c.forest
  {
    hide Cell, Reduced, Before;
    var la := input[c.pos];
    match Cell(g, t, c.states[|c.states| - 1], la.tok)
    case Shift(s) => BeforeLeaf(c.forest, la.tok, la.val);
    case Reduce(r) => ReducedBefore(g, t, c, r);
    case _ =>
  }

  /** The forests of a run, backwards. */
  lemma {:induction false} RunUnwinds(g: Grammar, t: seq<nat>, input: seq<Lexeme>, n: nat, k: nat)
    requires Run(g, t, input, n).Running? && k <= n
    ensures Run(g, t, input, n - k).Running?
    ensures Run(g, t, input, n - k).c.forest == Unwound(Run(g, t, input, n).c.forest, k)
    decreases k
  {
    hide Run, Step;
    if k > 0 {
      RunUnwinds(g, t, input, n, k - 1);
      UnwoundAdd(Run(g, t, input, n).c.forest, k - 1, 1);
      RunOneMore(g, t, input, n - k);
      LastUnwound(Run(g, t, input, n - k + 1).c.forest);
      var o := Run(g, t, input, n - k);
      if o.Running? {
        StepBefore(g, t, input, o.c);
      }
    }
  }

  lemma LastUnwound(forest: seq<Tree>)
    ensures Unwound(forest, 1) == Before(forest)
  {
    assert Unwound(Before(forest), 0) == Before(forest);
  }

  /** A run that ends with a tree has made the turn to every forest on the way. */
  lemma RunVisits(g: Grammar, t: seq<nat>, input: seq<Lexeme>, n: nat, tree: Tree, forest: seq<Tree>) returns (m: nat)
    requires Run(g, t, input, n).Running? && Run(g, t, input, n).c.forest == [tree]
    requires OnTheWay(tree, forest) && forest != []
    ensures Run(g, t, input, m).Running? && Run(g, t, input, m).c.forest == Before(forest)
    ensures Step(g, t, input, Run(g, t, input, m).c).Running?
    ensures Step(g, t, input, Run(g, t, input, m).c).c.forest == forest
  {
    hide Run, Step;
    var k: nat :| Unwound([tree], k) == forest;
    RunFromStart(g, t, input);
    RunUnwinds(g, t, input, n, n);
    if k >= n {
      UnwoundAdd([tree], n, k - n);
      UnwoundNothing(k - n);
      assert false;
    }
    m := n - k - 1;
    RunUnwinds(g, t, input, n, k);
    RunUnwinds(g, t, input, n, k + 1);
    UnwoundAdd([tree], k, 1);
    LastUnwound(forest);
    RunOneMore(g, t, input, m);
  }

  lemma RunFromStart(g: Grammar, t: seq<nat>, input: seq<Lexeme>)
    ensures Run(g, t, input, 0) == Running(Start())
  {
  }

  /** An accepting run stood before its last turn with the tree on the stack. */
  lemma {:induction false} LastRunning(g: Grammar, t: seq<nat>, input: seq<Lexeme>, n: nat) returns (m: nat)
    requires Run(g, t, input, n).Accepted?
    ensures Run(g, t, input, m) == Running(Run(g, t, input, n).c)
    ensures Step(g, t, input, Run(g, t, input, n).c).Accepted?
    decreases n
  {
    hide Run, Step;
    RunFromStart(g, t, input);
    assert n > 0;
    RunOneMore(g, t, input, n - 1);
    var o := Run(g, t, input, n - 1);
    if o.Running? {
      m := n - 1;
      AcceptedHere(g, t, input, o.c);
    } else {
      m := LastRunning(g, t, input, n - 1);
    }
  }

  // ------------------------------------------------ lookaheads that some sentence shows

  /** After the prefix syms the item can stand with x behind its rule: found in n steps of expanding
      the symbol after a dot, or of moving a dot over a symbol. */
  ghost predicate Stands(g: Grammar, syms: seq<nat>, it: Item, x: nat, n: nat)
    decreases n
  {
    if n == 0 then syms == [] && it == Item(0, 0) && x == 0
    else if it.dot == 0 then exists from: Item, y: nat :: Stands(g, syms, from, y, n - 1) && Behind(g, from, y, it.rule, x)
    else syms != [] && Stands(g, syms[..|syms| - 1], Item(it.rule, it.dot - 1), x, n - 1)
         && NotFinal(g, Item(it.rule, it.dot - 1)) && Curr(g, Item(it.rule, it.dot - 1)) == syms[|syms| - 1]
  }

  /** Rule r expands the symbol after the dot, and x can follow that symbol. */
  ghost predicate Behind(g: Grammar, from: Item, y: nat, r: nat, x: nat) {
    && AtNonterminal(g, from)
    && IsProduction(g, Curr(g, from), r)
    && x in NextLookaheads(g, TreeFirst(g), g.rules[from.rule].rhs, from.dot + 1, {y})
  }

  /** The trees left of the dot with those right of it, and the node they become. */
  function Gathered(left: seq<Tree>, rest: seq<Tree>, it: Item): seq<Tree>
    requires it.dot <= |left|
  {
    left[..|left| - it.dot] + [Node(it.rule, left[|left| - it.dot..] + rest)]
  }

  /** A sentence whose tree shows the item with its lookahead. */
  ghost predicate Shows(g: Grammar, syms: seq<nat>, it: Item, x: nat, rest: seq<Tree>, left: seq<Tree>, tree: Tree, input: seq<Lexeme>)
    requires g.WellFormed()
  {
    && ParseOf(g, input, tree) && IsInput(g, input)
    && ValidForest(g, left) && Roots(g, left) == syms && it.dot <= |left|
    && (if it.rule == 0 then left + rest == [tree] else OnTheWay(tree, Gathered(left, rest, it)))
    && OnTheWay(tree, left + rest)
    && Precedes(input, left + rest, x)
  }

  predicate Precedes(input: seq<Lexeme>, forest: seq<Tree>, x: nat) {
    var n := |Yields(forest)|;
    n < |input| && input[..n] == Yields(forest) && input[n].tok == x
  }

  /** Whatever trees stand left of the dot and complete the rule, there is such a sentence. */
  lemma {:induction false} Sentence(g: Grammar, syms: seq<nat>, it: Item, x: nat, n: nat, left: seq<Tree>, rest: seq<Tree>, v: Value)
    returns (tree: Tree, input: seq<Lexeme>)
    requires g.WellFormed() && Productive(g) && Stands(g, syms, it, x, n) && InRange(g, it)
    requires ValidForest(g, left) && Roots(g, left) == syms
    requires ValidForest(g, rest) && Roots(g, rest) == g.rules[it.rule].rhs[it.dot..]
    ensures Shows(g, syms, it, x, rest, left, tree, input)
    decreases n
  {
    hide Productive, Shows, Behind, AreSymbols, Valid, ValidForest, Gathered;
    if n == 0 {
      assert |left| == |Roots(g, left)|;
      tree, input := StartSentence(g, rest, v);
    } else if it.dot == 0 {
      var from, y := StandsFrom(g, syms, it, x, n);
      var after := ExpandedRest(g, from, y, it.rule, x, rest, v);
      tree, input := Sentence(g, syms, from, y, n - 1, left, [Node(it.rule, rest)] + after, v);
      ShowsExpanded(g, syms, from, y, it, x, rest, after, left, tree, input);
    } else {
      var from, last := Item(it.rule, it.dot - 1), |syms| - 1;
      SplitLast(g, left);
      MovedRest(g, it, left[last], rest);
      tree, input := Sentence(g, syms[..last], from, x, n - 1, left[..last], [left[last]] + rest, v);
      ShowsMoved(g, syms, it, x, left[last], rest, left[..last], tree, input);
      assert left[..last] + [left[last]] == left;
    }
  }

  lemma StandsFrom(g: Grammar, syms: seq<nat>, it: Item, x: nat, n: nat) returns (from: Item, y: nat)
    requires g.WellFormed() && Stands(g, syms, it, x, n) && n > 0 && it.dot == 0
    ensures Stands(g, syms, from, y, n - 1) && Behind(g, from, y, it.rule, x) && AreSymbols(g, g.rules[from.rule].rhs)
    ensures g.IsRule(it.rule)
  {
    hide TreeFirst, NextLookaheads;
    from, y :| Stands(g, syms, from, y, n - 1) && Behind(g, from, y, it.rule, x);
    RuleSymbols(g, from.rule, 0);
    assert g.rules[from.rule].rhs[0..] == g.rules[from.rule].rhs;
  }

  lemma SplitLast(g: Grammar, ts: seq<Tree>)
    requires ValidForest(g, ts) && Roots(g, ts) != []
    ensures var n := |Roots(g, ts)| - 1;
            && |ts| == n + 1
            && ValidForest(g, ts[..n]) && Roots(g, ts[..n]) == Roots(g, ts)[..n]
            && Valid(g, ts[n]) && Root(g, ts[n]) == Roots(g, ts)[n]
  {
  }

  lemma StartSentence(g: Grammar, rest: seq<Tree>, v: Value) returns (tree: Tree, input: seq<Lexeme>)
    requires g.WellFormed() && ValidForest(g, rest) && Roots(g, rest) == g.rules[0].rhs[0..]
    ensures Shows(g, [], Item(0, 0), 0, rest, [], tree, input)
  {
    assert |rest| == |Roots(g, rest)| == 1;
    tree := rest[0];
    input := Yield(tree) + [Lexeme(0, v)];
    assert Roots(g, rest)[0] == Root(g, tree) && rest == [tree] == [] + rest;
    YieldsOne(tree);
    YieldIsTerminal(g, [tree]);
    assert input[..|Yield(tree)|] == Yield(tree);
    assert Unwound([tree], 0) == [] + rest;
    assert Roots(g, []) == [];
  }

  /** The node for a rule, and trees for what follows it that begin with x. */
  lemma ExpandedRest(g: Grammar, from: Item, y: nat, r: nat, x: nat, rest: seq<Tree>, v: Value) returns (after: seq<Tree>)
    requires g.WellFormed() && Productive(g) && Behind(g, from, y, r, x) && g.IsRule(r) && AreSymbols(g, g.rules[from.rule].rhs)
    requires ValidForest(g, rest) && Roots(g, rest) == g.rules[r].rhs[0..]
    ensures InRange(g, from) && LeadsOr(Yields(after), x, {y})
    ensures ValidForest(g, [Node(r, rest)] + after) && Roots(g, [Node(r, rest)] + after) == g.rules[from.rule].rhs[from.dot..]
  {
    hide Productive, TreeFirst, NextLookaheads, Yields;
    after := Ahead(g, g.rules[from.rule].rhs, from.dot + 1, {y}, x, v);
    assert g.rules[r].rhs[0..] == g.rules[r].rhs;
    var node := Node(r, rest);
    assert Valid(g, node);
    RootsAppend(g, [node], after);
    assert Roots(g, [node]) == [Curr(g, from)];
  }

  lemma MovedRest(g: Grammar, it: Item, p: Tree, rest: seq<Tree>)
    requires InRange(g, it) && it.dot > 0 && Valid(g, p) && Root(g, p) == g.rules[it.rule].rhs[it.dot - 1]
    requires ValidForest(g, rest) && Roots(g, rest) == g.rules[it.rule].rhs[it.dot..]
    ensures ValidForest(g, [p] + rest) && Roots(g, [p] + rest) == g.rules[it.rule].rhs[it.dot - 1..]
  {
    RootsAppend(g, [p], rest);
  }

  lemma ShowsExpanded(g: Grammar, syms: seq<nat>, from: Item, y: nat, it: Item, x: nat, rest: seq<Tree>, after: seq<Tree>,
                      left: seq<Tree>, tree: Tree, input: seq<Lexeme>)
    requires g.WellFormed() && it.dot == 0 && g.IsRule(it.rule)
    requires LeadsOr(Yields(after), x, {y})
    requires Shows(g, syms, from, y, [Node(it.rule, rest)] + after, left, tree, input)
    ensures Shows(g, syms, it, x, rest, left, tree, input)
  {
    hide Unwound, Yields, ParseOf, IsInput, ValidForest;
    var node := Node(it.rule, rest);
    assert left + ([node] + after) == left + [node] + after;
    Unwinding(left + [node], after);
    WayBack(tree, left + [node] + after, Sizes(after));
    assert left[..|left| - 0] == left && left[|left| - 0..] + rest == rest;
    assert Gathered(left, rest, it) == left + [node];
    BeforeNode(left, it.rule, rest);
    LastUnwound(left + [node]);
    WayBack(tree, left + [node], 1);
    YieldsAppend(left, rest);
    YieldsPush(left, node);
    YieldsOne(node);
    assert Yield(node) == Yields(rest);
    YieldsAppend(left + [node], after);
    FirstBehind(input, Yields(left + rest), Yields(after), x, y);
  }

  lemma FirstBehind(input: seq<Lexeme>, w: seq<Lexeme>, after: seq<Lexeme>, x: nat, y: nat)
    requires |w + after| < |input| && input[..|w + after|] == w + after && input[|w + after|].tok == y
    requires LeadsOr(after, x, {y})
    ensures |w| < |input| && input[..|w|] == w && input[|w|].tok == x
  {
    assert input[..|w|] == input[..|w + after|][..|w|];
    if after != [] {
      assert input[|w|] == input[..|w + after|][|w|] == after[0];
    } else {
      assert w + after == w;
    }
  }

  lemma ShowsMoved(g: Grammar, syms: seq<nat>, it: Item, x: nat, p: Tree, rest: seq<Tree>, left: seq<Tree>, tree: Tree, input: seq<Lexeme>)
    requires g.WellFormed() && it.dot > 0 && syms != [] && Valid(g, p) && Root(g, p) == syms[|syms| - 1]
    requires Shows(g, syms[..|syms| - 1], Item(it.rule, it.dot - 1), x, [p] + rest, left, tree, input)
    ensures Shows(g, syms, it, x, rest, left + [p], tree, input)
  {
    hide OnTheWay, Precedes, ParseOf, IsInput, Valid, ValidForest, Roots;
    MovedSlices(left, p, rest, it.dot);
    MovedRoots(g, syms, left, p);
  }

  lemma MovedSlices(left: seq<Tree>, p: Tree, rest: seq<Tree>, d: nat)
    requires 0 < d && d - 1 <= |left|
    ensures var more := left + [p];
            && more + rest == left + ([p] + rest)
            && more[..|more| - d] == left[..|left| - (d - 1)]
            && more[|more| - d..] + rest == left[|left| - (d - 1)..] + ([p] + rest)
  {
  }

  lemma MovedRoots(g: Grammar, syms: seq<nat>, left: seq<Tree>, p: Tree)
    requires syms != [] && Roots(g, left) == syms[..|syms| - 1] && Root(g, p) == syms[|syms| - 1]
    requires ValidForest(g, left) && Valid(g, p)
    ensures Roots(g, left + [p]) == syms && ValidForest(g, left + [p])
  {
    RootsAppend(g, left, [p]);
    assert Roots(g, [p]) == [syms[|syms| - 1]];
  }

  // ------------------------------------------------ what the sentences show of the table

  /** Every parse tree of every input is the one the driver builds. */
  ghost predicate RebuildsTrees(g: Grammar, t: seq<nat>)
    requires g.WellFormed()
  {
    forall input, tree | IsInput(g, input) && ParseOf(g, input, tree) :: Rebuilds(g, t, input, tree)
  }

  ghost predicate Rebuilds(g: Grammar, t: seq<nat>, input: seq<Lexeme>, tree: Tree) {
    exists n: nat :: Run(g, t, input, n).Accepted? && Run(g, t, input, n).c.forest == [tree]
  }

  lemma {:induction false} PathUnique(a: Automaton, s1: seq<nat>, s2: seq<nat>, syms: seq<nat>)
    requires |a.trans| == |a.states| && Path(a, s1, syms) && Path(a, s2, syms)
    ensures s1[|syms|] == s2[|syms|]
    decreases |syms|
  {
    var n := |syms|;
    if n > 0 {
      PathPrefix(a, s1, syms, n - 1);
      PathPrefix(a, s2, syms, n - 1);
      PathUnique(a, s1[..n], s2[..n], syms[..n - 1]);
      assert Link(a, s1[n - 1], syms[n - 1], s1[n]) && Link(a, s2[n - 1], syms[n - 1], s2[n]);
    }
  }

  /** The configuration of a run over a given stack. */
  lemma StackTop(g: Grammar, a: Automaton, t: seq<nat>, input: seq<Lexeme>, m: nat, states: seq<nat>, x: nat)
    requires Setting(g, a, t, input) && Run(g, t, input, m).Running?
    requires Path(a, states, Roots(g, Run(g, t, input, m).c.forest)) && Precedes(input, Run(g, t, input, m).c.forest, x)
    ensures var c := Run(g, t, input, m).c;
            && c.states != [] && c.states[|c.states| - 1] == states[|states| - 1]
            && c.pos < |input| && input[c.pos].tok == x
  {
    hide Run, CoreAutomaton, TableSound, Path;
    SameSize(g, a);
    RunSafe(g, a, t, input, m);
    var c := Run(g, t, input, m).c;
    PathLength(a, states, Roots(g, c.forest));
    PathLength(a, c.states, Roots(g, c.forest));
    PathUnique(a, c.states, states, Roots(g, c.forest));
    assert |input[..c.pos]| == c.pos;
  }

  /** Some trees stand over every path. */
  lemma PathForest(g: Grammar, a: Automaton, states: seq<nat>, syms: seq<nat>, v: Value) returns (left: seq<Tree>)
    requires g.WellFormed() && CoreAutomaton(g, a) && |a.trans| == |a.states| && Productive(g) && Path(a, states, syms)
    ensures ValidForest(g, left) && Roots(g, left) == syms
  {
    hide CoreAutomaton, Productive;
    forall k | 0 <= k < |syms|
      ensures 0 < syms[k] < g.tokenN
    {
      assert Link(a, states[k], syms[k], states[k + 1]);
      TransitionSymbol(g, a, states[k], syms[k]);
    }
    left := AnyForest(g, syms, v);
  }

  lemma PathLength(a: Automaton, states: seq<nat>, syms: seq<nat>)
    requires |a.trans| == |a.states| && Path(a, states, syms)
    ensures |states| == |syms| + 1
  {
  }

  lemma TurnReduce(g: Grammar, t: seq<nat>, input: seq<Lexeme>, c: Config, below: seq<Tree>, r: nat, kids: seq<Tree>)
    requires Step(g, t, input, c).Running? && Step(g, t, input, c).c.forest == below + [Node(r, kids)]
    ensures c.pos < |input| && input[c.pos].tok >= 0 && c.states != []
    ensures Cell(g, t, c.states[|c.states| - 1], input[c.pos].tok) == Reduce(r)
  {
    hide Cell, Goto;
    var forest := Step(g, t, input, c).c.forest;
    assert forest[|forest| - 1] == Node(r, kids);
  }

  lemma TurnShift(g: Grammar, t: seq<nat>, input: seq<Lexeme>, c: Config, below: seq<Tree>, tok: nat, val: Value)
    requires Step(g, t, input, c).Running? && Step(g, t, input, c).c.forest == below + [Leaf(tok, val)]
    ensures c.pos < |input| && input[c.pos].tok == tok && c.states != []
    ensures Cell(g, t, c.states[|c.states| - 1], tok).Shift?
  {
    hide Cell, Goto;
    var forest := Step(g, t, input, c).c.forest;
    assert forest[|forest| - 1] == Leaf(tok, val);
  }

  lemma TurnAccept(g: Grammar, t: seq<nat>, input: seq<Lexeme>, c: Config)
    requires Step(g, t, input, c).Accepted?
    ensures c.pos < |input| && input[c.pos].tok >= 0 && c.states != []
    ensures Cell(g, t, c.states[|c.states| - 1], input[c.pos].tok) == Accept
  {
    hide Cell, Reduced;
    if c.pos < |input| && c.states != [] && input[c.pos].tok >= 0 {
      match Cell(g, t, c.states[|c.states| - 1], input[c.pos].tok)
      case Reduce(r) => ReducedOutcome(g, t, c, r);
      case _ =>
    }
  }

  /** Some path into the state spells a prefix after which the item stands with x. */
  ghost predicate Looked(g: Grammar, a: Automaton, s: nat, it: Item, x: nat)
    requires |a.trans| == |a.states|
  {
    exists states, syms, n: nat :: PathTo(a, states, syms, s) && Stands(g, syms, it, x, n)
  }

  /** The runs on the sentences that show a lookahead must find its reduction in the table. */
  lemma ReduceShown(g: Grammar, a: Automaton, t: seq<nat>, s: nat, r: nat, x: nat, v: Value)
    requires g.WellFormed() && CoreAutomaton(g, a) && |a.states| == |a.trans| && TableSound(g, a, t)
    requires Productive(g) && RebuildsTrees(g, t) && g.IsRule(r) && Looked(g, a, s, Item(r, |g.rules[r].rhs|), x)
    ensures Cell(g, t, s, x) == Reduce(r)
  {
    hide CoreAutomaton, TableSound, Productive, Run, Step, Cell, ParseOf, IsInput, Stands, Path, Precedes, OnTheWay, ValidForest;
    var it := Item(r, |g.rules[r].rhs|);
    var states, syms, n: nat :| PathTo(a, states, syms, s) && Stands(g, syms, it, x, n);
    PathLength(a, states, syms);
    var left := PathForest(g, a, states, syms, v);
    var tree, input := Sentence(g, syms, it, x, n, left, [], v) by { EndOfRule(g, r); }
    assert left + [] == left;
    var below, kids := left[..|left| - it.dot], left[|left| - it.dot..] + [];
    assert below + kids == left;
    assert Rebuilds(g, t, input, tree);
    var e: nat :| Run(g, t, input, e).Accepted? && Run(g, t, input, e).c.forest == [tree];
    var last := LastRunning(g, t, input, e);
    var m := RunVisits(g, t, input, last, tree, below + [Node(r, kids)]);
    BeforeNode(below, r, kids);
    StackTop(g, a, t, input, m, states, x);
    TurnReduce(g, t, input, Run(g, t, input, m).c, below, r, kids);
  }

  lemma EndOfRule(g: Grammar, r: nat)
    requires r < |g.rules|
    ensures InRange(g, Item(r, |g.rules[r].rhs|)) && ValidForest(g, []) && Roots(g, []) == g.rules[r].rhs[|g.rules[r].rhs|..]
  {
  }

  lemma AcceptShown(g: Grammar, a: Automaton, t: seq<nat>, s: nat, x: nat, v: Value)
    requires g.WellFormed() && CoreAutomaton(g, a) && |a.states| == |a.trans| && TableSound(g, a, t)
    requires Productive(g) && RebuildsTrees(g, t) && Looked(g, a, s, Item(0, 1), x)
    ensures Cell(g, t, s, x) == Accept
  {
    hide CoreAutomaton, TableSound, Productive, Run, Step, Cell, ParseOf, IsInput, Stands, Path, Precedes, OnTheWay, ValidForest;
    var it := Item(0, 1);
    var states, syms, n: nat :| PathTo(a, states, syms, s) && Stands(g, syms, it, x, n);
    PathLength(a, states, syms);
    var left := PathForest(g, a, states, syms, v);
    var tree, input := Sentence(g, syms, it, x, n, left, [], v) by { EndOfRule(g, 0); }
    assert left + [] == left;
    assert Rebuilds(g, t, input, tree);
    var e: nat :| Run(g, t, input, e).Accepted? && Run(g, t, input, e).c.forest == [tree];
    var last := LastRunning(g, t, input, e);
    StackTop(g, a, t, input, last, states, x);
    TurnAccept(g, t, input, Run(g, t, input, e).c);
  }

  /** And the shift of every token after a dot. */
  lemma ShiftShown(g: Grammar, a: Automaton, t: seq<nat>, s: nat, it: Item, y: nat, v: Value)
    requires g.WellFormed() && CoreAutomaton(g, a) && |a.states| == |a.trans| && TableSound(g, a, t)
    requires Productive(g) && RebuildsTrees(g, t) && NotFinal(g, it) && g.IsAction(Curr(g, it)) && Looked(g, a, s, it, y)
    ensures Cell(g, t, s, Curr(g, it)).Shift?
  {
    hide CoreAutomaton, TableSound, Productive, Run, Step, Cell, ParseOf, IsInput, Stands, Path, OnTheWay, ValidForest, RebuildsTrees, Precedes, Gathered;
    var x := Curr(g, it);
    var states, syms, n: nat :| PathTo(a, states, syms, s) && Stands(g, syms, it, y, n);
    PathLength(a, states, syms);
    var leaf := Leaf(x, v);
    RuleSymbols(g, it.rule, it.dot + 1);
    var more := AnyForest(g, g.rules[it.rule].rhs[it.dot + 1..], v);
    LeafRest(g, it, leaf, more);
    var left := PathForest(g, a, states, syms, v);
    var tree, input := Sentence(g, syms, it, y, n, left, [leaf] + more, v);
    ShiftRun(g, a, t, states, it, y, leaf, more, left, tree, input);
  }

  lemma ShiftRun(g: Grammar, a: Automaton, t: seq<nat>, states: seq<nat>, it: Item, y: nat, leaf: Tree, more: seq<Tree>,
                 left: seq<Tree>, tree: Tree, input: seq<Lexeme>)
    requires g.WellFormed() && CoreAutomaton(g, a) && |a.states| == |a.trans| && TableSound(g, a, t) && RebuildsTrees(g, t)
    requires leaf.Leaf? && Path(a, states, Roots(g, left)) && states != []
    requires Shows(g, Roots(g, left), it, y, [leaf] + more, left, tree, input)
    ensures Cell(g, t, states[|states| - 1], leaf.tok).Shift?
  {
    hide CoreAutomaton, TableSound, Run, Step, Cell, ParseOf, IsInput, Path, OnTheWay, ValidForest, Unwound, Gathered, Precedes;
    assert left + ([leaf] + more) == left + [leaf] + more;
    Unwinding(left + [leaf], more);
    WayBack(tree, left + [leaf] + more, Sizes(more));
    assert Rebuilds(g, t, input, tree);
    var e: nat :| Run(g, t, input, e).Accepted? && Run(g, t, input, e).c.forest == [tree];
    var last := LastRunning(g, t, input, e);
    var m := RunVisits(g, t, input, last, tree, left + [leaf]);
    BeforeLeaf(left, leaf.tok, leaf.val);
    TurnShift(g, t, input, Run(g, t, input, m).c, left, leaf.tok, leaf.val);
    LeafFollows(input, left, leaf, more, y);
    StackTop(g, a, t, input, m, states, leaf.tok);
  }

  lemma LeafRest(g: Grammar, it: Item, leaf: Tree, more: seq<Tree>)
    requires g.WellFormed() && NotFinal(g, it) && g.IsAction(Curr(g, it)) && leaf.Leaf? && leaf.tok == Curr(g, it)
    requires ValidForest(g, more) && Roots(g, more) == g.rules[it.rule].rhs[it.dot + 1..]
    ensures ValidForest(g, [leaf] + more) && Roots(g, [leaf] + more) == g.rules[it.rule].rhs[it.dot..]
  {
    RootsAppend(g, [leaf], more);
    assert Valid(g, leaf);
  }

  lemma LeafFollows(input: seq<Lexeme>, left: seq<Tree>, leaf: Tree, more: seq<Tree>, y: nat)
    requires leaf.Leaf? && Precedes(input, left + [leaf] + more, y)
    ensures Precedes(input, left, leaf.tok)
  {
    hide Yields;
    YieldsAppend(left + [leaf], more);
    YieldsPush(left, leaf);
    var w, l := Yields(left), Yield(leaf) + Yields(more);
    LexemesAssoc(w, Yield(leaf), Yields(more));
    assert l[0] == Lexeme(leaf.tok, leaf.val);
    FirstBehind(input, w, l, leaf.tok, y);
  }

  // ------------------------------------------------ the lookaheads flow

  /** The graph with the lookaheads that sentences show. */
  ghost function Shown(g: Grammar, a: Automaton): Automaton
    requires |a.trans| == |a.states|
  {
    Automaton(seq(|a.states|, s requires 0 <= s < |a.states| => ShownState(g, a, s)), a.trans)
  }

  ghost function ShownState(g: Grammar, a: Automaton, s: nat): ItemSet
    requires |a.trans| == |a.states| && s < |a.states|
  {
    map it | it in a.states[s] :: set x: nat | x in Actions(g) && Looked(g, a, s, it, x)
  }

  lemma ShownCore(g: Grammar, a: Automaton)
    requires CoreAutomaton(g, a) && |a.trans| == |a.states|
    ensures CoreAutomaton(g, Shown(g, a))
  {
    hide CoreClosure, Looked;
    var b := Shown(g, a);
    forall s | 0 <= s < |a.states|
      ensures b.Core(s) == a.Core(s) && Bounded(g, b.states[s])
    {
      assert Bounded(g, a.states[s]);
    }
    forall s, x | 0 <= s < |b.states| && x in b.trans[s]
      ensures Edge(g, b, s, x)
    {
      assert Edge(g, a, s, x);
    }
  }

  ghost predicate SomeStands(g: Grammar, syms: seq<nat>, it: Item) {
    exists x: nat, n: nat :: Stands(g, syms, it, x, n)
  }

  lemma StandsExpanded(g: Grammar, syms: seq<nat>, from: Item, y: nat, n: nat, r: nat, x: nat)
    requires Stands(g, syms, from, y, n) && Behind(g, from, y, r, x)
    ensures Stands(g, syms, Item(r, 0), x, n + 1)
  {
    hide Behind;
  }

  lemma StandsMoved(g: Grammar, syms: seq<nat>, from: Item, x: nat, n: nat)
    requires Stands(g, syms, from, x, n) && NotFinal(g, from)
    ensures Stands(g, syms + [Curr(g, from)], Item(from.rule, from.dot + 1), x, n + 1)
  {
    var more := syms + [Curr(g, from)];
    assert more[..|more| - 1] == syms;
  }

  /** Something can follow every symbol. */
  lemma {:induction false} SomeNext(g: Grammar, s: seq<nat>, j: nat, y: nat) returns (x: nat)
    requires g.WellFormed() && Productive(g) && AreSymbols(g, s)
    ensures x in NextLookaheads(g, TreeFirst(g), s, j, {y})
    decreases |s| - j
  {
    hide TreeFirst, Productive, Valid;
    if j >= |s| {
      x := y;
    } else if g.IsAction(s[j]) {
      x := s[j];
    } else {
      TreeFirstAt(g, s[j]);
      var tree := SomeTree(g, s[j]);
      if Yield(tree) == [] {
        x := SomeNext(g, s, j + 1, y);
      } else {
        x := TreeHead(g, s[j], tree);
      }
    }
  }

  lemma SomeTree(g: Grammar, x: nat) returns (tree: Tree)
    requires Productive(g) && g.actionN <= x < g.tokenN
    ensures Valid(g, tree) && Root(g, tree) == x
  {
    assert HasTree(g, x);
    tree :| Valid(g, tree) && Root(g, tree) == x;
  }

  lemma TreeHead(g: Grammar, x: nat, tree: Tree) returns (a: nat)
    requires Valid(g, tree) && Root(g, tree) == x && Yield(tree) != []
    ensures a < g.actionN && TreeBegins(g, x, a)
  {
    assert ValidForest(g, [tree]);
    YieldIsTerminal(g, [tree]);
    YieldsOne(tree);
    assert 0 < Yield(tree)[0].tok < g.actionN;
    a := Yield(tree)[0].tok;
    assert Leads(Yield(tree), a);
  }

  lemma SomeClosed(g: Grammar, syms: seq<nat>, from: Item, r: nat)
    requires g.WellFormed() && Productive(g) && SomeStands(g, syms, from) && AtNonterminal(g, from) && IsProduction(g, Curr(g, from), r)
    ensures SomeStands(g, syms, Item(r, 0))
  {
    hide Productive, Stands, TreeFirst, NextLookaheads;
    var y: nat, n: nat :| Stands(g, syms, from, y, n);
    RuleSymbols(g, from.rule, 0);
    assert g.rules[from.rule].rhs[0..] == g.rules[from.rule].rhs;
    var x := SomeNext(g, g.rules[from.rule].rhs, from.dot + 1, y);
    StandsExpanded(g, syms, from, y, n, r, x);
  }

  /** Every item of the state at the end of a path stands there with some lookahead. */
  lemma {:induction false} PathStands(g: Grammar, a: Automaton, states: seq<nat>, syms: seq<nat>)
    requires g.WellFormed() && Productive(g) && CoreAutomaton(g, a) && |a.trans| == |a.states| && Path(a, states, syms)
    ensures forall it | it in a.Core(states[|syms|]) :: SomeStands(g, syms, it)
    decreases |syms|
  {
    hide Productive, SomeStands, CoreClosure;
    var n := |syms|;
    if n == 0 {
      StartStands(g, syms);
      LeastStands(g, syms, {Item(0, 0)}, a.Core(0));
    } else {
      PathPrefix(a, states, syms, n - 1);
      PathStands(g, a, states[..n], syms[..n - 1]);
      assert syms == syms[..n - 1] + [syms[n - 1]];
      assert Link(a, states[n - 1], syms[n - 1], states[n]);
      assert Edge(g, a, states[n - 1], syms[n - 1]);
      AdvanceStands(g, syms, a.Core(states[n - 1]));
      LeastStands(g, syms, AdvanceCore(g, a.Core(states[n - 1]), syms[n - 1]), a.Core(states[n]));
    }
  }

  lemma StartStands(g: Grammar, syms: seq<nat>)
    requires syms == []
    ensures SomeStands(g, syms, Item(0, 0))
  {
    assert Stands(g, syms, Item(0, 0), 0, 0);
  }

  lemma AdvanceStands(g: Grammar, syms: seq<nat>, k: set<Item>)
    requires syms != [] && forall it | it in k :: SomeStands(g, syms[..|syms| - 1], it)
    ensures forall it | it in AdvanceCore(g, k, syms[|syms| - 1]) :: SomeStands(g, syms, it)
  {
    hide Stands;
    var x := syms[|syms| - 1];
    assert syms == syms[..|syms| - 1] + [x];
    forall it | it in AdvanceCore(g, k, x)
      ensures SomeStands(g, syms, it)
    {
      var from :| from in k && NotFinal(g, from) && Curr(g, from) == x && it == Item(from.rule, from.dot + 1);
      var y: nat, n: nat :| Stands(g, syms[..|syms| - 1], from, y, n);
      StandsMoved(g, syms[..|syms| - 1], from, y, n);
    }
  }

  lemma LeastStands(g: Grammar, syms: seq<nat>, kernel: set<Item>, k: set<Item>)
    requires g.WellFormed() && Productive(g) && CoreClosure(g, kernel, k)
    requires forall it | it in kernel :: SomeStands(g, syms, it)
    ensures forall it | it in k :: SomeStands(g, syms, it)
  {
    hide SomeStands, Productive;
    var other := set it | it in k && SomeStands(g, syms, it);
    forall it, r: nat | it in other && AtNonterminal(g, it) && r < |g.rules| && g.rules[r].lhs == Curr(g, it)
      ensures Item(r, 0) in other
    {
      SomeClosed(g, syms, it, r);
    }
    assert CoreClosed(g, other);
  }

  lemma SomeLooked(g: Grammar, a: Automaton, s: nat, it: Item) returns (y: nat)
    requires g.WellFormed() && Productive(g) && CoreAutomaton(g, a) && |a.trans| == |a.states| && AllReached(a)
    requires s < |a.states| && it in a.Core(s)
    ensures Looked(g, a, s, it, y)
  {
    hide Productive, CoreAutomaton, Stands;
    assert HasPath(a, s);
    var states, syms :| PathTo(a, states, syms, s);
    PathStands(g, a, states, syms);
    assert SomeStands(g, syms, it);
    var x: nat, n: nat :| Stands(g, syms, it, x, n);
    y := x;
  }

  /** What follows over a set of lookaheads follows over one of them. */
  lemma {:induction false} NextOfOne(g: Grammar, f: FirstInfo, s: seq<nat>, j: nat, la: set<nat>, x: nat) returns (y: nat)
    requires la != {} && x in NextLookaheads(g, f, s, j, la)
    ensures y in la && x in NextLookaheads(g, f, s, j, {y})
    decreases |s| - j
  {
    if j < |s| && !g.IsAction(s[j]) && x !in f.First(s[j]) {
      y := NextOfOne(g, f, s, j + 1, la, x);
    } else if j >= |s| {
      y := x;
    } else {
      y :| y in la;
    }
  }

  lemma TreeFirstWellFormed(g: Grammar)
    ensures forall x, a | a in TreeFirst(g).First(x) :: a < g.actionN
  {
    hide TreeBegins, TreeEmpty;
  }

  /** Lookaheads that sentences show stay tokens. */
  lemma {:induction false} NextInActions(g: Grammar, s: seq<nat>, j: nat, la: set<nat>)
    requires la <= Actions(g)
    ensures NextLookaheads(g, TreeFirst(g), s, j, la) <= Actions(g)
    decreases |s| - j
  {
    hide TreeFirst;
    if j < |s| {
      NextInActions(g, s, j + 1, la);
      TreeFirstWellFormed(g);
    }
  }

  lemma {:induction false} LookedIsToken(g: Grammar, syms: seq<nat>, it: Item, x: nat, n: nat)
    requires g.WellFormed() && Stands(g, syms, it, x, n)
    ensures x in Actions(g)
    decreases n
  {
    hide TreeFirst, NextLookaheads;
    if n > 0 {
      if it.dot == 0 {
        var from: Item, y: nat :| Stands(g, syms, from, y, n - 1) && Behind(g, from, y, it.rule, x);
        LookedIsToken(g, syms, from, y, n - 1);
        NextInActions(g, g.rules[from.rule].rhs, from.dot + 1, {y});
      } else {
        LookedIsToken(g, syms[..|syms| - 1], Item(it.rule, it.dot - 1), x, n - 1);
      }
    }
  }

  lemma ShownExpands(g: Grammar, a: Automaton, s: nat, it: Item, r: nat)
    requires g.WellFormed() && Productive(g) && CoreAutomaton(g, a) && |a.trans| == |a.states| && AllReached(a)
    requires s < |a.states| && it in a.states[s] && AtNonterminal(g, it) && IsProduction(g, Curr(g, it), r) && Item(r, 0) in a.states[s]
    ensures it in ShownState(g, a, s) && Flows(g, TreeFirst(g), ShownState(g, a, s), it, r)
  {
    hide CoreAutomaton, Looked, Productive, TreeFirst, NextLookaheads;
    var m := ShownState(g, a, s);
    var y := SomeLooked(g, a, s, it);
    LookedToken(g, a, s, it, y);
    assert y in m[it];
    forall x | x in Contribution(g, TreeFirst(g), m, it)
      ensures x in m[Item(r, 0)]
    {
      var z := NextOfOne(g, TreeFirst(g), g.rules[it.rule].rhs, it.dot + 1, m[it], x);
      LookedExpanded(g, a, s, it, z, r, x);
      LookedToken(g, a, s, Item(r, 0), x);
    }
  }

  lemma LookedToken(g: Grammar, a: Automaton, s: nat, it: Item, x: nat)
    requires g.WellFormed() && |a.trans| == |a.states| && Looked(g, a, s, it, x)
    ensures x in Actions(g)
  {
    hide Stands;
    var states, syms, n: nat :| PathTo(a, states, syms, s) && Stands(g, syms, it, x, n);
    LookedIsToken(g, syms, it, x, n);
  }

  lemma LookedExpanded(g: Grammar, a: Automaton, s: nat, from: Item, y: nat, r: nat, x: nat)
    requires |a.trans| == |a.states| && Looked(g, a, s, from, y) && Behind(g, from, y, r, x)
    ensures Looked(g, a, s, Item(r, 0), x)
  {
    hide Stands, Behind;
    var states, syms, n: nat :| PathTo(a, states, syms, s) && Stands(g, syms, from, y, n);
    StandsExpanded(g, syms, from, y, n, r, x);
  }

  lemma LookedMoved(g: Grammar, a: Automaton, s: nat, from: Item, x: nat)
    requires CoreAutomaton(g, a) && |a.trans| == |a.states| && Looked(g, a, s, from, x)
    requires NotFinal(g, from) && s < |a.states| && Curr(g, from) in a.trans[s]
    ensures Looked(g, a, a.trans[s][Curr(g, from)], Item(from.rule, from.dot + 1), x)
  {
    hide CoreAutomaton, Stands, Path;
    var states, syms, n: nat :| PathTo(a, states, syms, s) && Stands(g, syms, from, x, n);
    PathLength(a, states, syms);
    PathPush(g, a, states, syms, Curr(g, from));
    StandsMoved(g, syms, from, x, n);
    assert PathTo(a, states + [a.trans[s][Curr(g, from)]], syms + [Curr(g, from)], a.trans[s][Curr(g, from)]);
  }

  lemma ShownMoves(g: Grammar, a: Automaton, s: nat, it: Item)
    requires g.WellFormed() && CoreAutomaton(g, a) && CoreAutomaton(g, Shown(g, a)) && |a.trans| == |a.states|
    requires s < |a.states| && it in a.states[s] && NotFinal(g, it)
    ensures LookaheadEdge(g, Shown(g, a), s, it)
  {
    hide Looked, CoreAutomaton, ShownState;
    var x, next := Curr(g, it), Item(it.rule, it.dot + 1);
    MovesInto(g, a, s, it);
    ShownGrows(g, a, s, it);
    ShownItems(g, a, s);
    ShownItems(g, a, a.trans[s][x]);
  }

  lemma ShownItems(g: Grammar, a: Automaton, s: nat)
    requires |a.trans| == |a.states| && s < |a.states|
    ensures ShownState(g, a, s).Keys == a.Core(s)
  {
    hide Looked;
  }

  /** The transition of an item leads to its successor. */
  lemma MovesInto(g: Grammar, a: Automaton, s: nat, it: Item)
    requires CoreAutomaton(g, a) && |a.trans| == |a.states| && s < |a.states| && it in a.states[s] && NotFinal(g, it)
    ensures var x := Curr(g, it);
            x in a.trans[s] && a.trans[s][x] < |a.states| && Item(it.rule, it.dot + 1) in a.Core(a.trans[s][x])
  {
    hide CoreClosure, Bounded;
    var x := Curr(g, it);
    assert x in NextSymbols(g, a.Core(s));
    assert Edge(g, a, s, x);
    AdvancedIn(g, a.Core(s), it, a.Core(a.trans[s][x]));
  }

  lemma ShownGrows(g: Grammar, a: Automaton, s: nat, it: Item)
    requires CoreAutomaton(g, a) && |a.trans| == |a.states| && s < |a.states| && it in a.states[s] && NotFinal(g, it)
    requires var x := Curr(g, it);
             x in a.trans[s] && a.trans[s][x] < |a.states| && Item(it.rule, it.dot + 1) in a.Core(a.trans[s][x])
    ensures ShownState(g, a, s)[it] <= ShownState(g, a, a.trans[s][Curr(g, it)])[Item(it.rule, it.dot + 1)]
  {
    hide Looked, CoreAutomaton;
    forall y | y in ShownState(g, a, s)[it]
      ensures y in ShownState(g, a, a.trans[s][Curr(g, it)])[Item(it.rule, it.dot + 1)]
    {
      LookedMoved(g, a, s, it, y);
    }
  }

  lemma AdvancedIn(g: Grammar, k: set<Item>, it: Item, k': set<Item>)
    requires it in k && NotFinal(g, it) && CoreClosure(g, AdvanceCore(g, k, Curr(g, it)), k')
    ensures Item(it.rule, it.dot + 1) in k'
  {
    assert Item(it.rule, it.dot + 1) in AdvanceCore(g, k, Curr(g, it));
  }

  lemma ReachedClosed(g: Grammar, a: Automaton, s: nat)
    requires CoreAutomaton(g, a) && |a.trans| == |a.states| && AllReached(a) && s < |a.states|
    ensures CoreClosed(g, a.Core(s))
  {
    assert HasPath(a, s);
    var states, syms :| PathTo(a, states, syms, s);
    if syms != [] {
      var n := |syms|;
      assert Link(a, states[n - 1], syms[n - 1], states[n]);
      assert Edge(g, a, states[n - 1], syms[n - 1]);
    }
  }

  lemma ShownFlow(g: Grammar, a: Automaton)
    requires g.WellFormed() && Productive(g) && CoreAutomaton(g, a) && |a.trans| == |a.states| && AllReached(a)
    requires CoreAutomaton(g, Shown(g, a))
    ensures LookaheadFlow(g, TreeFirst(g), Shown(g, a))
  {
    hide Productive, CoreAutomaton, Flows, LookaheadEdge, AllReached, TreeFirst;
    var b := Shown(g, a);
    forall s, it, r: nat | 0 <= s < |b.states| && it in b.states[s] && AtNonterminal(g, it) && IsProduction(g, Curr(g, it), r)
      ensures Flows(g, TreeFirst(g), b.states[s], it, r)
    {
      ReachedClosed(g, a, s);
      assert it in a.Core(s);
      assert Item(r, 0) in a.Core(s);
      ShownExpands(g, a, s, it, r);
    }
    forall s, it | 0 <= s < |b.states| && it in b.states[s] && NotFinal(g, it)
      ensures LookaheadEdge(g, b, s, it)
    {
      ShownMoves(g, a, s, it);
    }
    ShownStart(g, a);
  }

  lemma ShownStart(g: Grammar, a: Automaton)
    requires g.WellFormed() && CoreAutomaton(g, a) && |a.trans| == |a.states|
    ensures 0 < |a.states| && Item(0, 0) in ShownState(g, a, 0) && 0 in ShownState(g, a, 0)[Item(0, 0)]
  {
    assert Stands(g, [], Item(0, 0), 0, 0);
    assert PathTo(a, [0], [], 0);
    assert Looked(g, a, 0, Item(0, 0), 0);
  }

  /** The table holds every move the shown lookaheads ask for. */
  lemma ShownComplete(g: Grammar, a: Automaton, t: seq<nat>, v: Value)
    requires g.WellFormed() && CoreAutomaton(g, a) && |a.states| == |a.trans| && TableSound(g, a, t) && AllReached(a)
    requires Productive(g) && RebuildsTrees(g, t)
    ensures TableComplete(g, Shown(g, a), t)
  {
    hide CoreAutomaton, TableSound, Productive, RebuildsTrees, AllReached, Cell, Looked;
    var b := Shown(g, a);
    forall s, x, act | 0 <= s < |b.states| && 0 <= x < g.tokenN && Candidate(g, b.states[s], b.trans[s], x, act)
      ensures Cell(g, t, s, x) == act
    {
      match act
      case Shift(p) => ShiftComplete(g, a, t, s, x, v);
      case Reduce(r) => ReduceShown(g, a, t, s, r, x, v);
      case Accept => AcceptShown(g, a, t, s, x, v) by { assert |g.rules[0].rhs| == 1; }
    }
  }

  lemma ShiftComplete(g: Grammar, a: Automaton, t: seq<nat>, s: nat, x: nat, v: Value)
    requires g.WellFormed() && CoreAutomaton(g, a) && |a.states| == |a.trans| && TableSound(g, a, t) && AllReached(a)
    requires Productive(g) && RebuildsTrees(g, t) && s < |a.states| && x < g.tokenN && x in a.trans[s]
    ensures Cell(g, t, s, x) == Shift(a.trans[s][x])
  {
    hide CoreClosure, Productive, RebuildsTrees, AllReached, Cell, Looked;
    assert CellSound(g, a.states[s], a.trans[s], x, Cell(g, t, s, x));
    assert Candidate(g, a.states[s], a.trans[s], x, Shift(a.trans[s][x]));
    if g.IsAction(x) {
      assert x in NextSymbols(g, a.Core(s));
      var it :| it in a.Core(s) && NotFinal(g, it) && Curr(g, it) == x;
      var y := SomeLooked(g, a, s, it);
      ShiftShown(g, a, t, s, it, y, v);
    } else {
      assert Bounded(g, a.states[s]);
    }
  }

  /** The driver rebuilds every parse tree exactly when the table serves lookaheads that flow over
      first sets satisfying the rules. */
  lemma ServesExactly(g: Grammar, a: Automaton, t: seq<nat>, v: Value)
    requires g.WellFormed() && CoreAutomaton(g, a) && |a.states| == |a.trans| && TableSound(g, a, t) && AllReached(a)
    requires Productive(g)
    ensures TableServes(g, t) <==> RebuildsTrees(g, t)
  {
    hide CoreAutomaton, TableSound, AllReached, Productive, LookaheadFlow, TableComplete, FirstClosed, ParseOf, IsInput, Run;
    if TableServes(g, t) {
      forall input, tree | IsInput(g, input) && ParseOf(g, input, tree)
        ensures Rebuilds(g, t, input, tree)
      {
        Completeness(g, t, input, tree);
      }
    }
    if RebuildsTrees(g, t) {
      ShownCore(g, a);
      ShownFlow(g, a);
      TreeFirstClosed(g, v);
      ShownComplete(g, a, t, v);
      assert ServedBy(g, TreeFirst(g), Shown(g, a), t);
    }
  }
}
