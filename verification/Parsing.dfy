/** The driver on a generated table decides the grammar's language. */
module Parsing {
  import opened Grammars
  import opened Closures
  import opened FirstProofs
  import opened Automata
  import opened Tables
  import opened Machines

  /** The augment item is reduced on end of input only. */
  ghost predicate EofOnly(a: Automaton) {
    forall s, it | 0 <= s < |a.states| && it in a.states[s] && it.rule == 0 :: a.states[s][it] <= {0}
  }

  // ------------------------------------------------ soundness

  /** What acceptance means: one tree over the start symbol whose frontier is the whole input. */
  ghost predicate Parsed(g: Grammar, input: seq<Lexeme>, c: Config)
    requires g.WellFormed() && |input| > 0
  {
    && |c.forest| == 1
    && Valid(g, c.forest[0])
    && Root(g, c.forest[0]) == g.Start()
    && Yield(c.forest[0]) == input[..|input| - 1]
    && input[|input| - 1].tok == 0
  }

  lemma AcceptSound(g: Grammar, a: Automaton, t: seq<nat>, input: seq<Lexeme>, c: Config)
    requires Setting(g, a, t, input) && EofOnly(a) && Inv(g, a, input, c) && Step(g, t, input, c).Accepted?
    ensures Parsed(g, input, c)
  {
    hide CoreAutomaton, TableSound;
    SameSize(g, a);
    StepKeeps(g, a, t, input, c);
    var s := c.states[|c.forest|];
    assert Item(0, 1) in a.states[s] && input[c.pos].tok in a.states[s][Item(0, 1)];
    AcceptPath(g, a, c.states, Roots(g, c.forest));
    assert |c.forest| == |Roots(g, c.forest)|;
    assert Roots(g, c.forest)[0] == Root(g, c.forest[0]);
    assert c.forest == [c.forest[0]];
    YieldsOne(c.forest[0]);
    assert input[c.pos].tok == 0;
    InputAt(g, input, c.pos);
  }

  lemma {:induction false} StepsSound(g: Grammar, a: Automaton, t: seq<nat>, input: seq<Lexeme>, c: Config, n: nat)
    requires Setting(g, a, t, input) && EofOnly(a) && Inv(g, a, input, c)
    ensures Steps(g, t, input, Running(c), n).Accepted? ==> Parsed(g, input, Steps(g, t, input, Running(c), n).c)
    decreases n
  {
    hide CoreAutomaton, TableSound, Inv, Parsed;
    if n > 0 {
      StepKeeps(g, a, t, input, c);
      var o := Step(g, t, input, c);
      if o.Running? {
        StepsSound(g, a, t, input, o.c, n - 1);
      } else if o.Accepted? {
        AcceptSound(g, a, t, input, c);
        AcceptedHere(g, t, input, c);
      }
    }
  }

  lemma AcceptedHere(g: Grammar, t: seq<nat>, input: seq<Lexeme>, c: Config)
    requires Step(g, t, input, c).Accepted?
    ensures Step(g, t, input, c).c == c
  {
  }

  /** Soundness: if a run accepts, the tokens before end of input are in the language, and the
      reductions performed, read backwards, are a rightmost derivation of them. */
  lemma Soundness(g: Grammar, a: Automaton, t: seq<nat>, input: seq<Lexeme>, n: nat)
    requires Setting(g, a, t, input) && EofOnly(a) && Run(g, t, input, n).Accepted?
    ensures var c := Run(g, t, input, n).c; var w := Symbols(input[..|input| - 1]);
            && Parsed(g, input, c)
            && InLanguage(g, w)
            && Rightmost(g, Postorders(c.forest), [g.Start()], w)
  {
    hide CoreAutomaton, TableSound;
    StartInv(g, a, input);
    StepsSound(g, a, t, input, Start(), n);
    var c := Run(g, t, input, n).c;
    TreeInLanguage(g, c.forest[0]);
    assert c.forest == [c.forest[0]];
    YieldsOne(c.forest[0]);
  }

  // ------------------------------------------------ completeness

  /** Lookaheads that flow over first sets which satisfy the rules, and a table that holds every move
      they ask for. They need not be those the table was filled from. */
  ghost predicate ServedBy(g: Grammar, f: FirstInfo, a: Automaton, t: seq<nat>) {
    && g.WellFormed()
    && CoreAutomaton(g, a)
    && LookaheadFlow(g, f, a)
    && FirstClosed(g, f)
    && TableComplete(g, a, t)
  }

  /** What completeness needs: the table serves some such lookaheads. */
  ghost predicate TableServes(g: Grammar, t: seq<nat>) {
    exists f, a :: ServedBy(g, f, a, t)
  }

  /** w stands in the input at pos, and a lexeme follows it. */
  predicate At(input: seq<Lexeme>, pos: nat, w: seq<Lexeme>) {
    pos + |w| < |input| && input[pos..pos + |w|] == w
  }

  /** The first token of what follows a dot in a forest is among the lookaheads computed for it. */
  lemma NextToken(g: Grammar, f: FirstInfo, input: seq<Lexeme>, pos: nat, kids: seq<Tree>, k: nat, rhs: seq<nat>, la: set<nat>)
    requires g.WellFormed() && FirstClosed(g, f) && ValidForest(g, kids) && Roots(g, kids) == rhs && k <= |rhs|
    requires At(input, pos, Yields(kids[k..])) && 0 <= input[pos + |Yields(kids[k..])|].tok
    requires input[pos + |Yields(kids[k..])|].tok in la
    ensures 0 <= input[pos].tok
    ensures input[pos].tok in NextLookaheads(g, f, rhs, k, la)
  {
    hide FirstClosed, NextLookaheads, Yields;
    var ts := kids[k..];
    assert Roots(g, ts) == rhs[k..];
    FrontierFirst(g, f, ts, rhs[k..], la);
    YieldIsTerminal(g, ts);
    FirstInInput(g, f, input, pos, Yields(ts), la);
    NextSlice(g, f, rhs[..k], rhs[k..], 0, la);
    assert rhs[..k] + rhs[k..] == rhs;
  }

  lemma FrontierFirst(g: Grammar, f: FirstInfo, ts: seq<Tree>, roots: seq<nat>, la: set<nat>)
    requires g.WellFormed() && FirstClosed(g, f) && ValidForest(g, ts) && Roots(g, ts) == roots
    ensures NextLookaheads(g, f, Symbols(Yields(ts)), 0, la) <= NextLookaheads(g, f, roots, 0, la)
  {
    hide FirstClosed, NextLookaheads, Yields, Rightmost;
    var w := Symbols(Yields(ts));
    ForestIsRightmost(g, ts, [], []);
    assert [] + roots + [] == roots && [] + w + [] == w;
    RightmostDerives(g, Postorders(ts), roots, w);
    DerivationFirst(g, f, roots, w, |Postorders(ts)|, la);
  }

  lemma FirstInInput(g: Grammar, f: FirstInfo, input: seq<Lexeme>, pos: nat, w: seq<Lexeme>, la: set<nat>)
    requires At(input, pos, w) && AllTokens(g, w) && 0 <= input[pos + |w|].tok && input[pos + |w|].tok in la
    ensures 0 <= input[pos].tok && input[pos].tok in NextLookaheads(g, f, Symbols(w), 0, la)
  {
    if w != [] {
      assert input[pos] == input[pos..pos + |w|][0] == w[0];
    }
  }

  lemma ShiftCell(g: Grammar, f: FirstInfo, a: Automaton, t: seq<nat>, s: nat, it: Item)
    requires ServedBy(g, f, a, t) && s < |a.states| && it in a.states[s] && NotFinal(g, it)
    ensures LookaheadEdge(g, a, s, it)
    ensures 0 < Curr(g, it) < g.tokenN
    ensures Cell(g, t, s, Curr(g, it)) == Shift(a.trans[s][Curr(g, it)])
  {
    hide CoreClosure, Cell, Flows;
    var x := Curr(g, it);
    assert LookaheadEdge(g, a, s, it);
    TransitionSymbol(g, a, s, x);
    assert Candidate(g, a.states[s], a.trans[s], x, Shift(a.trans[s][x]));
  }

  lemma ReduceCell(g: Grammar, f: FirstInfo, a: Automaton, t: seq<nat>, s: nat, r: nat, x: nat)
    requires ServedBy(g, f, a, t) && s < |a.states| && r < |g.rules| && Reduces(g, a.states[s], r, x)
    ensures x < g.actionN
    ensures Cell(g, t, s, x) == if r == 0 then Accept else Reduce(r)
  {
    hide CoreClosure, Cell, Flows;
    assert Bounded(g, a.states[s]);
    assert Candidate(g, a.states[s], a.trans[s], x, if r == 0 then Accept else Reduce(r));
  }

  /** Closure gives every production of the symbol after a dot the lookaheads that follow it. */
  lemma ExpandedItem(g: Grammar, f: FirstInfo, a: Automaton, t: seq<nat>, s: nat, it: Item, r: nat)
    requires ServedBy(g, f, a, t) && s < |a.states| && it in a.states[s] && AtNonterminal(g, it)
    requires g.IsRule(r) && g.rules[r].lhs == Curr(g, it)
    ensures Item(r, 0) in a.states[s] && Contribution(g, f, a.states[s], it) <= a.states[s][Item(r, 0)]
  {
    hide CoreAutomaton, TableComplete, FirstClosed, Contribution;
    SameSize(g, a);
    assert IsProduction(g, Curr(g, it), r);
    assert Flows(g, f, a.states[s], it, r);
  }

  /** The configuration once the trees have been pushed over the states. */
  function Pushed(c: Config, states: seq<nat>, trees: seq<Tree>): Config {
    Config(c.states + states, c.forest + trees, c.pos + |Yields(trees)|)
  }

  /** Given a dot before the root of a tree, and a token after its frontier that the closure
      computed for it, the driver parses exactly that tree, in one step for each node. */
  lemma {:induction false} TreeRun(g: Grammar, f: FirstInfo, a: Automaton, t: seq<nat>, input: seq<Lexeme>,
                                   c: Config, s: nat, it: Item, tree: Tree)
    requires ServedBy(g, f, a, t)
    requires c.states != [] && c.states[|c.states| - 1] == s < |a.states|
    requires it in a.states[s] && NotFinal(g, it) && Valid(g, tree) && Root(g, tree) == Curr(g, it)
    requires At(input, c.pos, Yield(tree)) && 0 <= input[c.pos + |Yield(tree)|].tok
    requires input[c.pos + |Yield(tree)|].tok in Contribution(g, f, a.states[s], it)
    ensures LookaheadEdge(g, a, s, it)
    ensures Steps(g, t, input, Running(c), Size(tree)) == Running(Pushed(c, [a.trans[s][Curr(g, it)]], [tree]))
    decreases tree, 1
  {
    hide ServedBy, Contribution, Pushed, Steps, Cell, FirstClosed;
    ServedFirst(g, f, a, t);
    ShiftCell(g, f, a, t, s, it);
    match tree
    case Leaf(tok, val) =>
      LeafRun(g, t, input, c, tok, val, a.trans[s][Curr(g, it)]);
    case Node(r, kids) =>
      ExpandedItem(g, f, a, t, s, it, r);
      var states, top := ForestRun(g, f, a, t, input, c, s, r, kids, |kids|);
      assert kids[..|kids|] == kids;
      ReduceCell(g, f, a, t, top, r, input[c.pos + |Yields(kids)|].tok);
      ReduceRun(g, f, a, t, input, c, s, it, tree, states, top);
      StepsAdd(g, t, input, Running(c), Sizes(kids), 1);
  }

  lemma LeafRun(g: Grammar, t: seq<nat>, input: seq<Lexeme>, c: Config, tok: nat, val: Value, target: nat)
    requires c.states != [] && At(input, c.pos, [Lexeme(tok, val)])
    requires Cell(g, t, c.states[|c.states| - 1], tok) == Shift(target)
    ensures Steps(g, t, input, Running(c), 1) == Running(Pushed(c, [target], [Leaf(tok, val)]))
  {
    hide Cell;
    YieldsOne(Leaf(tok, val));
    assert input[c.pos] == input[c.pos..c.pos + 1][0] == Lexeme(tok, val);
    assert Steps(g, t, input, Running(c), 1) == Steps(g, t, input, Step(g, t, input, c), 0);
  }

  lemma ReduceRun(g: Grammar, f: FirstInfo, a: Automaton, t: seq<nat>, input: seq<Lexeme>,
                  c: Config, s: nat, it: Item, tree: Tree, states: seq<nat>, top: nat)
    requires ServedBy(g, f, a, t) && tree.Node? && g.IsRule(tree.rule)
    requires c.states != [] && c.states[|c.states| - 1] == s < |a.states|
    requires it in a.states[s] && NotFinal(g, it) && Root(g, tree) == Curr(g, it)
    requires |states| == |tree.kids| == |g.rules[tree.rule].rhs|
    requires top == (c.states + states)[|c.states + states| - 1]
    requires var pos := c.pos + |Yields(tree.kids)|;
             pos < |input| && 0 <= input[pos].tok && Cell(g, t, top, input[pos].tok) == Reduce(tree.rule)
    ensures LookaheadEdge(g, a, s, it)
    ensures Steps(g, t, input, Running(Pushed(c, states, tree.kids)), 1) == Running(Pushed(c, [a.trans[s][Curr(g, it)]], [tree]))
  {
    hide ServedBy, Cell, Goto, LookaheadEdge, Yields;
    var c' := Pushed(c, states, tree.kids);
    NodeGoto(g, f, a, t, s, it, tree.rule);
    YieldsOne(tree);
    assert Yield(tree) == Yields(tree.kids);
    ReducePushed(g, t, c, states, tree, s);
    assert Step(g, t, input, c') == Reduced(g, t, c', tree.rule);
    assert Steps(g, t, input, Running(c'), 1) == Steps(g, t, input, Step(g, t, input, c'), 0);
  }

  lemma ReducePushed(g: Grammar, t: seq<nat>, c: Config, states: seq<nat>, tree: Tree, s: nat)
    requires tree.Node? && g.IsRule(tree.rule) && |states| == |tree.kids| == |g.rules[tree.rule].rhs|
    requires c.states != [] && c.states[|c.states| - 1] == s
    ensures Reduced(g, t, Pushed(c, states, tree.kids), tree.rule)
         == Running(Pushed(c, [Goto(g, t, s, g.rules[tree.rule].lhs)], [tree]))
  {
    hide Goto, Yields;
    var c' := Pushed(c, states, tree.kids);
    var n := |states|;
    assert c'.states[..|c'.states| - n] == c.states;
    assert c'.forest[|c'.forest| - n..] == tree.kids && c'.forest[..|c'.forest| - n] == c.forest;
    YieldsOne(tree);
    assert Yield(tree) == Yields(tree.kids);
  }

  lemma NodeGoto(g: Grammar, f: FirstInfo, a: Automaton, t: seq<nat>, s: nat, it: Item, r: nat)
    requires ServedBy(g, f, a, t) && s < |a.states| && it in a.states[s] && NotFinal(g, it)
    requires g.IsRule(r) && g.rules[r].lhs == Curr(g, it)
    ensures LookaheadEdge(g, a, s, it)
    ensures Goto(g, t, s, g.rules[r].lhs) == a.trans[s][Curr(g, it)]
  {
    hide CoreAutomaton, TableComplete, FirstClosed, Cell;
    SameSize(g, a);
    ShiftCell(g, f, a, t, s, it);
    GotoShift(g, t, s, Curr(g, it), a.trans[s][Curr(g, it)]);
  }

  /** The same for the first k trees over a right-hand side, from the state with the dot in front. */
  lemma {:induction false} ForestRun(g: Grammar, f: FirstInfo, a: Automaton, t: seq<nat>, input: seq<Lexeme>,
                                     c: Config, s: nat, r: nat, kids: seq<Tree>, k: nat) returns (states: seq<nat>, top: nat)
    requires ServedBy(g, f, a, t)
    requires c.states != [] && c.states[|c.states| - 1] == s < |a.states|
    requires r < |g.rules| && Item(r, 0) in a.states[s]
    requires ValidForest(g, kids) && Roots(g, kids) == g.rules[r].rhs && k <= |kids|
    requires At(input, c.pos, Yields(kids)) && 0 <= input[c.pos + |Yields(kids)|].tok
    requires input[c.pos + |Yields(kids)|].tok in a.states[s][Item(r, 0)]
    ensures |states| == k && top == (c.states + states)[|c.states| + k - 1] < |a.states|
    ensures Item(r, k) in a.states[top] && a.states[s][Item(r, 0)] <= a.states[top][Item(r, k)]
    ensures Steps(g, t, input, Running(c), Sizes(kids[..k])) == Running(Pushed(c, states, kids[..k]))
    decreases kids, 0, k
  {
    hide ServedBy, Steps, Yields, Sizes, ValidForest;
    ServedFirst(g, f, a, t);
    if k == 0 {
      states, top := [], s;
      NothingPushed(g, t, input, c);
      assert kids[..0] == [];
    } else {
      var states', top' := ForestRun(g, f, a, t, input, c, s, r, kids, k - 1);
      var c' := Pushed(c, states', kids[..k - 1]);
      var tree, it := kids[k - 1], Item(r, k - 1);
      KidContext(g, f, a, input, c, s, r, kids, k, top');
      TreeRun(g, f, a, t, input, c', top', it, tree);
      top := a.trans[top'][Curr(g, it)];
      states := states' + [top];
      KidPushed(c, states', kids, k, top);
      StepsAdd(g, t, input, Running(c), Sizes(kids[..k - 1]), Size(tree));
    }
  }

  lemma ServedFirst(g: Grammar, f: FirstInfo, a: Automaton, t: seq<nat>)
    requires ServedBy(g, f, a, t)
    ensures g.WellFormed() && FirstClosed(g, f) && |a.trans| == |a.states| > 0
  {
  }

  lemma NothingPushed(g: Grammar, t: seq<nat>, input: seq<Lexeme>, c: Config)
    ensures Steps(g, t, input, Running(c), Sizes([])) == Running(Pushed(c, [], []))
  {
    assert c.states + [] == c.states && c.forest + [] == c.forest;
  }

  lemma KidPushed(c: Config, states: seq<nat>, kids: seq<Tree>, k: nat, top: nat)
    requires 0 < k <= |kids|
    ensures Pushed(Pushed(c, states, kids[..k - 1]), [top], [kids[k - 1]]) == Pushed(c, states + [top], kids[..k])
    ensures Sizes(kids[..k]) == Sizes(kids[..k - 1]) + Size(kids[k - 1])
  {
    assert kids[..k] == kids[..k - 1] + [kids[k - 1]];
    YieldsPush(kids[..k - 1], kids[k - 1]);
    YieldsOne(kids[k - 1]);
    assert c.states + states + [top] == c.states + (states + [top]);
    assert c.forest + kids[..k - 1] + [kids[k - 1]] == c.forest + kids[..k];
  }

  /** Where the next kid stands in the input, and what follows it. */
  lemma KidContext(g: Grammar, f: FirstInfo, a: Automaton, input: seq<Lexeme>,
                   c: Config, s: nat, r: nat, kids: seq<Tree>, k: nat, top: nat)
    requires g.WellFormed() && FirstClosed(g, f)
    requires s < |a.states| && top < |a.states| && r < |g.rules| && Item(r, 0) in a.states[s]
    requires ValidForest(g, kids) && Roots(g, kids) == g.rules[r].rhs && 0 < k <= |kids|
    requires At(input, c.pos, Yields(kids)) && 0 <= input[c.pos + |Yields(kids)|].tok
    requires input[c.pos + |Yields(kids)|].tok in a.states[s][Item(r, 0)]
    requires Item(r, k - 1) in a.states[top] && a.states[s][Item(r, 0)] <= a.states[top][Item(r, k - 1)]
    ensures var tree, it, pos := kids[k - 1], Item(r, k - 1), c.pos + |Yields(kids[..k - 1])|;
            && NotFinal(g, it) && Valid(g, tree) && Root(g, tree) == Curr(g, it)
            && At(input, pos, Yield(tree)) && 0 <= input[pos + |Yield(tree)|].tok
            && input[pos + |Yield(tree)|].tok in Contribution(g, f, a.states[top], it)
  {
    hide FirstClosed, Yields, Yield, At, NextLookaheads;
    var rhs, la := g.rules[r].rhs, a.states[top][Item(r, k - 1)];
    assert |kids| == |Roots(g, kids)| && Roots(g, kids)[k - 1] == Root(g, kids[k - 1]);
    KidPosition(input, c.pos, kids, k);
    NextToken(g, f, input, c.pos + |Yields(kids[..k - 1])| + |Yield(kids[k - 1])|, kids, k, rhs, la);
  }

  lemma KidPosition(input: seq<Lexeme>, pos: nat, kids: seq<Tree>, k: nat)
    requires 0 < k <= |kids| && At(input, pos, Yields(kids))
    ensures var x, y, z := |Yields(kids[..k - 1])|, |Yield(kids[k - 1])|, |Yields(kids[k..])|;
            && At(input, pos + x, Yield(kids[k - 1]))
            && At(input, pos + x + y, Yields(kids[k..]))
            && x + y + z == |Yields(kids)| && pos + |Yields(kids)| < |input|
  {
    hide Yields, Yield;
    var before, tree, after := kids[..k - 1], kids[k - 1], kids[k..];
    assert kids == before + [tree] + after;
    YieldsAppend(before + [tree], after);
    YieldsPush(before, tree);
    SliceAt(input, pos, Yields(before), Yield(tree), Yields(after));
  }

  lemma SliceAt(input: seq<Lexeme>, pos: nat, x: seq<Lexeme>, y: seq<Lexeme>, z: seq<Lexeme>)
    requires At(input, pos, x + y + z)
    ensures At(input, pos + |x|, y) && At(input, pos + |x| + |y|, z)
  {
    SplitAt(input, pos, x + y, z);
    SplitAt(input, pos, x, y);
  }

  lemma SplitAt(input: seq<Lexeme>, pos: nat, x: seq<Lexeme>, y: seq<Lexeme>)
    requires At(input, pos, x + y)
    ensures At(input, pos, x) && At(input, pos + |x|, y)
  {
    var w := input[pos..pos + |x + y|];
    assert w == x + y;
    assert input[pos..pos + |x|] == w[..|x|];
    assert input[pos + |x|..pos + |x| + |y|] == w[|x|..];
  }

  /** A start tree for a token sequence followed by end of input. */
  ghost predicate ParseOf(g: Grammar, input: seq<Lexeme>, tree: Tree)
    requires g.WellFormed()
  {
    && Valid(g, tree)
    && Root(g, tree) == g.Start()
    && |input| > 0
    && Yield(tree) == input[..|input| - 1]
    && input[|input| - 1].tok == 0
  }

  lemma ParseIsSentence(g: Grammar, input: seq<Lexeme>, tree: Tree)
    requires g.WellFormed() && ParseOf(g, input, tree)
    ensures input != [] && input[|input| - 1].tok == 0 && InLanguage(g, Symbols(input[..|input| - 1]))
  {
    hide InLanguage;
    TreeInLanguage(g, tree);
  }

  /** Completeness: the driver accepts the frontier of every start tree, in as many steps as the
      tree has nodes and one more, and the tree it builds is that tree. */
  lemma Completeness(g: Grammar, t: seq<nat>, input: seq<Lexeme>, tree: Tree)
    requires g.WellFormed() && TableServes(g, t) && ParseOf(g, input, tree)
    ensures var o := Run(g, t, input, Size(tree) + 1); o.Accepted? && o.c.forest == [tree]
  {
    hide ServedBy, ParseOf, Run;
    var f, a :| ServedBy(g, f, a, t);
    ServedParse(g, f, a, t, input, tree);
  }

  lemma ServedParse(g: Grammar, f: FirstInfo, a: Automaton, t: seq<nat>, input: seq<Lexeme>, tree: Tree)
    requires g.WellFormed() && ServedBy(g, f, a, t) && ParseOf(g, input, tree)
    ensures var o := Run(g, t, input, Size(tree) + 1); o.Accepted? && o.c.forest == [tree]
  {
    hide ServedBy, Yield, Step, Steps, Contribution, Valid, Pushed, LookaheadEdge;
    var c, it := Start(), Item(0, 0);
    StartLookahead(g, f, a, t);
    ServedFirst(g, f, a, t);
    StartsParse(input, tree);
    TreeRun(g, f, a, t, input, c, 0, it, tree);
    StartEdge(g, a);
    var s1 := a.trans[0][Curr(g, it)];
    var c1 := Pushed(c, [s1], [tree]);
    StartPushed(s1, tree);
    AcceptTurn(g, f, a, t, input, s1, c1);
    StepsAdd(g, t, input, Running(c), Size(tree), 1);
  }

  lemma StartEdge(g: Grammar, a: Automaton)
    requires |a.trans| == |a.states| > 0 && Item(0, 0) in a.states[0] && NotFinal(g, Item(0, 0)) && LookaheadEdge(g, a, 0, Item(0, 0))
    ensures Curr(g, Item(0, 0)) in a.trans[0]
  {
  }

  lemma StartPushed(s: nat, tree: Tree)
    ensures var c := Pushed(Start(), [s], [tree]);
            c.states == [0, s] && c.forest == [tree] && c.pos == |Yield(tree)|
  {
    hide Yield, Yields;
    YieldsOne(tree);
    assert [] + [tree] == [tree] && [0] + [s] == [0, s];
  }

  lemma StartsParse(input: seq<Lexeme>, tree: Tree)
    requires |input| > 0 && Yield(tree) == input[..|input| - 1]
    ensures At(input, 0, Yield(tree)) && 0 + |Yield(tree)| == |input| - 1
  {
    assert input[0..|input| - 1] == input[..|input| - 1];
  }

  lemma StartLookahead(g: Grammar, f: FirstInfo, a: Automaton, t: seq<nat>)
    requires ServedBy(g, f, a, t)
    ensures |a.states| > 0 && Item(0, 0) in a.states[0] && NotFinal(g, Item(0, 0))
    ensures 0 in Contribution(g, f, a.states[0], Item(0, 0))
  {
    hide CoreAutomaton, FirstClosed, TableComplete;
    SameSize(g, a);
  }

  lemma AcceptTurn(g: Grammar, f: FirstInfo, a: Automaton, t: seq<nat>, input: seq<Lexeme>, s1: nat, c1: Config)
    requires ServedBy(g, f, a, t)
    requires |a.trans| == |a.states| > 0 && Item(0, 0) in a.states[0] && NotFinal(g, Item(0, 0))
    requires LookaheadEdge(g, a, 0, Item(0, 0)) && s1 == a.trans[0][Curr(g, Item(0, 0))]
    requires c1.states == [0, s1] && c1.pos < |input| && input[c1.pos].tok == 0
    ensures Steps(g, t, input, Running(c1), 1) == Accepted(c1)
  {
    hide CoreAutomaton, FirstClosed, TableComplete, Cell;
    assert 0 in a.states[0][Item(0, 0)] && 0 in a.states[s1][Item(0, 1)];
    ReduceCell(g, f, a, t, s1, 0, 0);
    LastTurn(g, t, input, c1);
  }

  // ------------------------------------------------ the language, and unambiguity

  lemma {:induction false} StepsStay(g: Grammar, t: seq<nat>, input: seq<Lexeme>, n: nat, m: nat)
    requires n <= m && !Run(g, t, input, n).Running?
    ensures Run(g, t, input, m) == Run(g, t, input, n)
  {
    StepsAdd(g, t, input, Running(Start()), n, m - n);
  }

  /** The driver accepts exactly the sentences of the grammar, followed by end of input. */
  lemma Decides(g: Grammar, a: Automaton, t: seq<nat>, input: seq<Lexeme>)
    requires Setting(g, a, t, input) && EofOnly(a) && TableServes(g, t)
    ensures (exists n: nat :: Run(g, t, input, n).Accepted?)
       <==> (input[|input| - 1].tok == 0 && InLanguage(g, Symbols(input[..|input| - 1])))
  {
    hide TableServes, CoreAutomaton, TableSound, Run;
    if n: nat :| Run(g, t, input, n).Accepted? {
      Soundness(g, a, t, input, n);
    }
    if input[|input| - 1].tok == 0 && InLanguage(g, Symbols(input[..|input| - 1])) {
      var tree := TreeOfLanguage(g, input[..|input| - 1]);
      Completeness(g, t, input, tree);
    }
  }

  /** A grammar with such a table has at most one start tree for each frontier. */
  lemma Unambiguous(g: Grammar, t: seq<nat>, input: seq<Lexeme>, t1: Tree, t2: Tree)
    requires g.WellFormed() && TableServes(g, t) && ParseOf(g, input, t1) && ParseOf(g, input, t2)
    ensures t1 == t2
  {
    hide TableServes, ParseOf, Run;
    Completeness(g, t, input, t1);
    Completeness(g, t, input, t2);
    if Size(t1) <= Size(t2) {
      StepsStay(g, t, input, Size(t1) + 1, Size(t2) + 1);
    } else {
      StepsStay(g, t, input, Size(t2) + 1, Size(t1) + 1);
    }
    assert [t1][0] == [t2][0];
  }
}
