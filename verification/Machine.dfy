/** The driver as a machine over configurations (src/lr.c): what every step of every run keeps. */
module Machines {
  import opened Grammars
  import opened Closures
  import opened Automata
  import opened Tables

  /** The state stack, the trees of the stacked symbols, and how many lexemes have been shifted. */
  datatype Config = Config(states: seq<nat>, forest: seq<Tree>, pos: nat)

  datatype Outcome =
    | Running(c: Config)
    | Accepted(c: Config)
    | SyntaxError(c: Config)
    | LexError(c: Config)
    | Stuck

  /** What the lexer returns: tokens, then end of input or a lexing error. */
  ghost predicate IsInput(g: Grammar, input: seq<Lexeme>) {
    && |input| > 0
    && AllTokens(g, input[..|input| - 1])
    && input[|input| - 1].tok <= 0
  }

  function Start(): Config {
    Config([0], [], 0)
  }

  /** One turn of the driver's loop. */
  function Step(g: Grammar, t: seq<nat>, input: seq<Lexeme>, c: Config): Outcome {
    if c.pos >= |input| || c.states == [] then Stuck
    else
      var la := input[c.pos];
      if la.tok < 0 then LexError(c)
      else
        match Cell(g, t, c.states[|c.states| - 1], la.tok)
        case Error => SyntaxError(c)
        case Shift(s) => Running(Config(c.states + [s], c.forest + [Leaf(la.tok, la.val)], c.pos + 1))
        case Reduce(r) => Reduced(g, t, c, r)
        case Accept => Accepted(c)
        case Garbage => Stuck
  }

  /** Pop the right-hand side of rule r and enter the state the goto cell names. */
  function Reduced(g: Grammar, t: seq<nat>, c: Config, r: nat): Outcome {
    if r >= |g.rules| || |g.rules[r].rhs| >= |c.states| || |g.rules[r].rhs| > |c.forest| then Stuck
    else
      var n := |g.rules[r].rhs|;
      var states, kids := c.states[..|c.states| - n], c.forest[|c.forest| - n..];
      Running(Config(states + [Goto(g, t, states[|states| - 1], g.rules[r].lhs)],
                     c.forest[..|c.forest| - n] + [Node(r, kids)], c.pos))
  }

  /** The driver masks the goto word without testing its mask bits. */
  function Goto(g: Grammar, t: seq<nat>, s: nat, x: nat): nat {
    if x < g.tokenN && Offset(g, s, x) < |t| then Payload(t[Offset(g, s, x)]) else 0
  }

  lemma ReducedOutcome(g: Grammar, t: seq<nat>, c: Config, r: nat)
    ensures Reduced(g, t, c, r).Running? || Reduced(g, t, c, r).Stuck?
  {
    hide Goto;
  }

  lemma ReducedRuns(g: Grammar, t: seq<nat>, c: Config, r: nat)
    requires r < |g.rules| && |g.rules[r].rhs| <= |c.forest| && |c.states| == |c.forest| + 1
    ensures Reduced(g, t, c, r).Running? && Reduced(g, t, c, r).c.pos == c.pos
  {
    hide Goto;
  }

  lemma GotoShift(g: Grammar, t: seq<nat>, s: nat, x: nat, target: nat)
    requires Cell(g, t, s, x) == Shift(target)
    ensures Goto(g, t, s, x) == target
  {
  }

  function Steps(g: Grammar, t: seq<nat>, input: seq<Lexeme>, o: Outcome, n: nat): Outcome
    decreases n
  {
    if n == 0 || !o.Running? then o else Steps(g, t, input, Step(g, t, input, o.c), n - 1)
  }

  function Run(g: Grammar, t: seq<nat>, input: seq<Lexeme>, n: nat): Outcome {
    Steps(g, t, input, Running(Start()), n)
  }

  lemma {:induction false} StepsAdd(g: Grammar, t: seq<nat>, input: seq<Lexeme>, o: Outcome, n: nat, m: nat)
    ensures Steps(g, t, input, o, n + m) == Steps(g, t, input, Steps(g, t, input, o, n), m)
    decreases n
  {
    if n > 0 && o.Running? {
      StepsAdd(g, t, input, Step(g, t, input, o.c), n - 1, m);
    }
  }

  lemma RunOneMore(g: Grammar, t: seq<nat>, input: seq<Lexeme>, n: nat)
    ensures var o := Run(g, t, input, n); Run(g, t, input, n + 1) == if o.Running? then Step(g, t, input, o.c) else o
  {
    hide Step;
    var o := Run(g, t, input, n);
    StepsAdd(g, t, input, Running(Start()), n, 1);
    if o.Running? {
      assert Steps(g, t, input, o, 1) == Steps(g, t, input, Step(g, t, input, o.c), 0);
    }
  }

  // ------------------------------------------------ single turns

  lemma TurnThen(g: Grammar, t: seq<nat>, input: seq<Lexeme>, c: Config, c': Config, n: nat)
    requires Step(g, t, input, c) == Running(c')
    ensures Steps(g, t, input, Running(c), n + 1) == Steps(g, t, input, Running(c'), n)
  {
  }

  lemma LastTurn(g: Grammar, t: seq<nat>, input: seq<Lexeme>, c: Config)
    requires c.pos < |input| && input[c.pos].tok >= 0 && c.states != []
    requires Cell(g, t, c.states[|c.states| - 1], input[c.pos].tok) == Accept
    ensures Steps(g, t, input, Running(c), 1) == Accepted(c)
  {
    hide Cell;
    assert Steps(g, t, input, Running(c), 1) == Steps(g, t, input, Accepted(c), 0);
  }

  lemma ShiftTurn(g: Grammar, t: seq<nat>, input: seq<Lexeme>, c: Config, s: nat, c': Config)
    requires c.pos < |input| && input[c.pos].tok >= 0 && c.states != []
    requires Cell(g, t, c.states[|c.states| - 1], input[c.pos].tok) == Shift(s)
    requires c'.states == c.states + [s] && c'.forest == c.forest + [Leaf(input[c.pos].tok, input[c.pos].val)] && c'.pos == c.pos + 1
    ensures Step(g, t, input, c) == Running(c')
  {
    hide Cell;
  }

  /** A reduction that leaves the states low and the trees below, and goes to state s. */
  lemma ReduceTurn(g: Grammar, t: seq<nat>, input: seq<Lexeme>, c: Config, r: nat, low: seq<nat>, below: seq<Tree>, kids: seq<Tree>, s: nat, c': Config)
    requires c.pos < |input| && input[c.pos].tok >= 0 && r < |g.rules| && |kids| == |g.rules[r].rhs| && low != []
    requires |c.states| == |low| + |kids| && c.states[..|low|] == low && c.forest == below + kids
    requires Cell(g, t, c.states[|c.states| - 1], input[c.pos].tok) == Reduce(r)
    requires Cell(g, t, low[|low| - 1], g.rules[r].lhs) == Shift(s)
    requires c' == Config(low + [s], below + [Node(r, kids)], c.pos)
    ensures Step(g, t, input, c) == Running(c')
  {
    hide Cell, Goto;
    assert c.forest[..|c.forest| - |kids|] == below && c.forest[|c.forest| - |kids|..] == kids;
    GotoShift(g, t, low[|low| - 1], g.rules[r].lhs, s);
  }

  // ------------------------------------------------ the invariant of every run

  /** The stack is a path of the graph over the roots of the forest, whose frontier is what has
      been shifted. */
  ghost predicate Inv(g: Grammar, a: Automaton, input: seq<Lexeme>, c: Config)
    requires |a.trans| == |a.states|
  {
    && Path(a, c.states, Roots(g, c.forest))
    && ValidForest(g, c.forest)
    && c.pos < |input|
    && Yields(c.forest) == input[..c.pos]
  }

  ghost predicate Good(g: Grammar, a: Automaton, input: seq<Lexeme>, o: Outcome)
    requires |a.trans| == |a.states|
  {
    !o.Stuck? && Inv(g, a, input, o.c)
  }

  /** The setting of the theorems: a state graph of the grammar, and a table filled from it. */
  ghost predicate Setting(g: Grammar, a: Automaton, t: seq<nat>, input: seq<Lexeme>) {
    && g.WellFormed()
    && CoreAutomaton(g, a)
    && TableSound(g, a, t)
    && IsInput(g, input)
  }

  /** What a configuration of a run looks like. */
  lemma InvShape(g: Grammar, a: Automaton, input: seq<Lexeme>, c: Config)
    requires |a.trans| == |a.states| && Inv(g, a, input, c)
    ensures |c.states| == |c.forest| + 1 && c.pos < |input| && ValidForest(g, c.forest)
    ensures forall k | 0 <= k < |c.states| :: c.states[k] < |a.states|
  {
  }

  lemma CellInTable(g: Grammar, a: Automaton, t: seq<nat>, input: seq<Lexeme>, s: nat, x: nat)
    requires Setting(g, a, t, input) && s < |a.states| && x < g.tokenN
    ensures Offset(g, s, x) < |t|
    ensures CellSound(g, a.states[s], a.trans[s], x, Cell(g, t, s, x))
  {
    hide CoreAutomaton;
    OffsetInTable(g, |a.states|, s, x);
  }

  /** A reduction in a cell is by a finished item of the state. */
  lemma CellReduce(g: Grammar, a: Automaton, t: seq<nat>, input: seq<Lexeme>, s: nat, x: nat, r: nat)
    requires Setting(g, a, t, input) && s < |a.states| && x < g.tokenN && Cell(g, t, s, x) == Reduce(r)
    ensures g.IsRule(r) && Item(r, |g.rules[r].rhs|) in a.Core(s)
  {
    hide CoreAutomaton, Cell;
    SameSize(g, a);
    CellInTable(g, a, t, input, s, x);
  }

  /** The cell of a nonterminal holds the transition over it, which the goto reads back. */
  lemma GotoCell(g: Grammar, a: Automaton, t: seq<nat>, input: seq<Lexeme>, s: nat, x: nat)
    requires Setting(g, a, t, input) && s < |a.states| && x in a.trans[s] && g.actionN <= x < g.tokenN
    ensures Cell(g, t, s, x) == Shift(a.trans[s][x])
    ensures Goto(g, t, s, x) == a.trans[s][x]
  {
    hide CoreClosure, Decode, Payload, Setting;
    CellInTable(g, a, t, input, s, x);
    NonterminalCell(g, a, t, input, s, x);
    DecodeShift(t[Offset(g, s, x)]);
  }

  lemma NonterminalCell(g: Grammar, a: Automaton, t: seq<nat>, input: seq<Lexeme>, s: nat, x: nat)
    requires Setting(g, a, t, input) && s < |a.states| && x in a.trans[s] && g.actionN <= x < g.tokenN
    ensures Cell(g, t, s, x) == Shift(a.trans[s][x])
  {
    hide CoreClosure, Cell;
    CellInTable(g, a, t, input, s, x);
    assert Candidate(g, a.states[s], a.trans[s], x, Shift(a.trans[s][x]));
    assert Bounded(g, a.states[s]);
  }

  /** The top of the stack is the right-hand side of rule r, over a state whose goto cell for the
      left side holds a shift. */
  ghost predicate HandleOnTop(g: Grammar, a: Automaton, t: seq<nat>, c: Config, r: nat)
    requires g.IsRule(r) && |a.trans| == |a.states|
  {
    var n, x := |g.rules[r].rhs|, g.rules[r].lhs;
    && n <= |c.forest| < |c.states|
    && Roots(g, c.forest[|c.forest| - n..]) == g.rules[r].rhs
    && g.actionN <= x < g.tokenN
    && var below := c.states[|c.forest| - n];
       && below < |a.states|
       && x in a.trans[below]
       && Cell(g, t, below, x) == Shift(a.trans[below][x])
       && Goto(g, t, below, x) == a.trans[below][x]
  }

  /** Handle validity: when a final item is on top of the stack, its right-hand side is. */
  lemma ReduceHandle(g: Grammar, a: Automaton, t: seq<nat>, input: seq<Lexeme>, c: Config, r: nat)
    requires Setting(g, a, t, input) && Inv(g, a, input, c) && g.IsRule(r)
    requires Item(r, |g.rules[r].rhs|) in a.Core(c.states[|c.forest|])
    ensures HandleOnTop(g, a, t, c, r)
  {
    hide CoreAutomaton, TableSound, IsInput;
    SameSize(g, a);
    var n := |g.rules[r].rhs|;
    var syms := Roots(g, c.forest);
    PathHandle(g, a, c.states, syms, r);
    assert Roots(g, c.forest[|c.forest| - n..]) == syms[|syms| - n..];
    GotoCell(g, a, t, input, c.states[|c.forest| - n], g.rules[r].lhs);
  }

  lemma SameSize(g: Grammar, a: Automaton)
    requires CoreAutomaton(g, a)
    ensures |a.trans| == |a.states| > 0
  {
  }

  lemma PathHandle(g: Grammar, a: Automaton, states: seq<nat>, syms: seq<nat>, r: nat)
    requires g.WellFormed() && CoreAutomaton(g, a) && Path(a, states, syms) && g.IsRule(r)
    requires Item(r, |g.rules[r].rhs|) in a.Core(states[|syms|])
    ensures |g.rules[r].rhs| <= |syms| && syms[|syms| - |g.rules[r].rhs|..] == g.rules[r].rhs
    ensures g.rules[r].lhs in a.trans[states[|syms| - |g.rules[r].rhs|]]
  {
    hide CoreAutomaton;
    SameSize(g, a);
    var n := |g.rules[r].rhs|;
    Handle(g, a, states, syms, Item(r, n));
    assert g.rules[r].rhs[..n] == g.rules[r].rhs;
    StackTransition(g, a, states, syms, |syms| - n, r);
  }

  /** The state of a path that has a rule with the dot in front has a transition for its left side. */
  lemma StackTransition(g: Grammar, a: Automaton, states: seq<nat>, syms: seq<nat>, k: nat, r: nat)
    requires g.WellFormed() && CoreAutomaton(g, a) && Path(a, states, syms) && k <= |syms|
    requires g.IsRule(r) && Item(r, 0) in a.Core(states[k])
    ensures g.rules[r].lhs in a.trans[states[k]]
  {
    var kernel: set<Item>;
    if k == 0 {
      kernel := {Item(0, 0)};
    } else {
      assert Link(a, states[k - 1], syms[k - 1], states[k]);
      assert Edge(g, a, states[k - 1], syms[k - 1]);
      kernel := AdvanceCore(g, a.Core(states[k - 1]), syms[k - 1]);
    }
    CoreJustified(g, kernel, a.Core(states[k]), r);
  }

  /** An added item expands a symbol that is after some dot. */
  lemma CoreJustified(g: Grammar, kernel: set<Item>, k: set<Item>, r: nat)
    requires g.WellFormed() && CoreClosure(g, kernel, k) && g.IsRule(r) && Item(r, 0) in k && Item(r, 0) !in kernel
    ensures g.rules[r].lhs in NextSymbols(g, k)
  {
    var x := g.rules[r].lhs;
    if x !in NextSymbols(g, k) {
      var other := k - {Item(r, 0)};
      forall i, q: nat | i in other && AtNonterminal(g, i) && q < |g.rules| && g.rules[q].lhs == Curr(g, i)
        ensures Item(q, 0) in other
      {
        assert i in k && Item(q, 0) in k;
        assert Curr(g, i) in NextSymbols(g, k);
      }
      assert CoreClosed(g, other);
    }
  }

  /** The invariant after one more tree over a transition of the top state. */
  lemma InvPush(g: Grammar, a: Automaton, input: seq<Lexeme>, c: Config, tree: Tree, pos: nat)
    requires CoreAutomaton(g, a) && Inv(g, a, input, c)
    requires Valid(g, tree) && Root(g, tree) in a.trans[c.states[|c.forest|]]
    requires pos < |input| && Yields(c.forest) + Yield(tree) == input[..pos]
    ensures Inv(g, a, input, Config(c.states + [a.trans[c.states[|c.forest|]][Root(g, tree)]], c.forest + [tree], pos))
  {
    hide CoreAutomaton;
    PathPush(g, a, c.states, Roots(g, c.forest), Root(g, tree));
    assert Roots(g, c.forest + [tree]) == Roots(g, c.forest) + [Root(g, tree)];
    YieldsPush(c.forest, tree);
  }

  /** The invariant of the lower part of a stack. */
  lemma InvPop(g: Grammar, a: Automaton, input: seq<Lexeme>, c: Config, m: nat)
    requires |a.trans| == |a.states| && Inv(g, a, input, c) && m <= |c.forest|
    ensures var pos := |Yields(c.forest[..m])|;
            && pos <= c.pos
            && Inv(g, a, input, Config(c.states[..m + 1], c.forest[..m], pos))
            && Yields(c.forest[..m]) + Yields(c.forest[m..]) == input[..c.pos]
  {
    PathPrefix(a, c.states, Roots(g, c.forest), m);
    assert Roots(g, c.forest[..m]) == Roots(g, c.forest)[..m];
    assert c.forest == c.forest[..m] + c.forest[m..];
    YieldsAppend(c.forest[..m], c.forest[m..]);
    var pos := |Yields(c.forest[..m])|;
    assert Yields(c.forest[..m]) == input[..c.pos][..pos] == input[..pos];
  }

  /** Shifting keeps the invariant. */
  lemma ShiftKeeps(g: Grammar, a: Automaton, t: seq<nat>, input: seq<Lexeme>, c: Config)
    requires Setting(g, a, t, input) && Inv(g, a, input, c) && 0 <= input[c.pos].tok < g.actionN
    requires input[c.pos].tok in a.trans[c.states[|c.forest|]]
    ensures var x := input[c.pos].tok;
            Inv(g, a, input, Config(c.states + [a.trans[c.states[|c.forest|]][x]], c.forest + [Leaf(x, input[c.pos].val)], c.pos + 1))
  {
    hide CoreAutomaton, TableSound, IsInput;
    SameSize(g, a);
    var la := input[c.pos];
    TransitionSymbol(g, a, c.states[|c.forest|], la.tok);
    NotLast(g, input, c.pos);
    assert input[..c.pos + 1] == input[..c.pos] + [la];
    InvPush(g, a, input, c, Leaf(la.tok, la.val), c.pos + 1);
  }

  /** No state has a transition on end of input. */
  lemma TransitionSymbol(g: Grammar, a: Automaton, s: nat, x: nat)
    requires g.WellFormed() && CoreAutomaton(g, a) && s < |a.states| && x in a.trans[s]
    ensures 0 < x < g.tokenN
  {
    assert x in NextSymbols(g, a.Core(s));
    var it :| it in a.Core(s) && NotFinal(g, it) && Curr(g, it) == x;
    if it.rule == 0 {
      assert 0 < g.rules[0].rhs[it.dot] < g.tokenN;
    }
  }

  /** Reducing keeps the invariant. */
  lemma ReduceKeeps(g: Grammar, a: Automaton, t: seq<nat>, input: seq<Lexeme>, c: Config, r: nat)
    requires Setting(g, a, t, input) && Inv(g, a, input, c) && g.IsRule(r)
    requires Item(r, |g.rules[r].rhs|) in a.Core(c.states[|c.forest|])
    ensures var o := Reduced(g, t, c, r); o.Running? && Inv(g, a, input, o.c) && o.c.pos == c.pos
  {
    hide CoreAutomaton, TableSound;
    SameSize(g, a);
    ReduceHandle(g, a, t, input, c, r);
    var m := |c.forest| - |g.rules[r].rhs|;
    InvPop(g, a, input, c, m);
    var low := Config(c.states[..m + 1], c.forest[..m], |Yields(c.forest[..m])|);
    var node := Node(r, c.forest[m..]);
    assert Valid(g, node);
    assert c.states[..|c.states| - |g.rules[r].rhs|] == low.states;
    InvPush(g, a, input, low, node, c.pos);
  }

  /** Every step of every run keeps the invariant, and no run gets stuck. */
  lemma StepKeeps(g: Grammar, a: Automaton, t: seq<nat>, input: seq<Lexeme>, c: Config)
    requires Setting(g, a, t, input) && Inv(g, a, input, c)
    ensures Good(g, a, input, Step(g, t, input, c))
    ensures Step(g, t, input, c).Accepted? ==> Reduces(g, a.states[c.states[|c.forest|]], 0, input[c.pos].tok)
  {
    hide CoreClosure;
    var la := input[c.pos];
    if la.tok >= 0 {
      var s := c.states[|c.forest|];
      InputAt(g, input, c.pos);
      CellInTable(g, a, t, input, s, la.tok);
      match Cell(g, t, s, la.tok)
      case Shift(_) =>
        ShiftKeeps(g, a, t, input, c);
        TransitionSymbol(g, a, s, la.tok);
        NotLast(g, input, c.pos);
      case Reduce(r) => ReduceKeeps(g, a, t, input, c, r);
      case _ =>
    }
  }

  lemma InputAt(g: Grammar, input: seq<Lexeme>, pos: nat)
    requires IsInput(g, input) && pos < |input|
    ensures pos < |input| - 1 ==> 0 < input[pos].tok < g.actionN
  {
    assert pos < |input| - 1 ==> input[..|input| - 1][pos] == input[pos];
  }

  lemma NotLast(g: Grammar, input: seq<Lexeme>, pos: nat)
    requires IsInput(g, input) && pos < |input| && input[pos].tok > 0
    ensures pos < |input| - 1
  {
  }

  lemma StartInv(g: Grammar, a: Automaton, input: seq<Lexeme>)
    requires CoreAutomaton(g, a) && IsInput(g, input)
    ensures |a.trans| == |a.states| && Inv(g, a, input, Start())
  {
    assert Roots(g, []) == [];
  }

  lemma {:induction false} StepsKeep(g: Grammar, a: Automaton, t: seq<nat>, input: seq<Lexeme>, o: Outcome, n: nat)
    requires Setting(g, a, t, input) && Good(g, a, input, o)
    ensures Good(g, a, input, Steps(g, t, input, o, n))
    decreases n
  {
    hide CoreAutomaton, TableSound, Inv;
    if n > 0 && o.Running? {
      StepKeeps(g, a, t, input, o.c);
      StepsKeep(g, a, t, input, Step(g, t, input, o.c), n - 1);
    }
  }

  /** In every configuration of every run the stack is a path of the graph and the forest's
      frontier is the input read so far. No run gets stuck: tokens, rules and stack are as the assertions
      at src/lr.c 53, 66 and 268 demand. The one on the lookahead's slot, at 282, is a matter of memory. */
  lemma RunSafe(g: Grammar, a: Automaton, t: seq<nat>, input: seq<Lexeme>, n: nat)
    requires Setting(g, a, t, input)
    ensures Good(g, a, input, Run(g, t, input, n))
  {
    StartInv(g, a, input);
    StepsKeep(g, a, t, input, Running(Start()), n);
  }

  /** Viable prefix: in every configuration the stack begins a sentential form. */
  lemma RunViable(g: Grammar, a: Automaton, t: seq<nat>, input: seq<Lexeme>, n: nat)
    requires Setting(g, a, t, input)
    ensures var o := Run(g, t, input, n);
            !o.Stuck? && exists rest: seq<nat> :: DerivesStar(g, [g.Start()], Roots(g, o.c.forest) + rest)
  {
    RunSafe(g, a, t, input, n);
    var c := Run(g, t, input, n).c;
    ViablePrefix(g, a, c.states, Roots(g, c.forest));
  }
}
