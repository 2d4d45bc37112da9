/** What runs show of the input so far: where a run stops for good the tokens shifted begin a sentence,
    at a syntax error the lookahead does not continue one, and on a table that serves every run ends. */
module Prefixes {
  import opened Grammars
  import opened Closures
  import opened Automata
  import opened Tables
  import opened Machines
  import opened Parsing
  import opened Necessity

  // ------------------------------------------------ the stack begins a sentence

  /** The state at the end of a path has an item. */
  lemma PathItem(g: Grammar, a: Automaton, states: seq<nat>, syms: seq<nat>) returns (it: Item)
    requires g.WellFormed() && CoreAutomaton(g, a) && Path(a, states, syms)
    ensures it in a.Core(states[|syms|]) && InRange(g, it)
  {
    hide CoreClosure;
    var n := |syms|;
    if n == 0 {
      it := Item(0, 0);
      StartItem(g, a);
    } else {
      assert Link(a, states[n - 1], syms[n - 1], states[n]);
      assert syms[n - 1] in NextSymbols(g, a.Core(states[n - 1]));
      var from :| from in a.Core(states[n - 1]) && NotFinal(g, from) && Curr(g, from) == syms[n - 1];
      assert Edge(g, a, states[n - 1], syms[n - 1]);
      AdvancedIn(g, a.Core(states[n - 1]), from, a.Core(states[n]));
      it := Item(from.rule, from.dot + 1);
    }
  }

  lemma StartItem(g: Grammar, a: Automaton)
    requires g.WellFormed() && CoreAutomaton(g, a)
    ensures Item(0, 0) in a.Core(0) && InRange(g, Item(0, 0))
  {
  }

  /** Some sentence has the stacked trees on the way to its tree. */
  lemma StackSentence(g: Grammar, a: Automaton, input: seq<Lexeme>, c: Config, v: Value) returns (tree: Tree, input': seq<Lexeme>)
    requires g.WellFormed() && CoreAutomaton(g, a) && |a.trans| == |a.states| && Productive(g) && Inv(g, a, input, c)
    ensures IsInput(g, input') && ParseOf(g, input', tree) && OnTheWay(tree, c.forest)
    ensures c.pos < |input'| && input'[..c.pos] == input[..c.pos]
  {
    hide CoreAutomaton, Productive, Stands, OnTheWay, Gathered, ParseOf, IsInput, Path, ValidForest, Yields;
    var syms := Roots(g, c.forest);
    var it := PathItem(g, a, c.states, syms);
    PathStands(g, a, c.states, syms);
    assert SomeStands(g, syms, it);
    var x: nat, n: nat :| Stands(g, syms, it, x, n);
    RuleSymbols(g, it.rule, it.dot);
    var rest := AnyForest(g, g.rules[it.rule].rhs[it.dot..], v);
    tree, input' := Sentence(g, syms, it, x, n, c.forest, rest, v);
    Unwinding(c.forest, rest);
    WayBack(tree, c.forest + rest, Sizes(rest));
    YieldsAppend(c.forest, rest);
    PrefixOf(input', Yields(c.forest), Yields(rest));
    assert |input[..c.pos]| == c.pos;
  }

  lemma PrefixOf(input: seq<Lexeme>, w: seq<Lexeme>, more: seq<Lexeme>)
    requires |w + more| < |input| && input[..|w + more|] == w + more
    ensures |w| < |input| && input[..|w|] == w
  {
    assert input[..|w|] == input[..|w + more|][..|w|];
  }

  /** Some sentence begins with these tokens. */
  ghost predicate BeginsSentence(g: Grammar, w: seq<nat>)
    requires g.WellFormed()
  {
    exists more: seq<nat> :: InLanguage(g, w + more)
  }

  /** In every configuration of every run, whatever the conflicts, the tokens shifted begin a sentence. */
  lemma ShiftedBegins(g: Grammar, a: Automaton, t: seq<nat>, input: seq<Lexeme>, n: nat, v: Value)
    requires Setting(g, a, t, input) && Productive(g)
    ensures !Run(g, t, input, n).Stuck? && Run(g, t, input, n).c.pos < |input|
    ensures BeginsSentence(g, Symbols(input[..Run(g, t, input, n).c.pos]))
  {
    hide CoreAutomaton, TableSound, Productive, Run, Inv, InLanguage, ParseOf, OnTheWay, AllTokens;
    RunSafe(g, a, t, input, n);
    SameSize(g, a);
    var c := Run(g, t, input, n).c;
    InvShape(g, a, input, c);
    var tree, input' := StackSentence(g, a, input, c, v);
    ParseIsSentence(g, input', tree);
    PrefixSymbols(input, input', c.pos);
  }

  lemma PrefixSymbols(input: seq<Lexeme>, input': seq<Lexeme>, p: nat)
    requires p < |input| && p < |input'| && input[..p] == input'[..p]
    ensures Symbols(input'[..|input'| - 1]) == Symbols(input[..p]) + Symbols(input'[p..|input'| - 1])
  {
    assert input'[..|input'| - 1] == input[..p] + input'[p..|input'| - 1];
    SymbolsAppend(input[..p], input'[p..|input'| - 1]);
  }

  // ------------------------------------------------ runs over a common prefix

  lemma StepAgrees(g: Grammar, t: seq<nat>, input: seq<Lexeme>, input': seq<Lexeme>, c: Config)
    requires c.pos < |input| && c.pos < |input'| && input[c.pos] == input'[c.pos]
    ensures Step(g, t, input, c) == Step(g, t, input', c)
  {
    hide Cell, Reduced;
  }

  /** Every lexeme read in the first n turns is one of the first q. */
  ghost predicate ReadsBelow(g: Grammar, t: seq<nat>, input: seq<Lexeme>, n: nat, q: nat) {
    forall k: nat | k < n :: Run(g, t, input, k).Running? ==> Run(g, t, input, k).c.pos < q
  }

  lemma {:induction false} RunAgrees(g: Grammar, t: seq<nat>, input: seq<Lexeme>, input': seq<Lexeme>, n: nat, q: nat)
    requires q <= |input| && q <= |input'| && input[..q] == input'[..q] && ReadsBelow(g, t, input, n, q)
    ensures Run(g, t, input, n) == Run(g, t, input', n)
    decreases n
  {
    hide Run, Step;
    RunFromStart(g, t, input);
    RunFromStart(g, t, input');
    if n > 0 {
      RunAgrees(g, t, input, input', n - 1, q);
      RunOneMore(g, t, input, n - 1);
      RunOneMore(g, t, input', n - 1);
      var o := Run(g, t, input, n - 1);
      if o.Running? {
        assert input[o.c.pos] == input[..q][o.c.pos] == input'[..q][o.c.pos] == input'[o.c.pos];
        StepAgrees(g, t, input, input', o.c);
      }
    }
  }

  lemma StepPosition(g: Grammar, t: seq<nat>, input: seq<Lexeme>, c: Config)
    ensures var o := Step(g, t, input, c); o.Stuck? || c.pos <= o.c.pos <= c.pos + 1
    ensures var o := Step(g, t, input, c); o.Running? && o.c.pos == c.pos ==>
              c.pos < |input| && c.states != [] && input[c.pos].tok >= 0 && Cell(g, t, c.states[|c.states| - 1], input[c.pos].tok).Reduce?
  {
    hide Cell, Goto;
  }

  lemma {:induction false} PositionRises(g: Grammar, t: seq<nat>, input: seq<Lexeme>, n: nat, m: nat)
    requires n <= m && !Run(g, t, input, m).Stuck?
    ensures !Run(g, t, input, n).Stuck? && Run(g, t, input, n).c.pos <= Run(g, t, input, m).c.pos
    decreases m
  {
    hide Run, Step;
    if n < m {
      RunOneMore(g, t, input, m - 1);
      var o := Run(g, t, input, m - 1);
      if o.Running? {
        StepPosition(g, t, input, o.c);
      }
      PositionRises(g, t, input, n, m - 1);
    }
  }

  // ------------------------------------------------ the correct-prefix property

  /** Any lexemes for the tokens. */
  function Lexemes(w: seq<nat>, v: Value): (s: seq<Lexeme>)
    ensures Symbols(s) == w
  {
    seq(|w|, i requires 0 <= i < |w| => Lexeme(w[i], v))
  }

  /** No sentence begins as the input read at a syntax error: it would be accepted. */
  lemma ErrorEndsSentence(g: Grammar, a: Automaton, t: seq<nat>, input: seq<Lexeme>, n: nat, input': seq<Lexeme>, tree: Tree)
    requires Setting(g, a, t, input) && TableServes(g, t) && Run(g, t, input, n).SyntaxError?
    requires var q := Run(g, t, input, n).c.pos + 1; q <= |input| && q <= |input'| && input[..q] == input'[..q]
    ensures !ParseOf(g, input', tree)
  {
    hide Setting, TableServes, Run, ParseOf;
    var q := Run(g, t, input, n).c.pos + 1;
    forall k: nat | k < n && Run(g, t, input, k).Running?
      ensures Run(g, t, input, k).c.pos < q
    {
      PositionRises(g, t, input, k, n);
    }
    RunAgrees(g, t, input, input', n, q);
    SettingGrammar(g, a, t, input);
    if ParseOf(g, input', tree) {
      Completeness(g, t, input', tree);
      var e := Size(tree) + 1;
      StepsStay(g, t, input', if e <= n then e else n, if e <= n then n else e);
    }
  }

  lemma SettingGrammar(g: Grammar, a: Automaton, t: seq<nat>, input: seq<Lexeme>)
    requires Setting(g, a, t, input)
    ensures g.WellFormed() && IsInput(g, input)
  {
  }

  /** No sentence begins as the input read at a syntax error: with the tokens shifted and the lookahead,
      or, if that is end of input, is the tokens shifted. */
  lemma LookaheadEnds(g: Grammar, a: Automaton, t: seq<nat>, input: seq<Lexeme>, n: nat, v: Value)
    requires Setting(g, a, t, input) && TableServes(g, t) && Run(g, t, input, n).SyntaxError?
    ensures var c := Run(g, t, input, n).c;
            && c.pos < |input| && input[c.pos].tok >= 0
            && (input[c.pos].tok > 0 ==> !BeginsSentence(g, Symbols(input[..c.pos + 1])))
            && (input[c.pos].tok == 0 ==> !InLanguage(g, Symbols(input[..c.pos])))
  {
    hide Setting, TableServes, Run, InLanguage, ParseOf, Symbols, CoreAutomaton, AllTokens;
    SettingGrammar(g, a, t, input);
    ErrorToken(g, a, t, input, n);
    var c := Run(g, t, input, n).c;
    if input[c.pos].tok > 0 && BeginsSentence(g, Symbols(input[..c.pos + 1])) {
      var more: seq<nat> :| InLanguage(g, Symbols(input[..c.pos + 1]) + more);
      var w := input[..c.pos + 1] + Lexemes(more, v);
      SymbolsAppend(input[..c.pos + 1], Lexemes(more, v));
      var tree, input' := Sentenced(g, w, v);
      assert input'[..c.pos + 1] == w[..c.pos + 1] == input[..c.pos + 1];
      ErrorEndsSentence(g, a, t, input, n, input', tree);
    }
    if input[c.pos].tok == 0 && InLanguage(g, Symbols(input[..c.pos])) {
      LastLexeme(g, input, c.pos);
      var tree := TreeOfLanguage(g, input[..c.pos]);
      WholeInput(g, input, c.pos, tree);
      assert input[..c.pos + 1] == input;
      ErrorEndsSentence(g, a, t, input, n, input, tree);
    }
  }

  lemma ErrorToken(g: Grammar, a: Automaton, t: seq<nat>, input: seq<Lexeme>, n: nat)
    requires Setting(g, a, t, input) && Run(g, t, input, n).SyntaxError?
    ensures Run(g, t, input, n).c.pos < |input| && input[Run(g, t, input, n).c.pos].tok >= 0
    decreases n
  {
    hide Setting, Run, Cell, Reduced;
    RunFromStart(g, t, input);
    RunOneMore(g, t, input, n - 1);
    var o := Run(g, t, input, n - 1);
    if o.Running? {
      ErrorStep(g, t, input, o.c);
    } else {
      ErrorToken(g, a, t, input, n - 1);
    }
  }

  lemma ErrorStep(g: Grammar, t: seq<nat>, input: seq<Lexeme>, c: Config)
    requires Step(g, t, input, c).SyntaxError?
    ensures Step(g, t, input, c).c == c && c.pos < |input| && input[c.pos].tok >= 0
  {
    hide Cell, Goto;
  }

  lemma LastLexeme(g: Grammar, input: seq<Lexeme>, p: nat)
    requires IsInput(g, input) && p < |input| && input[p].tok == 0
    ensures p == |input| - 1
  {
    InputAt(g, input, p);
  }

  lemma WholeInput(g: Grammar, input: seq<Lexeme>, p: nat, tree: Tree)
    requires g.WellFormed() && |input| == p + 1 && input[p].tok == 0
    requires Valid(g, tree) && Root(g, tree) == g.Start() && Yield(tree) == input[..p]
    ensures ParseOf(g, input, tree)
  {
  }

  /** The tree of a sentence, and the sentence as an input. */
  lemma Sentenced(g: Grammar, w: seq<Lexeme>, v: Value) returns (tree: Tree, input: seq<Lexeme>)
    requires g.WellFormed() && InLanguage(g, Symbols(w))
    ensures input == w + [Lexeme(0, v)] && ParseOf(g, input, tree)
  {
    tree := TreeOfLanguage(g, w);
    input := w + [Lexeme(0, v)];
    assert input[..|w|] == w;
  }

  /** The correct-prefix property: at a syntax error the tokens shifted begin a sentence, and nothing
      more of the input does. */
  lemma CorrectPrefix(g: Grammar, a: Automaton, t: seq<nat>, input: seq<Lexeme>, n: nat, v: Value)
    requires Setting(g, a, t, input) && Productive(g) && TableServes(g, t) && Run(g, t, input, n).SyntaxError?
    ensures var c := Run(g, t, input, n).c;
            && c.pos < |input| && BeginsSentence(g, Symbols(input[..c.pos]))
            && (if input[c.pos].tok > 0 then !BeginsSentence(g, Symbols(input[..c.pos + 1])) else !InLanguage(g, Symbols(input[..c.pos])))
  {
    hide Setting, Productive, TableServes, Run, InLanguage;
    ShiftedBegins(g, a, t, input, n, v);
    LookaheadEnds(g, a, t, input, n, v);
  }

  // ------------------------------------------------ every run ends

  ghost predicate Endless(g: Grammar, t: seq<nat>, input: seq<Lexeme>) {
    forall n: nat :: Run(g, t, input, n).Running?
  }

  /** From turn m on, nothing more is read; m is the first such turn. */
  ghost predicate Settled(g: Grammar, t: seq<nat>, input: seq<Lexeme>, m: nat)
    requires Endless(g, t, input)
  {
    && (forall n: nat | n >= m :: Run(g, t, input, n).c.pos == Run(g, t, input, m).c.pos)
    && (forall n: nat | n < m :: Run(g, t, input, n).c.pos < Run(g, t, input, m).c.pos)
  }

  lemma {:induction false} Settles(g: Grammar, a: Automaton, t: seq<nat>, input: seq<Lexeme>, m: nat) returns (k: nat)
    requires Setting(g, a, t, input) && Endless(g, t, input)
    ensures forall n: nat | n >= k :: Run(g, t, input, n).c.pos == Run(g, t, input, k).c.pos
    decreases |input| - Run(g, t, input, m).c.pos
  {
    hide Setting, Run;
    if n: nat :| n >= m && Run(g, t, input, n).c.pos != Run(g, t, input, m).c.pos {
      assert Run(g, t, input, n).Running?;
      PositionRises(g, t, input, m, n);
      RunPosition(g, a, t, input, n);
      k := Settles(g, a, t, input, n);
    } else {
      k := m;
    }
  }

  lemma RunPosition(g: Grammar, a: Automaton, t: seq<nat>, input: seq<Lexeme>, n: nat)
    requires Setting(g, a, t, input)
    ensures !Run(g, t, input, n).Stuck? && Run(g, t, input, n).c.pos < |input|
  {
    hide CoreAutomaton, TableSound, IsInput, Run, Path;
    RunSafe(g, a, t, input, n);
    SameSize(g, a);
  }

  lemma {:induction false} FirstSettled(g: Grammar, t: seq<nat>, input: seq<Lexeme>, k: nat) returns (m: nat)
    requires Endless(g, t, input) && forall n: nat | n >= k :: Run(g, t, input, n).c.pos == Run(g, t, input, k).c.pos
    ensures Settled(g, t, input, m)
    decreases k
  {
    hide Run;
    if k > 0 && Run(g, t, input, k - 1).c.pos == Run(g, t, input, k).c.pos {
      m := FirstSettled(g, t, input, k - 1);
    } else {
      m := k;
      forall n: nat | n < k
        ensures Run(g, t, input, n).c.pos < Run(g, t, input, k).c.pos
      {
        assert Run(g, t, input, k).Running? && Run(g, t, input, k - 1).Running?;
        PositionRises(g, t, input, n, k - 1);
        PositionRises(g, t, input, k - 1, k);
      }
    }
  }

  /** The token y would make the same reduction in turn i. */
  ghost predicate SameMove(g: Grammar, t: seq<nat>, input: seq<Lexeme>, y: nat, i: nat) {
    && Run(g, t, input, i).Running?
    && var c := Run(g, t, input, i).c;
       && c.states != [] && c.pos < |input| && input[c.pos].tok >= 0
       && Cell(g, t, c.states[|c.states| - 1], y) == Cell(g, t, c.states[|c.states| - 1], input[c.pos].tok)
       && Cell(g, t, c.states[|c.states| - 1], y).Reduce?
  }

  ghost predicate SameMoves(g: Grammar, t: seq<nat>, input: seq<Lexeme>, y: nat, m: nat, k: nat) {
    forall i: nat | m <= i < k :: SameMove(g, t, input, y, i)
  }

  /** Some sentence begins with the first p lexemes and goes on with the token y. */
  ghost predicate GoesOn(g: Grammar, input: seq<Lexeme>, p: nat, y: nat)
    requires g.WellFormed() && p <= |input|
  {
    exists input', tree :: Continues(g, input, p, y, input', tree)
  }

  ghost predicate Continues(g: Grammar, input: seq<Lexeme>, p: nat, y: nat, input': seq<Lexeme>, tree: Tree)
    requires g.WellFormed() && p <= |input|
  {
    IsInput(g, input') && ParseOf(g, input', tree) && p < |input'| && input'[..p] == input[..p] && input'[p].tok == y
  }

  /** After a reduction the last tree is its node. */
  lemma ReducedLast(g: Grammar, t: seq<nat>, input: seq<Lexeme>, c: Config)
    requires Step(g, t, input, c).Running? && Step(g, t, input, c).c.pos == c.pos
    ensures var f := Step(g, t, input, c).c.forest; f != [] && f[|f| - 1].Node?
    ensures c.pos < |input| && input[c.pos].tok >= 0 && c.states != []
    ensures Cell(g, t, c.states[|c.states| - 1], input[c.pos].tok).Reduce?
  {
    hide Cell, Goto;
  }

  /** Two runs over one stack that leave the same node have found the same reduction. */
  lemma SameTurn(g: Grammar, a: Automaton, t: seq<nat>, input: seq<Lexeme>, i: nat, input': seq<Lexeme>, k: nat, y: nat)
    requires Setting(g, a, t, input) && Setting(g, a, t, input') && Run(g, t, input, i).Running? && Run(g, t, input', k).Running?
    requires var c := Run(g, t, input, i).c;
             c.pos < |input'| && c.pos <= |input| && input'[..c.pos] == input[..c.pos] && input'[c.pos].tok == y
    requires var o, o' := Step(g, t, input, Run(g, t, input, i).c), Step(g, t, input', Run(g, t, input', k).c);
             && o.Running? && o'.Running? && o.c.forest == o'.c.forest
             && o.c.forest != [] && o.c.forest[|o.c.forest| - 1].Node?
    requires Run(g, t, input', k).c.forest == Run(g, t, input, i).c.forest
    ensures SameMove(g, t, input, y, i)
  {
    hide CoreAutomaton, TableSound, Run, Step, Cell, AllTokens, Path;
    var c, d := Run(g, t, input, i).c, Run(g, t, input', k).c;
    var forest := Step(g, t, input, c).c.forest;
    var last := |forest| - 1;
    assert forest == forest[..last] + [Node(forest[last].rule, forest[last].kids)];
    TurnReduce(g, t, input, c, forest[..last], forest[last].rule, forest[last].kids);
    TurnReduce(g, t, input', d, forest[..last], forest[last].rule, forest[last].kids);
    RunSafe(g, a, t, input, i);
    SameSize(g, a);
    assert |input[..c.pos]| == c.pos;
    assert Precedes(input', d.forest, y);
    StackTop(g, a, t, input', k, c.states, y);
  }

  /** Turn i of an endless run, seen from the sentence for the stack of a later turn. */
  lemma EarlierMove(g: Grammar, a: Automaton, t: seq<nat>, input: seq<Lexeme>, m: nat, i: nat, j: nat,
                    input': seq<Lexeme>, tree: Tree, y: nat)
    requires Setting(g, a, t, input) && TableServes(g, t) && Endless(g, t, input) && Settled(g, t, input, m) && m <= i < j
    requires Run(g, t, input, m).c.pos <= |input| && Continues(g, input, Run(g, t, input, m).c.pos, y, input', tree)
    requires OnTheWay(tree, Run(g, t, input, j).c.forest)
    ensures SameMove(g, t, input, y, i)
  {
    hide CoreAutomaton, TableSound, TableServes, Run, Step, ParseOf, OnTheWay, Cell, Unwound, Before, AllTokens, SameMove;
    assert Run(g, t, input, i).Running? && Run(g, t, input, i + 1).Running? && Run(g, t, input, j).Running?;
    var c, c' := Run(g, t, input, i).c, Run(g, t, input, i + 1).c;
    RunUnwinds(g, t, input, j, j - i - 1);
    WayBack(tree, Run(g, t, input, j).c.forest, j - i - 1);
    RunOneMore(g, t, input, i);
    assert c.pos == c'.pos == Run(g, t, input, m).c.pos;
    ReducedLast(g, t, input, c);
    StepBefore(g, t, input, c);
    Completeness(g, t, input', tree);
    var last := LastRunning(g, t, input', Size(tree) + 1);
    var k := RunVisits(g, t, input', last, tree, c'.forest);
    SameTurn(g, a, t, input, i, input', k, y);
  }

  /** Each turn's stack has a sentence, whose next token would have made every reduction so far. */
  lemma StackToken(g: Grammar, a: Automaton, t: seq<nat>, input: seq<Lexeme>, m: nat, j: nat, v: Value) returns (y: nat)
    requires Setting(g, a, t, input) && Productive(g) && TableServes(g, t) && Endless(g, t, input) && Settled(g, t, input, m) && m <= j
    ensures Run(g, t, input, m).c.pos <= |input|
    ensures y in Actions(g) && GoesOn(g, input, Run(g, t, input, m).c.pos, y) && SameMoves(g, t, input, y, m, j)
  {
    hide CoreAutomaton, TableSound, TableServes, Productive, Run, ParseOf, OnTheWay, SameMove, AllTokens, Inv;
    assert Run(g, t, input, j).Running?;
    var c, p := Run(g, t, input, j).c, Run(g, t, input, m).c.pos;
    RunSafe(g, a, t, input, j);
    SameSize(g, a);
    InvShape(g, a, input, c);
    assert c.pos == p;
    var tree, input' := StackSentence(g, a, input, c, v);
    TokenAt(g, input', tree, p);
    y := input'[p].tok;
    assert Continues(g, input, p, y, input', tree);
    forall i: nat | m <= i < j
      ensures SameMove(g, t, input, y, i)
    {
      EarlierMove(g, a, t, input, m, i, j, input', tree, y);
    }
  }

  lemma TokenAt(g: Grammar, input: seq<Lexeme>, tree: Tree, p: nat)
    requires g.WellFormed() && IsInput(g, input) && ParseOf(g, input, tree) && p < |input|
    ensures 0 <= input[p].tok < g.actionN
  {
    hide Valid, Yield;
    InputAt(g, input, p);
  }

  /** Among finitely many tokens, if none goes on for ever there is a turn by which all have stopped. */
  lemma {:induction false} AllStop(g: Grammar, t: seq<nat>, input: seq<Lexeme>, m: nat, tokens: set<nat>) returns (k: nat)
    requires forall y | y in tokens :: Stops(g, t, input, y, m)
    ensures k >= m && forall y | y in tokens :: !SameMoves(g, t, input, y, m, k)
    decreases tokens
  {
    hide SameMove;
    k := m;
    if tokens != {} {
      var y :| y in tokens;
      var k' := AllStop(g, t, input, m, tokens - {y});
      assert Stops(g, t, input, y, m);
      var n: nat :| !SameMoves(g, t, input, y, m, n);
      k := if n > k' then n else k';
      forall z | z in tokens
        ensures !SameMoves(g, t, input, z, m, k)
      {
        LongerMoves(g, t, input, z, m, if z == y then n else k', k);
      }
    }
  }

  ghost predicate Stops(g: Grammar, t: seq<nat>, input: seq<Lexeme>, y: nat, m: nat) {
    exists n: nat :: !SameMoves(g, t, input, y, m, n)
  }

  lemma LongerMoves(g: Grammar, t: seq<nat>, input: seq<Lexeme>, y: nat, m: nat, n: nat, k: nat)
    requires n <= k && !SameMoves(g, t, input, y, m, n)
    ensures !SameMoves(g, t, input, y, m, k)
  {
    hide SameMove;
  }

  /** With a token that would have made every reduction, the run is endless too. */
  lemma {:induction false} EndlessToo(g: Grammar, t: seq<nat>, input: seq<Lexeme>, m: nat, j: nat, input': seq<Lexeme>, y: nat)
    requires Endless(g, t, input) && Settled(g, t, input, m) && m <= j
    requires var p := Run(g, t, input, m).c.pos; p <= |input| && p < |input'| && input'[..p] == input[..p] && input'[p].tok == y
    requires SameMoves(g, t, input, y, m, j)
    ensures Run(g, t, input', j) == Run(g, t, input, j)
    decreases j
  {
    hide Run, Step, SameMove;
    assert Run(g, t, input, j).Running?;
    if j == m {
      RunAgrees(g, t, input, input', m, Run(g, t, input, m).c.pos);
    } else {
      EndlessToo(g, t, input, m, j - 1, input', y);
      assert SameMove(g, t, input, y, j - 1);
      RunOneMore(g, t, input, j - 1);
      RunOneMore(g, t, input', j - 1);
      assert Run(g, t, input, j - 1).c.pos == Run(g, t, input, m).c.pos;
      MoveAgrees(g, t, input, input', j - 1, y);
    }
  }

  lemma MoveAgrees(g: Grammar, t: seq<nat>, input: seq<Lexeme>, input': seq<Lexeme>, i: nat, y: nat)
    requires SameMove(g, t, input, y, i)
    requires var c := Run(g, t, input, i).c; c.pos < |input'| && input'[c.pos].tok == y
    ensures Step(g, t, input', Run(g, t, input, i).c) == Step(g, t, input, Run(g, t, input, i).c)
  {
    hide Run, Cell, Reduced;
  }

  /** The run on a sentence ends, so no token that goes on to one makes every reduction. */
  lemma TokenStops(g: Grammar, t: seq<nat>, input: seq<Lexeme>, m: nat, y: nat)
    requires g.WellFormed() && TableServes(g, t) && Endless(g, t, input) && Settled(g, t, input, m) && Run(g, t, input, m).c.pos <= |input|
    requires GoesOn(g, input, Run(g, t, input, m).c.pos, y)
    ensures Stops(g, t, input, y, m)
  {
    hide TableServes, Run, SameMoves, ParseOf, Settled, IsInput;
    var p := Run(g, t, input, m).c.pos;
    var input', tree :| Continues(g, input, p, y, input', tree);
    Completeness(g, t, input', tree);
    var e := Size(tree) + 1;
    var j := if e <= m then m else e;
    StepsStay(g, t, input', e, j);
    assert Run(g, t, input, j).Running?;
    if SameMoves(g, t, input, y, m, j) {
      EndlessToo(g, t, input, m, j, input', y);
      assert false;
    }
  }

  /** On a table that serves a productive grammar, every run ends: an endless one would be followed, from
      some turn on, by the run on a sentence. */
  lemma ServedEnds(g: Grammar, a: Automaton, t: seq<nat>, input: seq<Lexeme>, v: Value)
    requires Setting(g, a, t, input) && Productive(g) && TableServes(g, t)
    ensures exists n: nat :: !Run(g, t, input, n).Running?
  {
    hide Setting, Productive, TableServes, Run, GoesOn, SameMoves, Settled, Stops;
    if Endless(g, t, input) {
      var k := Settles(g, a, t, input, 0);
      var m := FirstSettled(g, t, input, k);
      RunPosition(g, a, t, input, m);
      SettingGrammar(g, a, t, input);
      var p := Run(g, t, input, m).c.pos;
      var tokens := set y | y in Actions(g) && GoesOn(g, input, p, y);
      forall y | y in tokens
        ensures Stops(g, t, input, y, m)
      {
        TokenStops(g, t, input, m, y);
      }
      var n := AllStop(g, t, input, m, tokens);
      var y := StackToken(g, a, t, input, m, n, v);
      assert false;
    }
  }
}
