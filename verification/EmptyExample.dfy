/** Runs on generated tables in which an empty reduction takes a slot that is in use. */
module EmptyExample {
  import opened Grammars
  import opened Closures
  import opened FirstProofs
  import opened Automata
  import opened Tables
  import opened Machines
  import opened Canonical
  import opened Fillings
  import opened Rows
  import opened Values
  import opened Memories
  import opened Slots
  import opened Pipelines
  import opened Covers

  // ------------------------------------------------ moves of a clean table

  /** What clean tables hold for an item that can move, and for a finished one. */
  lemma CleanShift(g: Grammar, f: FirstInfo, a: Automaton, t: seq<nat>, s: nat, it: Item) returns (to: nat)
    requires Generated(g, f, a, Null, t, true) && s < |a.states| && it in a.states[s] && NotFinal(g, it)
    ensures Curr(g, it) in a.trans[s] && to == a.trans[s][Curr(g, it)] < |a.states|
    ensures Cell(g, t, s, Curr(g, it)) == Shift(to)
    ensures Item(it.rule, it.dot + 1) in a.states[to] && a.states[s][it] <= a.states[to][Item(it.rule, it.dot + 1)]
  {
    hide Collected, Cell, TableSound, Computed, CoreAutomaton, LookaheadClosed;
    CollectedGraph(g, f, a);
    Moves(g, f, a, s, it);
    TransitionSymbol(g, a, s, Curr(g, it));
    to := a.trans[s][Curr(g, it)];
    assert CellPicked(g, a.states[s], a.trans[s], Null, Curr(g, it), Cell(g, t, s, Curr(g, it)));
  }

  lemma CleanReduce(g: Grammar, f: FirstInfo, a: Automaton, t: seq<nat>, s: nat, r: nat, x: nat)
    requires Generated(g, f, a, Null, t, true) && s < |a.states| && r > 0 && Reduces(g, a.states[s], r, x)
    ensures x < g.actionN && Cell(g, t, s, x) == Reduce(r)
  {
    hide Collected, Cell, TableSound, Computed, CoreClosure;
    CollectedGraph(g, f, a);
    assert Bounded(g, a.states[s]);
    assert CellPicked(g, a.states[s], a.trans[s], Null, x, Cell(g, t, s, x));
  }

  lemma CleanExpand(g: Grammar, f: FirstInfo, a: Automaton, t: seq<nat>, s: nat, it: Item, r: nat)
    requires Generated(g, f, a, Null, t, true) && s < |a.states| && it in a.states[s] && AtNonterminal(g, it)
    requires r < |g.rules| && g.rules[r].lhs == Curr(g, it)
    ensures Item(r, 0) in a.states[s] && Contribution(g, f, a.states[s], it) <= a.states[s][Item(r, 0)]
  {
    hide Collected, TableSound, TablePicked, Computed, CoreAutomaton, LookaheadClosed, Contribution;
    CollectedGraph(g, f, a);
    Expands(g, f, a, s, it, r);
  }

  lemma CleanStart(g: Grammar, f: FirstInfo, a: Automaton, t: seq<nat>)
    requires Generated(g, f, a, Null, t, true)
    ensures 0 < |a.states| == |a.trans| && Item(0, 0) in a.states[0] && 0 in a.states[0][Item(0, 0)]
  {
    hide Collected, TableSound, TablePicked, Computed, CoreClosure;
    CollectedGraph(g, f, a);
  }

  // ------------------------------------------------ a token's value is lost

  const WORD: nat := 1
  const START: nat := 2
  const LEAD: nat := 3

  /** S -> E word, E -> (empty). */
  function LeadGrammar(): Grammar {
    Grammar([Rule(4, [START]), Rule(START, [LEAD, WORD]), Rule(LEAD, [])], 4, 2)
  }

  /** The moves of any clean table of the grammar. */
  lemma LeadMoves(f: FirstInfo, a: Automaton, t: seq<nat>) returns (s1: nat, s2: nat, s3: nat)
    requires Generated(LeadGrammar(), f, a, Null, t, true)
    ensures Cell(LeadGrammar(), t, 0, WORD) == Reduce(2) && Cell(LeadGrammar(), t, 0, LEAD) == Shift(s1)
    ensures Cell(LeadGrammar(), t, s1, WORD) == Shift(s2) && Cell(LeadGrammar(), t, s2, 0) == Reduce(1)
    ensures Cell(LeadGrammar(), t, 0, START) == Shift(s3) && Cell(LeadGrammar(), t, s3, 0) == Accept
  {
    hide Generated, Cell;
    var g := LeadGrammar();
    CleanStart(g, f, a, t);
    assert Curr(g, Item(0, 0)) == START && Curr(g, Item(1, 0)) == LEAD && Curr(g, Item(1, 1)) == WORD;
    assert Contribution(g, f, a.states[0], Item(0, 0)) == a.states[0][Item(0, 0)];
    CleanExpand(g, f, a, t, 0, Item(0, 0), 1);
    assert Contribution(g, f, a.states[0], Item(1, 0)) == {WORD};
    CleanExpand(g, f, a, t, 0, Item(1, 0), 2);
    CleanReduce(g, f, a, t, 0, 2, WORD);
    s1 := CleanShift(g, f, a, t, 0, Item(1, 0));
    s2 := CleanShift(g, f, a, t, s1, Item(1, 1));
    CleanReduce(g, f, a, t, s2, 1, 0);
    s3 := CleanShift(g, f, a, t, 0, Item(0, 0));
    LeadAccepts(f, a, t, s3);
  }

  lemma LeadAccepts(f: FirstInfo, a: Automaton, t: seq<nat>, s3: nat)
    requires Generated(LeadGrammar(), f, a, Null, t, true) && 0 < |a.trans| && START in a.trans[0] && a.trans[0][START] == s3 < |a.states|
    requires Item(0, 1) in a.states[s3] && 0 in a.states[s3][Item(0, 1)]
    ensures Cell(LeadGrammar(), t, s3, 0) == Accept
  {
    hide Collected, Cell, TableSound, Computed, CoreClosure, Reduces, CellPicked;
    var g := LeadGrammar();
    CollectedGraph(g, f, a);
    assert Edge(g, a, 0, START);
    LeadAlone(a.Core(0), a.Core(s3));
    assert CellPicked(g, a.states[s3], a.trans[s3], Null, 0, Cell(g, t, s3, 0));
    OnlyAccept(a.states[s3], a.trans[s3], Cell(g, t, s3, 0));
  }

  lemma OnlyAccept(m: ItemSet, trans: map<nat, nat>, act: Action)
    requires m.Keys <= {Item(0, 1)} && Item(0, 1) in m && 0 in m[Item(0, 1)] && trans.Keys == NextSymbols(LeadGrammar(), m.Keys)
    requires CellPicked(LeadGrammar(), m, trans, Null, 0, act)
    ensures act == Accept
  {
    assert NextSymbols(LeadGrammar(), m.Keys) == {};
    assert Reduces(LeadGrammar(), m, 0, 0);
  }

  lemma LeadAlone(k: set<Item>, k': set<Item>)
    requires CoreClosure(LeadGrammar(), AdvanceCore(LeadGrammar(), k, START), k')
    ensures k' <= {Item(0, 1)}
  {
    var g := LeadGrammar();
    forall it | it in AdvanceCore(g, k, START)
      ensures it == Item(0, 1)
    {
      var from :| from in k && NotFinal(g, from) && Curr(g, from) == START && it == Item(from.rule, from.dot + 1);
      assert g.rules[1].rhs == [LEAD, WORD] && from == Item(0, 0);
    }
    assert CoreClosed(g, {Item(0, 1)});
  }

  /** Bounds of the states. */
  function LeadStates(): seq<ItemSet> {
    [map[Item(0, 0) := {0}, Item(1, 0) := {0}, Item(2, 0) := {WORD}],
     map[Item(0, 1) := {0}],
     map[Item(1, 1) := {0}],
     map[Item(1, 2) := {0}]]
  }

  lemma LeadSymbols()
    ensures var g := LeadGrammar();
            && Curr(g, Item(0, 0)) == START && Curr(g, Item(1, 0)) == LEAD && Curr(g, Item(1, 1)) == WORD
            && IsFinal(g, Item(2, 0)) && IsFinal(g, Item(0, 1)) && IsFinal(g, Item(1, 2))
  {
  }

  lemma LeadClosed(f: FirstInfo, i: nat)
    requires i < 4
    ensures IsClosed(LeadGrammar(), f, LeadStates()[i])
  {
    LeadSymbols();
    if i == 0 {
      LeadStartClosed(f);
    } else {
      NothingToExpand(LeadGrammar(), f, LeadStates()[i]);
    }
  }

  lemma LeadStartClosed(f: FirstInfo)
    ensures IsClosed(LeadGrammar(), f, LeadStates()[0])
  {
    var g, m := LeadGrammar(), LeadStates()[0];
    LeadSymbols();
    assert Contribution(g, f, m, Item(0, 0)) == {0} && Contribution(g, f, m, Item(1, 0)) == {WORD};
  }

  lemma LeadAdvances(i: nat, x: nat)
    requires i < 4 && x in NextSymbols(LeadGrammar(), LeadStates()[i].Keys)
    ensures AdvancesInto(LeadGrammar(), LeadStates(), i, x)
  {
    hide AdvancesInto;
    var g := LeadGrammar();
    LeadSymbols();
    AdvanceBelow(g, LeadStates(), i, x, if i == 2 then 3 else if x == START then 1 else 2);
  }

  lemma LeadOneMove(i: nat)
    requires i < 4
    ensures OneMove(LeadGrammar(), LeadStates()[i])
  {
    hide OneMove;
    LeadSymbols();
    if i == 0 {
      LeadStartMoves();
    } else if i == 2 {
      NothingToReduce(LeadGrammar(), LeadStates()[2]);
    } else {
      OneToReduce(LeadGrammar(), LeadStates()[i], if i == 1 then Item(0, 1) else Item(1, 2));
    }
  }

  lemma LeadStartMoves()
    ensures OneMove(LeadGrammar(), LeadStates()[0])
  {
    LeadSymbols();
  }

  lemma LeadApart()
    ensures Apart(LeadStates()) && |LeadStates()| == 4 && Leq(START_KERNEL, LeadStates()[0])
  {
  }

  /** The grammar has no conflict, so that the generator reports none and its tables are clean. */
  lemma LeadHasNoConflict(f: FirstInfo, a: Automaton)
    requires LeadGrammar().WellFormed() && Collected(LeadGrammar(), f, a)
    ensures |a.states| == |a.trans| && !Conflicted(LeadGrammar(), a)
  {
    hide Collected, Apart, OneMove, IsClosed, AdvancesInto, Leq, NextSymbols, LeadStates;
    var g, u := LeadGrammar(), LeadStates();
    LeadApart();
    forall i | 0 <= i < |u|
      ensures IsClosed(g, f, u[i]) && OneMove(g, u[i])
    {
      LeadClosed(f, i);
      LeadOneMove(i);
    }
    forall i, x | 0 <= i < |u| && x in NextSymbols(g, u[i].Keys)
      ensures AdvancesInto(g, u, i, x)
    {
      LeadAdvances(i, x);
    }
    CoverNoConflict(g, f, a, u);
  }

  lemma LeadRun(t: seq<nat>, input: seq<Lexeme>, s1: nat, s2: nat, s3: nat) returns (c1: Config, c2: Config, c3: Config)
    requires |input| == 2 && input[0].tok == WORD && input[1].tok == 0
    requires Cell(LeadGrammar(), t, 0, WORD) == Reduce(2) && Cell(LeadGrammar(), t, 0, LEAD) == Shift(s1)
    requires Cell(LeadGrammar(), t, s1, WORD) == Shift(s2) && Cell(LeadGrammar(), t, s2, 0) == Reduce(1)
    requires Cell(LeadGrammar(), t, 0, START) == Shift(s3) && Cell(LeadGrammar(), t, s3, 0) == Accept
    ensures c1.states == [0, s1] && c1.pos == 0 && c2.states == [0, s1, s2] && c2.pos == 1
    ensures c3.forest == [Node(1, [Node(2, []), Leaf(WORD, input[0].val)])]
    ensures Run(LeadGrammar(), t, input, 1) == Running(c1) && Run(LeadGrammar(), t, input, 2) == Running(c2)
    ensures Run(LeadGrammar(), t, input, 3) == Running(c3) && Run(LeadGrammar(), t, input, 4) == Accepted(c3)
  {
    hide Cell, Step;
    var g := LeadGrammar();
    var leaf := Leaf(WORD, input[0].val);
    c1 := Config([0, s1], [Node(2, [])], 0);
    c2 := Config([0, s1, s2], [Node(2, []), leaf], 1);
    c3 := Config([0, s3], [Node(1, [Node(2, []), leaf])], 1);
    ReduceTurn(g, t, input, Start(), 2, [0], [], [], s1, c1);
    ShiftTurn(g, t, input, c1, s2, c2);
    ReduceTurn(g, t, input, c2, 1, [0], [], [Node(2, []), leaf], s3, c3);
    LastTurn(g, t, input, c3);
    LeadSteps(t, input, c1, c2, c3);
  }

  lemma LeadSteps(t: seq<nat>, input: seq<Lexeme>, c1: Config, c2: Config, c3: Config)
    requires Step(LeadGrammar(), t, input, Start()) == Running(c1) && Step(LeadGrammar(), t, input, c1) == Running(c2)
    requires Step(LeadGrammar(), t, input, c2) == Running(c3) && Steps(LeadGrammar(), t, input, Running(c3), 1) == Accepted(c3)
    ensures Run(LeadGrammar(), t, input, 1) == Running(c1) && Run(LeadGrammar(), t, input, 2) == Running(c2)
    ensures Run(LeadGrammar(), t, input, 3) == Running(c3) && Run(LeadGrammar(), t, input, 4) == Accepted(c3)
  {
    hide Step, Steps;
    var g := LeadGrammar();
    forall n: nat | n < 4
      ensures n > 0 ==> Run(g, t, input, n) == Steps(g, t, input, Running(c1), n - 1)
    {
      if n > 0 { TurnThen(g, t, input, Start(), c1, n - 1); }
    }
    TurnThen(g, t, input, Start(), c1, 3);
    TurnThen(g, t, input, c1, c2, 0);
    TurnThen(g, t, input, c1, c2, 1);
    TurnThen(g, t, input, c1, c2, 2);
    TurnThen(g, t, input, c2, c3, 0);
    TurnThen(g, t, input, c2, c3, 1);
    NoSteps(g, t, input, c1);
    NoSteps(g, t, input, c2);
    NoSteps(g, t, input, c3);
  }

  lemma NoSteps(g: Grammar, t: seq<nat>, input: seq<Lexeme>, c: Config)
    ensures Steps(g, t, input, Running(c), 0) == Running(c)
  {
  }

  lemma LeadMemory(user: UserCode, t: seq<nat>, input: seq<Lexeme>, d0: Memory, s1: nat, s2: nat, s3: nat)
    requires |input| == 2 && input[0].tok == WORD && input[1].tok == 0 && IsStart(d0, input[0])
    requires Cell(LeadGrammar(), t, 0, WORD) == Reduce(2) && Cell(LeadGrammar(), t, 0, LEAD) == Shift(s1)
    requires Cell(LeadGrammar(), t, s1, WORD) == Shift(s2) && Cell(LeadGrammar(), t, s2, 0) == Reduce(1)
    requires Cell(LeadGrammar(), t, 0, START) == Shift(s3) && Cell(LeadGrammar(), t, s3, 0) == Accept
    ensures var d, e := MemoryAt(LeadGrammar(), user, t, input, d0, 3), user.reduce(2, []);
            && d.calls == [Call(2, []), Call(1, [e, e])]
            && d.dest < |d.valueTable| && d.valueTable[d.dest] == user.reduce(1, [e, e])
  {
    hide Cell, Step, Shifted, Moved, Result, MemoryAt, Goto, Run;
    var g := LeadGrammar();
    var c1, c2, c3 := LeadRun(t, input, s1, s2, s3);
    StartRuns(g, user, t, input, d0);
    TurnReduces(g, user, t, input, d0, 0, Start(), 2);
    ReducedSlots(g, user, t, d0, 2);
    var d1 := MemoryAt(g, user, t, input, d0, 1);
    GotoShift(g, t, 0, LEAD, s1);
    assert d1.stack == [0, 0, s1] && d1.i == 0 == d1.dest && d1.calls == [Call(2, [])];
    TurnShifts(g, user, t, input, d0, 1, c1, s2);
    ShiftedSlots(d1, s2, input[1]);
    ShiftedKeeps(d1, s2, input[1], 0);
    var d2 := MemoryAt(g, user, t, input, d0, 2);
    assert d2.stack == [0, 0, s1, 0, s2] && d2.i == 1 && d2.dest == 0;
    TurnReduces(g, user, t, input, d0, 2, c2, 1);
    ReducedSlots(g, user, t, d2, 1);
    PoppedTwice(d2.valueTable, d2.stack, 0);
  }

  lemma StartRuns(g: Grammar, user: UserCode, t: seq<nat>, input: seq<Lexeme>, d0: Memory)
    ensures Run(g, t, input, 0) == Running(Start()) && MemoryAt(g, user, t, input, d0, 0) == d0
  {
  }

  lemma ShiftedKeeps(d: Memory, s: nat, lexeme: Lexeme, k: nat)
    requires |d.tokenTable| == |d.valueTable| && k <= d.i < |d.tokenTable|
    ensures k < |Shifted(d, s, lexeme).valueTable| && Shifted(d, s, lexeme).valueTable[k] == d.valueTable[k]
  {
  }

  lemma PoppedTwice(valueTable: seq<Value>, stack: seq<nat>, k: nat)
    requires |stack| == 5 && stack[1] == stack[3] == k < |valueTable|
    ensures Popped(valueTable, stack, 2) == [valueTable[k], valueTable[k]]
  {
    assert Popped(valueTable, stack, 1) == [valueTable[k]] + Popped(valueTable, stack, 0);
  }

  /** On every clean table for the grammar the driver accepts the word, but both arguments of the rule
      are the empty rule's value: the word's value is lost, and the value returned is not the tree's. */
  lemma EmptyRuleLosesToken(user: UserCode, f: FirstInfo, a: Automaton, t: seq<nat>, input: seq<Lexeme>, d0: Memory)
    requires Generated(LeadGrammar(), f, a, Null, t, true)
    requires |input| == 2 && input[0].tok == WORD && input[1].tok == 0 && IsStart(d0, input[0])
    ensures var o, d, e := Run(LeadGrammar(), t, input, 4), MemoryAt(LeadGrammar(), user, t, input, d0, 4), user.reduce(2, []);
            && o.Accepted? && o.c.forest == [Node(1, [Node(2, []), Leaf(WORD, input[0].val)])]
            && Fold(user.reduce, o.c.forest[0]) == user.reduce(1, [e, input[0].val])
            && d.calls == [Call(2, []), Call(1, [e, e])]
            && d.dest < |d.valueTable| && d.valueTable[d.dest] == user.reduce(1, [e, e])
  {
    hide Generated, Cell, Run, MemoryAt, IsStart;
    var s1, s2, s3 := LeadMoves(f, a, t);
    var c1, c2, c3 := LeadRun(t, input, s1, s2, s3);
    LeadMemory(user, t, input, d0, s1, s2, s3);
    LastMemory(user, t, input, d0, c3);
    FoldTwo(user, Node(2, []), Leaf(WORD, input[0].val));
  }

  lemma LastMemory(user: UserCode, t: seq<nat>, input: seq<Lexeme>, d0: Memory, c: Config)
    requires Run(LeadGrammar(), t, input, 3) == Running(c) && Run(LeadGrammar(), t, input, 4) == Accepted(c)
    ensures MemoryAt(LeadGrammar(), user, t, input, d0, 4) == MemoryAt(LeadGrammar(), user, t, input, d0, 3)
  {
    hide Run, Reduced, Cell, CanReduce, MemoryAt;
    RunOneMore(LeadGrammar(), t, input, 3);
    MemoryOneMore(LeadGrammar(), user, t, input, d0, 3);
    EndsThere(LeadGrammar(), t, input, c);
  }

  lemma EndsThere(g: Grammar, t: seq<nat>, input: seq<Lexeme>, c: Config)
    requires Step(g, t, input, c).Accepted?
    ensures c.pos < |input| && input[c.pos].tok >= 0 && c.states != [] && Cell(g, t, c.states[|c.states| - 1], input[c.pos].tok) == Accept
  {
    hide Cell, Reduced;
    if c.pos < |input| && c.states != [] && input[c.pos].tok >= 0 {
      match Cell(g, t, c.states[|c.states| - 1], input[c.pos].tok)
      case Reduce(r) => ReducedOutcome(g, t, c, r);
      case _ =>
    }
  }

  lemma FoldTwo(user: UserCode, x: Tree, y: Tree)
    ensures Fold(user.reduce, Node(1, [x, y])) == user.reduce(1, [Fold(user.reduce, x), Fold(user.reduce, y)])
    ensures Fold(user.reduce, Node(2, [])) == user.reduce(2, [])
  {
    assert [x, y][..1] == [x] && [x][..0] == [];
    assert Folds(user.reduce, [x, y]) == [Fold(user.reduce, x), Fold(user.reduce, y)];
    assert Folds(user.reduce, []) == [];
  }

  // ------------------------------------------------ the driver's assertion fails

  const B: nat := 1
  const C: nat := 2
  const D: nat := 3

  /** S -> W d, W -> b Z, Z -> c E, E -> (empty). */
  function HoldGrammar(): Grammar {
    Grammar([Rule(8, [4]), Rule(4, [5, D]), Rule(5, [B, 6]), Rule(6, [C, 7]), Rule(7, [])], 8, 4)
  }

  lemma HoldMoves(f: FirstInfo, a: Automaton, t: seq<nat>) returns (s1: nat, s2: nat, s3: nat, s4: nat)
    requires Generated(HoldGrammar(), f, a, Null, t, true)
    ensures Cell(HoldGrammar(), t, 0, B) == Shift(s1) && Cell(HoldGrammar(), t, s1, C) == Shift(s2)
    ensures Cell(HoldGrammar(), t, s2, D) == Reduce(4) && Cell(HoldGrammar(), t, s2, 7) == Shift(s3)
    ensures Cell(HoldGrammar(), t, s3, D) == Reduce(3) && Cell(HoldGrammar(), t, s1, 6) == Shift(s4)
    ensures Cell(HoldGrammar(), t, s4, D) == Reduce(2)
  {
    hide Generated, Cell;
    var g := HoldGrammar();
    CleanStart(g, f, a, t);
    assert Curr(g, Item(0, 0)) == 4 && Curr(g, Item(1, 0)) == 5 && Curr(g, Item(2, 0)) == B && Curr(g, Item(2, 1)) == 6
        && Curr(g, Item(3, 0)) == C && Curr(g, Item(3, 1)) == 7;
    CleanExpand(g, f, a, t, 0, Item(0, 0), 1);
    assert Contribution(g, f, a.states[0], Item(1, 0)) == {D};
    CleanExpand(g, f, a, t, 0, Item(1, 0), 2);
    s1 := CleanShift(g, f, a, t, 0, Item(2, 0));
    assert Contribution(g, f, a.states[s1], Item(2, 1)) == a.states[s1][Item(2, 1)];
    CleanExpand(g, f, a, t, s1, Item(2, 1), 3);
    s2 := CleanShift(g, f, a, t, s1, Item(3, 0));
    assert Contribution(g, f, a.states[s2], Item(3, 1)) == a.states[s2][Item(3, 1)];
    CleanExpand(g, f, a, t, s2, Item(3, 1), 4);
    CleanReduce(g, f, a, t, s2, 4, D);
    s3 := CleanShift(g, f, a, t, s2, Item(3, 1));
    CleanReduce(g, f, a, t, s3, 3, D);
    s4 := CleanShift(g, f, a, t, s1, Item(2, 1));
    CleanReduce(g, f, a, t, s4, 2, D);
  }

  /** Bounds of the states. */
  function HoldStates(): seq<ItemSet> {
    [map[Item(0, 0) := {0}, Item(1, 0) := {0}, Item(2, 0) := {D}],
     map[Item(0, 1) := {0}],
     map[Item(1, 1) := {0}],
     map[Item(1, 2) := {0}],
     map[Item(2, 1) := {D}, Item(3, 0) := {D}],
     map[Item(2, 2) := {D}],
     map[Item(3, 1) := {D}, Item(4, 0) := {D}],
     map[Item(3, 2) := {D}]]
  }

  lemma HoldSymbols()
    ensures var g := HoldGrammar();
            && Curr(g, Item(0, 0)) == 4 && Curr(g, Item(1, 0)) == 5 && Curr(g, Item(2, 0)) == B && Curr(g, Item(1, 1)) == D
            && Curr(g, Item(2, 1)) == 6 && Curr(g, Item(3, 0)) == C && Curr(g, Item(3, 1)) == 7
            && IsFinal(g, Item(0, 1)) && IsFinal(g, Item(1, 2)) && IsFinal(g, Item(2, 2)) && IsFinal(g, Item(4, 0)) && IsFinal(g, Item(3, 2))
  {
  }

  lemma HoldClosed(f: FirstInfo, i: nat)
    requires i < 8
    ensures IsClosed(HoldGrammar(), f, HoldStates()[i])
  {
    hide IsClosed;
    HoldSymbols();
    if i == 0 {
      HoldStartClosed(f);
    } else if i == 4 {
      HoldHeadClosed(f);
    } else if i == 6 {
      HoldTailClosed(f);
    } else {
      NothingToExpand(HoldGrammar(), f, HoldStates()[i]);
    }
  }

  lemma HoldStartClosed(f: FirstInfo)
    ensures IsClosed(HoldGrammar(), f, HoldStates()[0])
  {
    var g, m := HoldGrammar(), HoldStates()[0];
    HoldSymbols();
    assert Contribution(g, f, m, Item(0, 0)) == {0} && Contribution(g, f, m, Item(1, 0)) == {D};
  }

  lemma HoldHeadClosed(f: FirstInfo)
    ensures IsClosed(HoldGrammar(), f, HoldStates()[4])
  {
    var g, m := HoldGrammar(), HoldStates()[4];
    HoldSymbols();
    assert Contribution(g, f, m, Item(2, 1)) == {D};
  }

  lemma HoldTailClosed(f: FirstInfo)
    ensures IsClosed(HoldGrammar(), f, HoldStates()[6])
  {
    var g, m := HoldGrammar(), HoldStates()[6];
    HoldSymbols();
    assert Contribution(g, f, m, Item(3, 1)) == {D};
  }

  lemma HoldAdvances(i: nat, x: nat)
    requires i < 8 && x in NextSymbols(HoldGrammar(), HoldStates()[i].Keys)
    ensures AdvancesInto(HoldGrammar(), HoldStates(), i, x)
  {
    hide AdvancesInto, NextSymbols;
    if i == 0 {
      HoldStartAdvances(x);
    } else if i in {2, 4, 6} {
      HoldInnerAdvances(i, x);
    } else {
      HoldNoAdvance(i, x);
    }
  }

  lemma HoldStartAdvances(x: nat)
    requires x in NextSymbols(HoldGrammar(), HoldStates()[0].Keys)
    ensures AdvancesInto(HoldGrammar(), HoldStates(), 0, x)
  {
    hide AdvancesInto;
    HoldSymbols();
    AdvanceBelow(HoldGrammar(), HoldStates(), 0, x, if x == 4 then 1 else if x == 5 then 2 else 4);
  }

  lemma HoldInnerAdvances(i: nat, x: nat)
    requires i in {2, 4, 6} && x in NextSymbols(HoldGrammar(), HoldStates()[i].Keys)
    ensures AdvancesInto(HoldGrammar(), HoldStates(), i, x)
  {
    hide AdvancesInto;
    HoldSymbols();
    AdvanceBelow(HoldGrammar(), HoldStates(), i, x, if i == 2 then 3 else if i == 6 then 7 else if x == 6 then 5 else 6);
  }

  lemma HoldNoAdvance(i: nat, x: nat)
    requires i in {1, 3, 5, 7} && x in NextSymbols(HoldGrammar(), HoldStates()[i].Keys)
    ensures AdvancesInto(HoldGrammar(), HoldStates(), i, x)
  {
    hide AdvancesInto;
    HoldSymbols();
    AdvanceBelow(HoldGrammar(), HoldStates(), i, x, 0);
  }

  lemma HoldOneMove(i: nat)
    requires i < 8
    ensures OneMove(HoldGrammar(), HoldStates()[i])
  {
    hide OneMove;
    HoldSymbols();
    if i == 6 {
      HoldTailMoves();
    } else if i in {0, 2, 4} {
      NothingToReduce(HoldGrammar(), HoldStates()[i]);
    } else {
      OneToReduce(HoldGrammar(), HoldStates()[i], if i == 1 then Item(0, 1) else if i == 3 then Item(1, 2) else if i == 5 then Item(2, 2) else Item(3, 2));
    }
  }

  lemma HoldTailMoves()
    ensures OneMove(HoldGrammar(), HoldStates()[6])
  {
    HoldSymbols();
  }

  /** The item that marks a state. */
  function HoldMark(i: nat): Item {
    if i == 0 then Item(0, 0) else if i == 1 then Item(0, 1) else if i == 2 then Item(1, 1) else if i == 3 then Item(1, 2)
    else if i == 4 then Item(2, 1) else if i == 5 then Item(2, 2) else if i == 6 then Item(3, 1) else Item(3, 2)
  }

  lemma HoldMarked(i: nat, it: Item)
    requires i < 8 && it in HoldStates()[i] && Marks(it)
    ensures it == HoldMark(i)
  {
  }

  lemma HoldApart()
    ensures Apart(HoldStates()) && |HoldStates()| == 8 && Leq(START_KERNEL, HoldStates()[0])
  {
    HoldSize();
    hide HoldStates, Leq;
    var u := HoldStates();
    forall i, j, it | 0 <= i < |u| && 0 <= j < |u| && it in u[i] && it in u[j] && Marks(it)
      ensures i == j
    {
      HoldMarked(i, it);
      HoldMarked(j, it);
    }
  }

  lemma HoldSize()
    ensures |HoldStates()| == 8 && Leq(START_KERNEL, HoldStates()[0])
  {
  }

  /** This grammar has no conflict either. */
  lemma HoldHasNoConflict(f: FirstInfo, a: Automaton)
    requires HoldGrammar().WellFormed() && Collected(HoldGrammar(), f, a)
    ensures |a.states| == |a.trans| && !Conflicted(HoldGrammar(), a)
  {
    hide Collected, Apart, OneMove, IsClosed, AdvancesInto, Leq, NextSymbols, HoldStates;
    var g, u := HoldGrammar(), HoldStates();
    HoldApart();
    forall i | 0 <= i < |u|
      ensures IsClosed(g, f, u[i]) && OneMove(g, u[i])
    {
      HoldClosed(f, i);
      HoldOneMove(i);
    }
    forall i, x | 0 <= i < |u| && x in NextSymbols(g, u[i].Keys)
      ensures AdvancesInto(g, u, i, x)
    {
      HoldAdvances(i, x);
    }
    CoverNoConflict(g, f, a, u);
  }

  /** The configurations of the run on b c d, up to the reduction to W. */
  lemma HoldRun(t: seq<nat>, input: seq<Lexeme>, s1: nat, s2: nat, s3: nat, s4: nat) returns (c1: Config, c2: Config, c3: Config, c4: Config)
    requires |input| == 4 && input[0].tok == B && input[1].tok == C && input[2].tok == D
    requires Cell(HoldGrammar(), t, 0, B) == Shift(s1) && Cell(HoldGrammar(), t, s1, C) == Shift(s2)
    requires Cell(HoldGrammar(), t, s2, D) == Reduce(4) && Cell(HoldGrammar(), t, s2, 7) == Shift(s3)
    requires Cell(HoldGrammar(), t, s3, D) == Reduce(3) && Cell(HoldGrammar(), t, s1, 6) == Shift(s4)
    ensures c1.states == [0, s1] && c1.pos == 1 && c2.states == [0, s1, s2] && c2.pos == 2
    ensures c3.states == [0, s1, s2, s3] && c3.pos == 2 && c4.states == [0, s1, s4] && c4.pos == 2
    ensures Run(HoldGrammar(), t, input, 1) == Running(c1) && Run(HoldGrammar(), t, input, 2) == Running(c2)
    ensures Run(HoldGrammar(), t, input, 3) == Running(c3) && Run(HoldGrammar(), t, input, 4) == Running(c4)
  {
    hide Cell, Step, Run;
    var g := HoldGrammar();
    var b, c := Leaf(B, input[0].val), Leaf(C, input[1].val);
    c1, c2 := Config([0, s1], [b], 1), Config([0, s1, s2], [b, c], 2);
    c3 := Config([0, s1, s2, s3], [b, c, Node(4, [])], 2);
    c4 := Config([0, s1, s4], [b, Node(3, [c, Node(4, [])])], 2);
    ShiftTurn(g, t, input, Start(), s1, c1);
    ShiftTurn(g, t, input, c1, s2, c2);
    ReduceTurn(g, t, input, c2, 4, [0, s1, s2], [b, c], [], s3, c3);
    ReduceTurn(g, t, input, c3, 3, [0, s1], [b], [c, Node(4, [])], s4, c4);
    NoTurn(g, t, input);
    RunOneMore(g, t, input, 0);
    RunOneMore(g, t, input, 1);
    RunOneMore(g, t, input, 2);
    RunOneMore(g, t, input, 3);
  }

  lemma NoTurn(g: Grammar, t: seq<nat>, input: seq<Lexeme>)
    ensures Run(g, t, input, 0) == Running(Start())
  {
  }

  /** The slots after four turns: the empty rule took slot 0 and pulled the lookahead down to slot 1,
      where the next result then goes. */
  lemma HoldMemory(user: UserCode, t: seq<nat>, input: seq<Lexeme>, d0: Memory, s1: nat, s2: nat, s3: nat, s4: nat)
    requires |input| == 4 && input[0].tok == B && input[1].tok == C && input[2].tok == D && IsStart(d0, input[0])
    requires Cell(HoldGrammar(), t, 0, B) == Shift(s1) && Cell(HoldGrammar(), t, s1, C) == Shift(s2)
    requires Cell(HoldGrammar(), t, s2, D) == Reduce(4) && Cell(HoldGrammar(), t, s2, 7) == Shift(s3)
    requires Cell(HoldGrammar(), t, s3, D) == Reduce(3) && Cell(HoldGrammar(), t, s1, 6) == Shift(s4)
    ensures var d := MemoryAt(HoldGrammar(), user, t, input, d0, 4);
            d.stack == [0, 0, s1, 1, s4] && d.i == 1 && d.dest == 1 && |d.tokenTable| == |d.valueTable| > 1
  {
    hide Cell, Step, Shifted, Moved, Result, MemoryAt, Goto, Run, Popped;
    var g := HoldGrammar();
    var c1, c2, c3, c4 := HoldRun(t, input, s1, s2, s3, s4);
    StartRuns(g, user, t, input, d0);
    TurnShifts(g, user, t, input, d0, 0, Start(), s1);
    ShiftedSlots(d0, s1, input[1]);
    var d1 := MemoryAt(g, user, t, input, d0, 1);
    TurnShifts(g, user, t, input, d0, 1, c1, s2);
    ShiftedSlots(d1, s2, input[2]);
    var d2 := MemoryAt(g, user, t, input, d0, 2);
    assert d2.stack == [0, 0, s1, 1, s2] && d2.i == 2 && d2.dest == 0;
    TurnReduces(g, user, t, input, d0, 2, c2, 4);
    ReducedSlots(g, user, t, d2, 4);
    GotoShift(g, t, s2, 7, s3);
    var d3 := MemoryAt(g, user, t, input, d0, 3);
    assert d3.stack == [0, 0, s1, 1, s2, 0, s3] && d3.i == 1 && d3.dest == 0;
    TurnReduces(g, user, t, input, d0, 3, c3, 3);
    ReducedSlots(g, user, t, d3, 3);
    GotoShift(g, t, s1, 6, s4);
  }

  /** The driver's assertion does not hold in every run: on every clean table for the grammar, and on a
      sentence of it, the fifth turn asserts that the lookahead's slot holds its token when it holds the
      last result. */
  lemma AssertionFails(user: UserCode, f: FirstInfo, a: Automaton, t: seq<nat>, input: seq<Lexeme>, d0: Memory)
    requires Generated(HoldGrammar(), f, a, Null, t, true) && IsInput(HoldGrammar(), input)
    requires |input| == 4 && input[0].tok == B && input[1].tok == C && input[2].tok == D && IsStart(d0, input[0])
    ensures InLanguage(HoldGrammar(), [B, C, D])
    ensures !AllAsserted(HoldGrammar(), user, t, input, d0, 5)
  {
    hide Generated, Setting, Cell, Run, MemoryAt, IsStart, AllAsserted, InLanguage;
    var g := HoldGrammar();
    HoldSentence(f, a, t);
    var s1, s2, s3, s4 := HoldMoves(f, a, t);
    var c1, c2, c3, c4 := HoldRun(t, input, s1, s2, s3, s4);
    HoldMemory(user, t, input, d0, s1, s2, s3, s4);
    GeneratedSetting(g, f, a, Null, t, true, input);
    AssertedExactly(g, user, a, t, input, d0, 5);
    var d := MemoryAt(g, user, t, input, d0, 4);
    assert MovesLookahead(g, t, input, Run(g, t, input, 4), d);
    assert !SlotsDiffer(g, user, t, input, d0, 4);
  }

  lemma HoldSentence(f: FirstInfo, a: Automaton, t: seq<nat>)
    requires Generated(HoldGrammar(), f, a, Null, t, true)
    ensures HoldGrammar().WellFormed() && InLanguage(HoldGrammar(), [B, C, D])
  {
    hide Collected, TableSound, TablePicked, Computed, DerivesStar;
    var g := HoldGrammar();
    StarRule(g, 1);
    StarRule(g, 2);
    StarRule(g, 3);
    StarRule(g, 4);
    StarContext(g, [], [5], [B, 6], [D]);
    StarContext(g, [B], [6], [C, 7], [D]);
    StarContext(g, [B, C], [7], [], [D]);
    assert [] + [5] + [D] == [5, D] && [] + [B, 6] + [D] == [B, 6, D] == [B] + [6] + [D];
    assert [B] + [C, 7] + [D] == [B, C, 7, D] == [B, C] + [7] + [D] && [B, C] + [] + [D] == [B, C, D];
    StarTrans(g, [4], [5, D], [B, 6, D]);
    StarTrans(g, [4], [B, 6, D], [B, C, 7, D]);
    StarTrans(g, [4], [B, C, 7, D], [B, C, D]);
  }
}
