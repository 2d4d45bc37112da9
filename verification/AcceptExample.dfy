/** A grammar in which an acceptance is displaced, and no conflict need be counted. */
module AcceptExample {
  import opened Grammars
  import opened Closures
  import opened FirstProofs
  import opened Automata
  import opened Tables
  import opened Machines
  import opened Canonical
  import opened Follows
  import opened Fillings
  import opened Rows
  import opened Explorations
  import opened Covers
  import opened Pipelines

  const WORD: nat := 1
  const START: nat := 2

  /** S -> S | word. */
  function LoopGrammar(): Grammar {
    Grammar([Rule(3, [START]), Rule(START, [START]), Rule(START, [WORD])], 3, 2)
  }

  lemma LoopWellFormed()
    ensures LoopGrammar().WellFormed()
  {
    assert LoopGrammar().rules[1].lhs == START;
  }

  /** The items that matter, in any graph of the grammar. */
  lemma LoopItems(f: FirstInfo, a: Automaton)
    requires LoopGrammar().WellFormed() && Collected(LoopGrammar(), f, a)
    ensures 0 < |a.states| == |a.trans| && START in a.trans[0] && WORD in a.trans[0]
    ensures var s := a.trans[0][START];
            s < |a.states| && Reduces(LoopGrammar(), a.states[s], 0, 0) && Reduces(LoopGrammar(), a.states[s], 1, 0)
    ensures a.trans[0][WORD] < |a.states| && Reduces(LoopGrammar(), a.states[a.trans[0][WORD]], 2, 0)
  {
    hide Collected, CoreAutomaton, LookaheadClosed;
    var g := LoopGrammar();
    CollectedGraph(g, f, a);
    SameSize(g, a);
    StartLookaheads(g, f, a);
    var it := Item(0, 0);
    assert Curr(g, it) == START && g.rules[1].lhs == START && g.rules[2].lhs == START;
    assert Contribution(g, f, a.states[0], it) == a.states[0][it];
    Expands(g, f, a, 0, it, 1);
    Expands(g, f, a, 0, it, 2);
    Moves(g, f, a, 0, it);
    assert Curr(g, Item(1, 0)) == START && Curr(g, Item(2, 0)) == WORD;
    Moves(g, f, a, 0, Item(1, 0));
    Moves(g, f, a, 0, Item(2, 0));
  }

  lemma StartLookaheads(g: Grammar, f: FirstInfo, a: Automaton)
    requires CoreAutomaton(g, a) && LookaheadClosed(g, f, a)
    ensures |a.states| > 0 && Item(0, 0) in a.states[0] && 0 in a.states[0][Item(0, 0)]
  {
  }

  /** In every graph of the grammar a state accepts and reduces on end of input. */
  lemma LoopAcceptsAndReduces(f: FirstInfo, a: Automaton)
    requires Collected(LoopGrammar(), f, a)
    ensures !NoAcceptReduce(LoopGrammar(), a)
  {
    hide Collected, Reduces;
    LoopWellFormed();
    LoopItems(f, a);
  }

  /** What a clean table holds there: the reduction. */
  lemma LoopCells(f: FirstInfo, a: Automaton, t: seq<nat>)
    requires Generated(LoopGrammar(), f, a, Null, t, true)
    ensures 0 < |a.states| == |a.trans| && START in a.trans[0] && WORD in a.trans[0]
    ensures Cell(LoopGrammar(), t, 0, WORD) == Shift(a.trans[0][WORD]) && Cell(LoopGrammar(), t, a.trans[0][WORD], 0) == Reduce(2)
    ensures Cell(LoopGrammar(), t, 0, START) == Shift(a.trans[0][START]) && Cell(LoopGrammar(), t, a.trans[0][START], 0) == Reduce(1)
  {
    hide Collected, Cell, TableSound, Reduces, Computed;
    var g := LoopGrammar();
    LoopItems(f, a);
    var s, w := a.trans[0][START], a.trans[0][WORD];
    assert CellPicked(g, a.states[0], a.trans[0], Null, WORD, Cell(g, t, 0, WORD));
    assert CellPicked(g, a.states[0], a.trans[0], Null, START, Cell(g, t, 0, START));
    assert CellPicked(g, a.states[w], a.trans[w], Null, 0, Cell(g, t, w, 0));
    assert CellPicked(g, a.states[s], a.trans[s], Null, 0, Cell(g, t, s, 0));
  }

  lemma LoopTurn(f: FirstInfo, a: Automaton, t: seq<nat>, input: seq<Lexeme>, c: Config)
    requires Generated(LoopGrammar(), f, a, Null, t, true) && |input| == 2 && input[1].tok == 0
    requires 0 < |a.states| == |a.trans| && START in a.trans[0] && c.states == [0, a.trans[0][START]] && |c.forest| == 1 && c.pos == 1
    ensures Step(LoopGrammar(), t, input, c) == Running(Config(c.states, [Node(1, c.forest)], 1))
  {
    hide Generated, Cell, Step;
    var g := LoopGrammar();
    LoopCells(f, a, t);
    var c' := Config([0] + [a.trans[0][START]], [] + [Node(1, c.forest)], 1);
    assert c.states[..1] == [0] && c'.states == c.states && c'.forest == [Node(1, c.forest)] && c.forest == [] + c.forest;
    ReduceTurn(g, t, input, c, 1, [0], [], c.forest, a.trans[0][START], c');
  }

  /** The configurations after the word: only the tree grows. */
  ghost predicate Looping(a: Automaton, o: Outcome)
    requires |a.trans| > 0 && START in a.trans[0]
  {
    o.Running? && o.c.states == [0, a.trans[0][START]] && |o.c.forest| == 1 && o.c.pos == 1
  }

  lemma LoopStart(f: FirstInfo, a: Automaton, t: seq<nat>, input: seq<Lexeme>)
    requires Generated(LoopGrammar(), f, a, Null, t, true) && |input| == 2 && input[0].tok == WORD && input[1].tok == 0
    ensures 0 < |a.states| == |a.trans| && START in a.trans[0]
    ensures Run(LoopGrammar(), t, input, 0).Running? && Run(LoopGrammar(), t, input, 1).Running?
    ensures Looping(a, Run(LoopGrammar(), t, input, 2))
  {
    hide Generated, Cell, Step;
    var g := LoopGrammar();
    LoopCells(f, a, t);
    var leaf := Leaf(WORD, input[0].val);
    var c1 := Config([0, a.trans[0][WORD]], [leaf], 1);
    var c2 := Config([0, a.trans[0][START]], [Node(2, [leaf])], 1);
    ShiftTurn(g, t, input, Start(), a.trans[0][WORD], c1);
    ReduceTurn(g, t, input, c1, 2, [0], [], [leaf], a.trans[0][START], c2);
    TurnThen(g, t, input, Start(), c1, 0);
    TurnThen(g, t, input, Start(), c1, 1);
    TurnThen(g, t, input, c1, c2, 0);
  }

  lemma {:induction false} LoopForever(f: FirstInfo, a: Automaton, t: seq<nat>, input: seq<Lexeme>, n: nat)
    requires Generated(LoopGrammar(), f, a, Null, t, true) && |input| == 2 && input[0].tok == WORD && input[1].tok == 0
    ensures Run(LoopGrammar(), t, input, n).Running?
    ensures n >= 2 ==> 0 < |a.trans| && START in a.trans[0] && Looping(a, Run(LoopGrammar(), t, input, n))
    decreases n
  {
    hide Generated, Step, Steps;
    LoopStart(f, a, t, input);
    if n > 2 {
      LoopForever(f, a, t, input, n - 1);
      var c := Run(LoopGrammar(), t, input, n - 1).c;
      LoopTurn(f, a, t, input, c);
      StepsAdd(LoopGrammar(), t, input, Running(Start()), n - 1, 1);
      TurnThen(LoopGrammar(), t, input, c, Step(LoopGrammar(), t, input, c).c, 0);
      StepsNone(LoopGrammar(), t, input, Step(LoopGrammar(), t, input, c));
    }
  }

  lemma StepsNone(g: Grammar, t: seq<nat>, input: seq<Lexeme>, o: Outcome)
    ensures Steps(g, t, input, o, 0) == o
  {
  }

  /** Completeness fails: the word is a sentence, and a clean table of either parser type never
      accepts it; the driver reduces S -> S for ever. */
  lemma CleanButIncomplete(f: FirstInfo, a: Automaton, t: seq<nat>, input: seq<Lexeme>, n: nat)
    requires Generated(LoopGrammar(), f, a, Null, t, true)
    requires |input| == 2 && input[0].tok == WORD && input[1].tok == 0
    ensures LoopGrammar().WellFormed() && InLanguage(LoopGrammar(), [WORD])
    ensures !NoAcceptReduce(LoopGrammar(), a) && !TableComplete(LoopGrammar(), a, t)
    ensures !Run(LoopGrammar(), t, input, n).Accepted?
  {
    hide Collected, TableSound, TablePicked, NoAcceptReduce, TableComplete, CoreAutomaton, Run, DerivesStar;
    var g := LoopGrammar();
    LoopWellFormed();
    LoopAcceptsAndReduces(f, a);
    CollectedGraph(g, f, a);
    PickedComplete(g, a, t);
    LoopForever(f, a, t, input, n);
    StarRule(g, 2);
  }

  /** A clean fill of the row exists: it depends on which of the two items comes first. */
  method FillInOrder(acceptFirst: bool) returns (word: nat, rr: nat, sr: nat)
    ensures sr == 0
    ensures acceptFirst ==> rr == 0 && Decode(word) == Reduce(1)
    ensures !acceptFirst ==> rr == 1 && Decode(word) == Accept
  {
    hide RowSoFar, RowCounted, Clash, Decode, Has;
    var g, accept, reduce := LoopGrammar(), Item(0, 1), Item(1, 1);
    var row := new nat[3];
    FillShifts(g, map[], row, 0);
    ShiftsSoFar(g, map[], Null, Row(g, row, 0));
    DecodeEncode(Accept);
    DecodeEncode(Reduce(1));
    if acceptFirst {
      rr, sr := PlaceOne(g, map[], Null, {}, accept, 0, row, 0, 0, 0, 0);
      rr, sr := PlaceOne(g, map[], Null, {} + {(accept, 0)}, reduce, 0, row, 0, rr, sr, 0);
    } else {
      rr, sr := PlaceOne(g, map[], Null, {}, reduce, 0, row, 0, 0, 0, 0);
      rr, sr := PlaceOne(g, map[], Null, {} + {(reduce, 0)}, accept, 0, row, 0, rr, sr, 0);
    }
    word := row[0];
  }

  // ------------------------------------------------ a clean table exists

  function LoopGraph(): Automaton {
    Automaton([map[Item(0, 0) := {0}, Item(1, 0) := {0}, Item(2, 0) := {0}],
               map[Item(0, 1) := {0}, Item(1, 1) := {0}],
               map[Item(2, 1) := {0}]],
              [map[START := 1, WORD := 2], map[], map[]])
  }

  /** Its table: the acceptance has given way to the reduction. */
  function LoopTable(): seq<nat> {
    [TOK_SYNTAX_ERROR, TOK_SHIFT_MASK + 2, TOK_SHIFT_MASK + 1,
     TOK_REDUCE_MASK + 1, TOK_SYNTAX_ERROR, TOK_SYNTAX_ERROR,
     TOK_REDUCE_MASK + 2, TOK_SYNTAX_ERROR, TOK_SYNTAX_ERROR]
  }

  lemma LoopSymbols()
    ensures var g := LoopGrammar();
            && Curr(g, Item(0, 0)) == START && Curr(g, Item(1, 0)) == START && Curr(g, Item(2, 0)) == WORD
            && IsFinal(g, Item(0, 1)) && IsFinal(g, Item(1, 1)) && IsFinal(g, Item(2, 1))
  {
  }

  lemma LoopStartClosed(f: FirstInfo)
    ensures IsClosed(LoopGrammar(), f, LoopGraph().states[0])
  {
    var g, m := LoopGrammar(), LoopGraph().states[0];
    LoopSymbols();
    assert Contribution(g, f, m, Item(0, 0)) == {0} && Contribution(g, f, m, Item(1, 0)) == {0};
  }

  lemma LoopStartLeast(f: FirstInfo, other: ItemSet)
    requires IsClosed(LoopGrammar(), f, other) && Leq(START_KERNEL, other)
    ensures Leq(LoopGraph().states[0], other)
  {
    var g := LoopGrammar();
    LoopSymbols();
    assert Item(0, 0) in START_KERNEL;
    assert Item(1, 0) in other && Item(2, 0) in other && Contribution(g, f, other, Item(0, 0)) == other[Item(0, 0)];
    assert Lhs(g, Item(1, 0)) == START && Lhs(g, Item(2, 0)) == START;
  }

  lemma LoopStartClosure(f: FirstInfo)
    ensures LeastClosure(LoopGrammar(), f, START_KERNEL, LoopGraph().states[0])
  {
    hide IsClosed;
    LoopStartClosed(f);
    forall other | IsClosed(LoopGrammar(), f, other) && Leq(START_KERNEL, other)
      ensures Leq(LoopGraph().states[0], other)
    {
      LoopStartLeast(f, other);
    }
  }

  lemma LoopFinals(f: FirstInfo, s: nat)
    requires s in {1, 2}
    ensures LeastClosure(LoopGrammar(), f, LoopGraph().states[s], LoopGraph().states[s])
  {
    hide IsClosed;
    LoopSymbols();
    NothingToExpand(LoopGrammar(), f, LoopGraph().states[s]);
  }

  lemma LoopAdvances(x: nat)
    requires x in {START, WORD}
    ensures Advance(LoopGrammar(), LoopGraph().states[0], x) == LoopGraph().states[if x == START then 1 else 2]
  {
    hide Advance;
    var g, m := LoopGrammar(), LoopGraph().states[0];
    LoopSymbols();
    AdvanceItem(g, m, Item(0, 0));
    AdvanceItem(g, m, Item(1, 0));
    AdvanceItem(g, m, Item(2, 0));
    forall next | next in Advance(g, m, x)
      ensures next in LoopGraph().states[if x == START then 1 else 2]
    {
      var from := AdvanceFrom(g, m, next, x);
    }
  }

  lemma LoopNext(s: nat)
    requires s < 3
    ensures LoopGraph().trans[s].Keys == NextSymbols(LoopGrammar(), LoopGraph().Core(s))
  {
    LoopSymbols();
    assert {Item(0, 0), Item(1, 0), Item(2, 0)} <= LoopGraph().Core(0);
  }

  lemma LoopCanonical(f: FirstInfo)
    ensures IsCanonical(LoopGrammar(), f, LoopGraph())
  {
    hide LeastClosure, NextSymbols, Advance;
    var g, a := LoopGrammar(), LoopGraph();
    LoopStartClosure(f);
    LoopFinals(f, 1);
    LoopFinals(f, 2);
    LoopAdvances(START);
    LoopAdvances(WORD);
    assert Link(a, 0, START, 1) && Link(a, 0, WORD, 2);
    forall s | 0 <= s < |a.states|
      ensures a.trans[s].Keys == NextSymbols(g, a.Core(s)) && (s > 0 ==> Reached(a, s))
    {
      LoopNext(s);
    }
    LoopDistinct();
  }

  lemma LoopDistinct()
    ensures forall s, s' | 0 <= s < s' < 3 :: LoopGraph().states[s] != LoopGraph().states[s']
  {
    assert Item(0, 0) in LoopGraph().states[0] && Item(0, 1) in LoopGraph().states[1] && Item(2, 1) in LoopGraph().states[2];
  }

  function LoopRow(s: nat): (row: seq<Action>)
    requires s < 3
    ensures |row| == 3
  {
    if s == 0 then [Error, Shift(2), Shift(1)] else [Reduce(s), Error, Error]
  }

  lemma LoopWord(s: nat, x: nat)
    requires s < 3 && x < 3
    ensures s * 3 + x < |LoopTable()| && Packs(LoopRow(s)[x]) && LoopTable()[s * 3 + x] == Encode(LoopRow(s)[x])
  {
  }

  lemma LoopCell(s: nat, x: nat)
    requires s < 3 && x < 3
    ensures Cell(LoopGrammar(), LoopTable(), s, x) == LoopRow(s)[x]
  {
    hide Decode, Encode, LoopTable, LoopRow;
    LoopWord(s, x);
    DecodeEncode(LoopRow(s)[x]);
  }

  lemma LoopReduces(s: nat, r: nat, x: nat)
    requires s < 3
    ensures Reduces(LoopGrammar(), LoopGraph().states[s], r, x) <==> x == 0 && ((s == 1 && r <= 1) || (s == 2 && r == 2))
  {
  }

  lemma LoopPicked(s: nat, x: nat)
    requires s < 3 && x < 3
    ensures CellSound(LoopGrammar(), LoopGraph().states[s], LoopGraph().trans[s], x, LoopRow(s)[x])
    ensures CellPicked(LoopGrammar(), LoopGraph().states[s], LoopGraph().trans[s], Null, x, LoopRow(s)[x])
  {
    hide Reduces;
    forall r: nat
      ensures Reduces(LoopGrammar(), LoopGraph().states[s], r, x) <==> x == 0 && ((s == 1 && r <= 1) || (s == 2 && r == 2))
    {
      LoopReduces(s, r, x);
    }
  }

  /** There is a clean generated table of the grammar, for all first sets. */
  lemma LoopTableGenerated(f: FirstInfo)
    requires LoopGrammar().WellFormed() && Computed(LoopGrammar(), f)
    ensures Generated(LoopGrammar(), f, LoopGraph(), Null, LoopTable(), true)
  {
    hide IsCanonical, CellSound, CellPicked, Cell, LoopTable, LoopGraph, LoopRow, CoreAutomaton;
    var g, a, t := LoopGrammar(), LoopGraph(), LoopTable();
    LoopCanonical(f);
    LoopSizes();
    forall s, x | 0 <= s < |a.states| && 0 <= x < g.tokenN
      ensures CellSound(g, a.states[s], a.trans[s], x, Cell(g, t, s, x))
      ensures CellPicked(g, a.states[s], a.trans[s], Null, x, Cell(g, t, s, x))
    {
      LoopCell(s, x);
      LoopPicked(s, x);
    }
  }

  lemma LoopSizes()
    ensures |LoopGraph().states| == |LoopGraph().trans| == 3 && IsTable(LoopGrammar(), 3, LoopTable())
  {
  }
}
