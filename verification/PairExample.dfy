/** The expected LALR(1) table of the repository's own test is a clean generated table of its
    grammar, and so it decides the grammar's language. */
module PairExample {
  import opened Graphs
  import opened Grammars
  import opened Closures
  import opened Visits
  import opened FirstProofs
  import opened Automata
  import opened Tables
  import opened Machines
  import opened Termination
  import opened Canonical
  import opened Explorations
  import opened Fillings
  import opened Rows
  import opened Pipelines
  import opened Covers
  import opened Rejections

  /** S -> A A, A -> a A | b. */
  function PairGrammar(): Grammar {
    Grammar([Rule(5, [3]), Rule(3, [4, 4]), Rule(4, [1, 4]), Rule(4, [2])], 5, 3)
  }

  const S: nat := TOK_SHIFT_MASK
  const R: nat := TOK_REDUCE_MASK

  function PairTable(): seq<nat> {
    [0, S + 3, S + 4, S + 1, S + 2,
     TOK_ACCEPT_MASK, 0, 0, 0, 0,
     0, S + 3, S + 4, 0, S + 6,
     0, S + 3, S + 4, 0, S + 5,
     R + 3, R + 3, R + 3, 0, 0,
     R + 2, R + 2, R + 2, 0, 0,
     R + 1, 0, 0, 0, 0]
  }

  lemma PairCells()
    ensures var g, t := PairGrammar(), PairTable();
            && Cell(g, t, 0, 2) == Shift(4) && Cell(g, t, 4, 2) == Reduce(3) && Cell(g, t, 0, 4) == Shift(2)
            && Cell(g, t, 2, 2) == Shift(4) && Cell(g, t, 4, 0) == Reduce(3) && Cell(g, t, 2, 4) == Shift(6)
            && Cell(g, t, 6, 0) == Reduce(1) && Cell(g, t, 0, 3) == Shift(1) && Cell(g, t, 1, 0) == Accept
  {
    hide Cell, PairTable;
    PairRow(0, 2);
    PairRow(4, 2);
    PairRow(0, 4);
    PairRow(2, 2);
    PairRow(4, 0);
    PairRow(2, 4);
    PairRow(6, 0);
    PairRow(0, 3);
    PairRow(1, 0);
  }

  /** The expected table of the repository's test, driven over `b b`: accepted after six turns, by two
      reductions to A and one to S. */
  lemma PairTableAccepts(input: seq<Lexeme>)
    requires |input| == 3 && input[0].tok == 2 && input[1].tok == 2 && input[2].tok == 0
    ensures var o := Run(PairGrammar(), PairTable(), input, 6);
            o.Accepted? && Postorders(o.c.forest) == [3, 3, 1]
  {
    hide Step, Reduced, Cell, PairTable, Steps, Postorders;
    var g, t := PairGrammar(), PairTable();
    PairCells();
    var b0, b1 := Leaf(2, input[0].val), Leaf(2, input[1].val);
    var c1, c2 := Config([0, 4], [b0], 1), Config([0, 2], [Node(3, [b0])], 1);
    var c3, c4 := Config([0, 2, 4], [Node(3, [b0]), b1], 2), Config([0, 2, 6], [Node(3, [b0]), Node(3, [b1])], 2);
    var c5 := Config([0, 1], [Node(1, [Node(3, [b0]), Node(3, [b1])])], 2);
    ShiftTurn(g, t, input, Start(), 4, c1);
    ReduceTurn(g, t, input, c1, 3, [0], [], [b0], 2, c2);
    ShiftTurn(g, t, input, c2, 4, c3);
    ReduceTurn(g, t, input, c3, 3, [0, 2], [Node(3, [b0])], [b1], 6, c4);
    ReduceTurn(g, t, input, c4, 1, [0], [], [Node(3, [b0]), Node(3, [b1])], 1, c5);
    LastTurn(g, t, input, c5);
    TurnThen(g, t, input, Start(), c1, 5);
    TurnThen(g, t, input, c1, c2, 4);
    TurnThen(g, t, input, c2, c3, 3);
    TurnThen(g, t, input, c3, c4, 2);
    TurnThen(g, t, input, c4, c5, 1);
    PairOrder(b0, b1);
  }

  lemma PairOrder(b0: Tree, b1: Tree)
    requires b0.Leaf? && b1.Leaf?
    ensures Postorders([Node(1, [Node(3, [b0]), Node(3, [b1])])]) == [3, 3, 1]
  {
    var a0, a1 := Node(3, [b0]), Node(3, [b1]);
    PushOne(b0, 3);
    PushOne(b1, 3);
    assert [a0, a1][..1] == [a0] && [a0][..0] == [] && Postorders([a0]) == [] + Postorder(a0);
    assert Postorders([a0, a1]) == [3] + [3];
    var s := Node(1, [a0, a1]);
    assert [s][..0] == [] && Postorders([s]) == [] + Postorder(s);
  }

  lemma PushOne(b: Tree, r: nat)
    requires b.Leaf?
    ensures Postorder(Node(r, [b])) == [r]
  {
    assert [b][..0] == [] && Postorders([b]) == [] + Postorder(b);
  }

  lemma PairWellFormed()
    ensures PairGrammar().WellFormed()
  {
    var g := PairGrammar();
    assert g.rules[1].lhs == 3 && g.rules[2].lhs == 4;
  }

  // ------------------------------------------------ first sets

  lemma VisitA(st: State)
    requires st == Initial(PairGrammar()) && PairGrammar().WellFormed()
    ensures var st' := Visit(PairGrammar(), st, 4, {}); st'.info.First(4) == {1, 2} && 4 in st'.done
  {
    var g := PairGrammar();
    var v: set<nat> := {4};
    assert {} + {4} == v;
    var st2 := VisitRule(g, st, 4, v, 2);
    var st3 := VisitRule(g, st2, 4, v, 3);
    assert VisitRules(g, st, 4, v, 0) == VisitRules(g, st, 4, v, 1) == VisitRules(g, st, 4, v, 2)
        == VisitRules(g, st2, 4, v, 3) == VisitRules(g, st3, 4, v, 4) == st3;
  }

  /** Visiting A first, and then the others, keeps what is found for A. */
  lemma PairOrderKeeps()
    requires PairGrammar().WellFormed()
    ensures IsOrder(PairGrammar(), [4, 3, 5])
    ensures var f := VisitAll(PairGrammar(), Initial(PairGrammar()), [4, 3, 5]).info; f.First(4) == {1, 2}
  {
    hide Visit;
    var g, order := PairGrammar(), [4, 3, 5];
    VisitA(Initial(g));
    assert order[..2][..1] == [4] && order[..2] == [4, 3] && [4][..0] == [];
    assert forall x: nat | x in LeftSides(g) :: x in {order[0], order[1], order[2]};
    var st1 := Visit(g, Initial(g), 4, {});
    var st2 := Visit(g, st1, 3, {});
    VisitGrows(g, st1, 3, {});
    VisitGrows(g, st2, 5, {});
    assert VisitAll(g, Initial(g), []) == Initial(g);
    assert VisitAll(g, Initial(g), [4]) == st1;
    assert VisitAll(g, Initial(g), [4, 3]) == st2;
  }

  /** Some order of visits finds that A begins with a and b, and is not empty. */
  lemma PairFirst() returns (f: FirstInfo)
    ensures PairGrammar().WellFormed() && Computed(PairGrammar(), f) && f.First(4) == {1, 2} && 4 !in f.empty
  {
    hide VisitAll, Sound, Exact, FirstClosed, PlainHeads, Derives, IsOrder;
    PairWellFormed();
    PairOrderKeeps();
    var g, order := PairGrammar(), [4, 3, 5];
    assert forall i | 0 <= i < |order| :: order[i] in LeftSides(g);
    f := VisitAll(g, Initial(g), order).info;
    ComputedFirst(g, f);
    if 4 in f.empty {
      SoundFlag(g, f, 4);
      var n: nat :| Derives(g, [4], [], n);
      NothingShrinks(g, [4], [], n);
    }
  }

  // ------------------------------------------------ the CLR(1) graph

  function Alone(r: nat, d: nat, la: set<nat>): ItemSet {
    map[Item(r, d) := la]
  }

  /** An item with A after its dot, and the productions of A. */
  function WithA(r: nat, d: nat, la: set<nat>): ItemSet {
    map[Item(r, d) := la, Item(2, 0) := la, Item(3, 0) := la]
  }

  function FirstState(): ItemSet {
    map[Item(0, 0) := {0}, Item(1, 0) := {0}, Item(2, 0) := {1, 2}, Item(3, 0) := {1, 2}]
  }

  function PairGraph(): Automaton {
    Automaton([FirstState(), Alone(0, 1, {0}), WithA(1, 1, {0}), WithA(2, 1, {1, 2}), Alone(3, 1, {1, 2}),
               Alone(1, 2, {0}), WithA(2, 1, {0}), Alone(3, 1, {0}), Alone(2, 2, {1, 2}), Alone(2, 2, {0})],
              [map[1 := 3, 2 := 4, 3 := 1, 4 := 2], map[], map[1 := 6, 2 := 7, 4 := 5], map[1 := 3, 2 := 4, 4 := 8], map[],
               map[], map[1 := 6, 2 := 7, 4 := 9], map[], map[], map[]])
  }

  lemma PairSymbols()
    ensures var g := PairGrammar();
            && Curr(g, Item(0, 0)) == 3 && Curr(g, Item(1, 0)) == 4 && Curr(g, Item(1, 1)) == 4
            && Curr(g, Item(2, 0)) == 1 && Curr(g, Item(2, 1)) == 4 && Curr(g, Item(3, 0)) == 2
            && IsFinal(g, Item(0, 1)) && IsFinal(g, Item(1, 2)) && IsFinal(g, Item(2, 2)) && IsFinal(g, Item(3, 1))
  {
  }

  lemma AloneClosure(f: FirstInfo, r: nat, d: nat, la: set<nat>)
    requires (r, d) in {(0, 1), (1, 2), (2, 2), (3, 1)} && la <= {0, 1, 2}
    ensures LeastClosure(PairGrammar(), f, Alone(r, d, la), Alone(r, d, la))
  {
    hide IsClosed;
    PairSymbols();
    NothingToExpand(PairGrammar(), f, Alone(r, d, la));
  }

  lemma WithAClosure(f: FirstInfo, r: nat, d: nat, la: set<nat>)
    requires (r, d) in {(1, 1), (2, 1)} && la <= {0, 1, 2}
    ensures LeastClosure(PairGrammar(), f, Alone(r, d, la), WithA(r, d, la))
  {
    hide IsClosed;
    WithAClosed(f, r, d, la);
    forall other | IsClosed(PairGrammar(), f, other) && Leq(Alone(r, d, la), other)
      ensures Leq(WithA(r, d, la), other)
    {
      WithALeast(f, r, d, la, other);
    }
    WithABounded(r, d, la);
  }

  lemma WithABounded(r: nat, d: nat, la: set<nat>)
    requires (r, d) in {(1, 1), (2, 1)} && la <= {0, 1, 2}
    ensures Bounded(PairGrammar(), WithA(r, d, la))
  {
  }

  lemma WithAClosed(f: FirstInfo, r: nat, d: nat, la: set<nat>)
    requires (r, d) in {(1, 1), (2, 1)}
    ensures IsClosed(PairGrammar(), f, WithA(r, d, la))
  {
    var g, m := PairGrammar(), WithA(r, d, la);
    PairSymbols();
    assert Contribution(g, f, m, Item(r, d)) == la;
  }

  lemma WithALeast(f: FirstInfo, r: nat, d: nat, la: set<nat>, other: ItemSet)
    requires (r, d) in {(1, 1), (2, 1)} && IsClosed(PairGrammar(), f, other) && Leq(Alone(r, d, la), other)
    ensures Leq(WithA(r, d, la), other)
  {
    var g, it := PairGrammar(), Item(r, d);
    PairSymbols();
    assert it in Alone(r, d, la);
    assert Item(2, 0) in other && Item(3, 0) in other;
    assert Contribution(g, f, other, it) == other[it];
    assert Lhs(g, Item(2, 0)) == 4 && Lhs(g, Item(3, 0)) == 4;
  }

  lemma FirstStateClosure(f: FirstInfo)
    requires f.First(4) == {1, 2} && 4 !in f.empty
    ensures LeastClosure(PairGrammar(), f, START_KERNEL, FirstState())
  {
    hide IsClosed;
    FirstStateIsClosed(f);
    forall other | IsClosed(PairGrammar(), f, other) && Leq(START_KERNEL, other)
      ensures Leq(FirstState(), other)
    {
      FirstStateLeast(f, other);
    }
    FirstStateBounded();
  }

  lemma FirstStateBounded()
    ensures Bounded(PairGrammar(), FirstState())
  {
  }

  lemma FirstContributions(f: FirstInfo)
    requires f.First(4) == {1, 2} && 4 !in f.empty
    ensures Contribution(PairGrammar(), f, FirstState(), Item(0, 0)) == {0}
    ensures Contribution(PairGrammar(), f, FirstState(), Item(1, 0)) == {1, 2}
  {
    PairSymbols();
  }

  lemma FirstStateIsClosed(f: FirstInfo)
    requires f.First(4) == {1, 2} && 4 !in f.empty
    ensures IsClosed(PairGrammar(), f, FirstState())
  {
    hide Contribution;
    PairSymbols();
    FirstContributions(f);
  }

  lemma FirstStateLeast(f: FirstInfo, other: ItemSet)
    requires f.First(4) == {1, 2} && 4 !in f.empty && IsClosed(PairGrammar(), f, other) && Leq(START_KERNEL, other)
    ensures Leq(FirstState(), other)
  {
    var g := PairGrammar();
    PairSymbols();
    assert Item(0, 0) in START_KERNEL;
    assert Item(1, 0) in other && Contribution(g, f, other, Item(0, 0)) == other[Item(0, 0)] && Lhs(g, Item(1, 0)) == 3;
    assert Item(2, 0) in other && Item(3, 0) in other && Contribution(g, f, other, Item(1, 0)) == {1, 2};
    assert Lhs(g, Item(2, 0)) == 4 && Lhs(g, Item(3, 0)) == 4;
  }

  /** A set with one item before x moves to that item alone. */
  lemma AdvanceAlone(g: Grammar, m: ItemSet, x: nat, it: Item)
    requires it in m && NotFinal(g, it) && Curr(g, it) == x
    requires forall other | other in m && NotFinal(g, other) && Curr(g, other) == x :: other == it
    ensures Advance(g, m, x) == Alone(it.rule, it.dot + 1, m[it])
  {
    hide Advance;
    AdvanceItem(g, m, it);
    forall next | next in Advance(g, m, x)
      ensures next == Item(it.rule, it.dot + 1)
    {
      var from := AdvanceFrom(g, m, next, x);
    }
  }

  lemma FirstStateEdge(f: FirstInfo, x: nat)
    requires x in {1, 2, 3, 4}
    ensures ClosureEdge(PairGrammar(), f, PairGraph(), 0, x)
  {
    hide LeastClosure, Advance;
    PairSymbols();
    AdvanceAlone(PairGrammar(), FirstState(), x, if x == 1 then Item(2, 0) else if x == 2 then Item(3, 0) else if x == 3 then Item(0, 0) else Item(1, 0));
    WithAClosure(f, 2, 1, {1, 2});
    AloneClosure(f, 3, 1, {1, 2});
    AloneClosure(f, 0, 1, {0});
    WithAClosure(f, 1, 1, {0});
  }

  lemma InnerEdge(f: FirstInfo, s: nat, r: nat, la: set<nat>, x: nat)
    requires (s == 2 && r == 1 && la == {0}) || (s == 3 && r == 2 && la == {1, 2}) || (s == 6 && r == 2 && la == {0})
    requires x in {1, 2, 4}
    ensures ClosureEdge(PairGrammar(), f, PairGraph(), s, x)
  {
    hide LeastClosure, Advance, PairGraph;
    InnerTarget(s, r, la, x);
    InnerAdvance(r, la, x);
    WithAClosure(f, 2, 1, la);
    AloneClosure(f, 3, 1, la);
    AloneClosure(f, r, 2, la);
  }

  lemma InnerAdvance(r: nat, la: set<nat>, x: nat)
    requires r in {1, 2} && x in {1, 2, 4}
    ensures Advance(PairGrammar(), WithA(r, 1, la), x) == if x == 1 then Alone(2, 1, la) else if x == 2 then Alone(3, 1, la) else Alone(r, 2, la)
  {
    hide Advance;
    PairSymbols();
    AdvanceAlone(PairGrammar(), WithA(r, 1, la), x, if x == 1 then Item(2, 0) else if x == 2 then Item(3, 0) else Item(r, 1));
  }

  lemma InnerTarget(s: nat, r: nat, la: set<nat>, x: nat)
    requires (s == 2 && r == 1 && la == {0}) || (s == 3 && r == 2 && la == {1, 2}) || (s == 6 && r == 2 && la == {0})
    requires x in {1, 2, 4}
    ensures var a := PairGraph();
            && |a.states| == |a.trans| == 10 && a.states[s] == WithA(r, 1, la) && x in a.trans[s] && a.trans[s][x] < 10
            && a.states[a.trans[s][x]] == if x == 1 then WithA(2, 1, la) else if x == 2 then Alone(3, 1, la) else Alone(r, 2, la)
  {
    hide Alone, WithA;
  }

  lemma PairNext(s: nat)
    requires s < 10
    ensures PairGraph().trans[s].Keys == NextSymbols(PairGrammar(), PairGraph().Core(s))
  {
    hide NextSymbols, WithA, Alone, FirstState;
    if s == 0 {
      FirstNext();
    } else if s in {2, 3, 6} {
      WithANext(if s == 2 then 1 else 2, if s == 3 then {1, 2} else {0});
    } else if s == 1 {
      AloneNext(0, 1, {0});
    } else if s in {4, 7} {
      AloneNext(3, 1, if s == 4 then {1, 2} else {0});
    } else if s == 5 {
      AloneNext(1, 2, {0});
    } else {
      AloneNext(2, 2, if s == 8 then {1, 2} else {0});
    }
  }

  lemma FirstNext()
    ensures NextSymbols(PairGrammar(), FirstState().Keys) == {1, 2, 3, 4}
  {
    PairSymbols();
    assert {Item(0, 0), Item(1, 0), Item(2, 0), Item(3, 0)} <= FirstState().Keys;
  }

  lemma WithANext(r: nat, la: set<nat>)
    requires r in {1, 2}
    ensures NextSymbols(PairGrammar(), WithA(r, 1, la).Keys) == {1, 2, 4}
  {
    PairSymbols();
    assert {Item(r, 1), Item(2, 0), Item(3, 0)} <= WithA(r, 1, la).Keys;
  }

  lemma AloneNext(r: nat, d: nat, la: set<nat>)
    requires (r, d) in {(0, 1), (1, 2), (2, 2), (3, 1)}
    ensures NextSymbols(PairGrammar(), Alone(r, d, la).Keys) == {}
  {
    PairSymbols();
  }

  lemma PairReached(s: nat)
    requires 0 < s < 10
    ensures Reached(PairGraph(), s)
  {
    if s <= 4 {
      assert Link(PairGraph(), 0, if s == 1 then 3 else if s == 2 then 4 else if s == 3 then 1 else 2, s);
    } else if s <= 7 {
      assert Link(PairGraph(), 2, if s == 5 then 4 else if s == 6 then 1 else 2, s);
    } else {
      assert Link(PairGraph(), if s == 8 then 3 else 6, 4, s);
    }
  }

  /** The class of each state of the CLR(1) graph, as the test numbers them. */
  function PairClasses(): seq<nat> {
    [0, 1, 2, 3, 4, 6, 3, 4, 5, 5]
  }

  /** The item that tells a class from the others. */
  function Mark(i: nat): Item {
    if i == 0 then Item(0, 0) else if i == 1 then Item(0, 1) else if i == 2 then Item(1, 1) else if i == 3 then Item(2, 1)
    else if i == 4 then Item(3, 1) else if i == 5 then Item(2, 2) else Item(1, 2)
  }

  /** The items of a class. */
  function ClassItems(i: nat): set<Item> {
    if i == 0 then FirstState().Keys else if i in {2, 3} then {Mark(i), Item(2, 0), Item(3, 0)} else {Mark(i)}
  }

  lemma KeysAre(r: nat, d: nat, la: set<nat>)
    ensures Alone(r, d, la).Keys == {Item(r, d)} && WithA(r, d, la).Keys == {Item(r, d), Item(2, 0), Item(3, 0)}
  {
  }

  lemma ClassCore(s: nat)
    requires s < 10
    ensures PairGraph().Core(s) == ClassItems(PairClasses()[s])
  {
    hide FirstState, Alone, WithA;
    var la: set<nat> := if s in {3, 4, 8} then {1, 2} else {0};
    var it := Mark(PairClasses()[s]);
    KeysAre(it.rule, it.dot, la);
  }

  lemma MarkApart(i: nat, j: nat)
    requires i < 7 && j < 7
    ensures Mark(i) in ClassItems(j) <==> i == j
  {
  }

  lemma MarkIn(s: nat, i: nat)
    requires s < 10 && i < 7
    ensures Mark(i) in PairGraph().Core(s) <==> PairClasses()[s] == i
  {
    hide PairGraph, ClassItems, Mark;
    ClassCore(s);
    MarkApart(i, PairClasses()[s]);
  }

  lemma PairDistinct(s: nat, s': nat)
    requires s < s' < 10
    ensures PairGraph().states[s] != PairGraph().states[s']
  {
    hide PairGraph;
    PairSizes();
    MarkIn(s, PairClasses()[s]);
    MarkIn(s', PairClasses()[s]);
    if PairClasses()[s] == PairClasses()[s'] {
      assert (s, s') in {(3, 6), (4, 7), (8, 9)};
      TwinsDiffer(s, s');
    }
  }

  lemma TwinsDiffer(s: nat, s': nat)
    requires (s, s') in {(3, 6), (4, 7), (8, 9)}
    ensures PairGraph().states[s] != PairGraph().states[s']
  {
    var it := if s == 3 then Item(2, 1) else if s == 4 then Item(3, 1) else Item(2, 2);
    assert 1 in PairGraph().states[s][it] && 1 !in PairGraph().states[s'][it];
  }

  lemma PairCanonical(f: FirstInfo)
    requires f.First(4) == {1, 2} && 4 !in f.empty
    ensures IsCanonical(PairGrammar(), f, PairGraph())
  {
    hide LeastClosure, ClosureEdge, Reached, NextSymbols;
    var g, a := PairGrammar(), PairGraph();
    FirstStateClosure(f);
    forall s | 0 <= s < |a.states|
      ensures a.trans[s].Keys == NextSymbols(g, a.Core(s)) && (s > 0 ==> Reached(a, s))
    {
      PairNext(s);
      if s > 0 {
        PairReached(s);
      }
    }
    forall s, x | 0 <= s < |a.states| && x in a.trans[s]
      ensures ClosureEdge(g, f, a, s, x)
    {
      if s == 0 {
        FirstStateEdge(f, x);
      } else {
        InnerEdge(f, s, if s == 2 then 1 else 2, if s == 3 then {1, 2} else {0}, x);
      }
    }
    forall s, s' | 0 <= s < s' < |a.states|
      ensures a.states[s] != a.states[s']
    {
      PairDistinct(s, s');
    }
  }

  // ------------------------------------------------ merged

  const ANY: set<nat> := {0, 1, 2}

  function PairMerged(): Automaton {
    Automaton([FirstState(), Alone(0, 1, {0}), WithA(1, 1, {0}), WithA(2, 1, ANY), Alone(3, 1, ANY), Alone(2, 2, ANY), Alone(1, 2, {0})],
              [map[1 := 3, 2 := 4, 3 := 1, 4 := 2], map[], map[1 := 3, 2 := 4, 4 := 6], map[1 := 3, 2 := 4, 4 := 5], map[], map[], map[]])
  }

  lemma PairClassOf(s: nat)
    requires s < 10
    ensures Merged(PairGraph(), PairMerged(), PairClasses(), s)
  {
    hide Merged;
    if s <= 2 {
      ClassKept(s);
    } else if s in {3, 6} {
      ClassOfA(s);
    } else {
      ClassDone(s);
    }
  }

  lemma ClassKept(s: nat)
    requires s <= 2
    ensures Merged(PairGraph(), PairMerged(), PairClasses(), s)
  {
    hide Alone, WithA, FirstState;
  }

  lemma ClassOfA(s: nat)
    requires s in {3, 6}
    ensures Merged(PairGraph(), PairMerged(), PairClasses(), s)
  {
    hide Alone, WithA, FirstState;
    WithALeq(if s == 3 then {1, 2} else {0}, ANY);
  }

  lemma WithALeq(la: set<nat>, more: set<nat>)
    requires la <= more
    ensures WithA(2, 1, la).Keys == WithA(2, 1, more).Keys
    ensures forall it | it in WithA(2, 1, la) :: WithA(2, 1, la)[it] <= WithA(2, 1, more)[it]
  {
  }

  lemma ClassDone(s: nat)
    requires s in {4, 5, 7, 8, 9}
    ensures Merged(PairGraph(), PairMerged(), PairClasses(), s)
  {
  }

  lemma PairSameClass(s: nat, s': nat)
    requires s < 10 && s' < 10
    ensures PairClasses()[s] == PairClasses()[s'] <==> PairGraph().Core(s) == PairGraph().Core(s')
  {
    hide PairGraph, PairMerged;
    PairSizes();
    MarkIn(s, PairClasses()[s]);
    MarkIn(s', PairClasses()[s]);
    PairClassOf(s);
    PairClassOf(s');
  }

  lemma PairContributed(i: nat, it: Item, x: nat)
    requires i < 7 && it in PairMerged().states[i] && x in PairMerged().states[i][it]
    ensures Contributed(PairGraph(), PairClasses(), i, it, x)
  {
    var s := if i <= 2 then i else if i == 6 then 5 else if i == 3 then (if x == 0 then 6 else 3) else if i == 4 then (if x == 0 then 7 else 4)
             else (if x == 0 then 9 else 8);
    assert PairClasses()[s] == i && it in PairGraph().states[s] && x in PairGraph().states[s][it];
  }

  lemma PairQuotient()
    ensures IsQuotient(PairGrammar(), PairGraph(), PairMerged(), PairClasses())
  {
    hide Merged, Contributed, PairGraph, PairMerged;
    var a0, a1, c := PairGraph(), PairMerged(), PairClasses();
    PairSizes();
    forall s | 0 <= s < |c|
      ensures Merged(a0, a1, c, s)
    {
      PairClassOf(s);
    }
    forall s, s' | 0 <= s < |c| && 0 <= s' < |c|
      ensures c[s] == c[s'] <==> a0.Core(s) == a0.Core(s')
    {
      PairSameClass(s, s');
    }
    forall i | 0 <= i < |a1.states|
      ensures Occurs(c, i)
    {
      assert c[if i <= 4 then i else if i == 5 then 8 else 5] == i;
    }
    forall i, it, x | 0 <= i < |a1.states| && it in a1.states[i] && x in a1.states[i][it]
      ensures Contributed(a0, c, i, it, x)
    {
      PairContributed(i, it, x);
    }
  }

  lemma PairSizes()
    ensures |PairGraph().states| == |PairGraph().trans| == 10 && |PairMerged().states| == |PairMerged().trans| == 7
  {
  }

  // ------------------------------------------------ the table

  function Row(s: nat): (row: seq<Action>)
    requires s < 7
    ensures |row| == 5
  {
    if s == 0 then [Error, Shift(3), Shift(4), Shift(1), Shift(2)]
    else if s == 1 then [Accept, Error, Error, Error, Error]
    else if s == 2 then [Error, Shift(3), Shift(4), Error, Shift(6)]
    else if s == 3 then [Error, Shift(3), Shift(4), Error, Shift(5)]
    else if s == 4 then [Reduce(3), Reduce(3), Reduce(3), Error, Error]
    else if s == 5 then [Reduce(2), Reduce(2), Reduce(2), Error, Error]
    else [Reduce(1), Error, Error, Error, Error]
  }

  lemma PairRow(s: nat, x: nat)
    requires s < 7 && x < 5
    ensures Cell(PairGrammar(), PairTable(), s, x) == Row(s)[x]
  {
    hide Decode, Encode, PairTable, Row;
    PairWord(s, x);
    DecodeEncode(Row(s)[x]);
  }

  lemma PairWord(s: nat, x: nat)
    requires s < 7 && x < 5
    ensures Packs(Row(s)[x])
    ensures s * 5 + x < |PairTable()| && PairTable()[s * 5 + x] == Encode(Row(s)[x])
  {
    hide PairTable, Row, Encode, Packs;
    if s < 4 {
      ShiftWord(s, x);
    } else {
      ReduceWord(s, x);
    }
  }

  lemma ShiftWord(s: nat, x: nat)
    requires s < 4 && x < 5
    ensures Packs(Row(s)[x])
    ensures s * 5 + x < |PairTable()| && PairTable()[s * 5 + x] == Encode(Row(s)[x])
  {
  }

  lemma ReduceWord(s: nat, x: nat)
    requires 4 <= s < 7 && x < 5
    ensures Packs(Row(s)[x])
    ensures s * 5 + x < |PairTable()| && PairTable()[s * 5 + x] == Encode(Row(s)[x])
  {
  }

  lemma FinalsAre(s: nat, r: nat, x: nat)
    requires s < 7
    ensures Reduces(PairGrammar(), PairMerged().states[s], r, x)
       <==> (s == 1 && r == 0 && x == 0) || (s == 4 && r == 3 && x <= 2) || (s == 5 && r == 2 && x <= 2) || (s == 6 && r == 1 && x == 0)
  {
  }

  /** A state that cannot reduce on x. */
  lemma OnlyMove(m: ItemSet, trans: map<nat, nat>, x: nat)
    requires forall r: nat :: !Reduces(PairGrammar(), m, r, x)
    ensures var act := if x in trans then Shift(trans[x]) else Error;
            CellSound(PairGrammar(), m, trans, x, act) && CellPicked(PairGrammar(), m, trans, Null, x, act)
  {
    hide Reduces;
  }

  /** A state that can only reduce by r on x. */
  lemma OnlyReduction(m: ItemSet, trans: map<nat, nat>, x: nat, r: nat)
    requires x !in trans && forall q: nat :: Reduces(PairGrammar(), m, q, x) <==> q == r
    ensures var act := if r == 0 then Accept else Reduce(r);
            CellSound(PairGrammar(), m, trans, x, act) && CellPicked(PairGrammar(), m, trans, Null, x, act)
  {
    hide Reduces;
  }

  lemma PairCell(s: nat, x: nat)
    requires s < 7 && x < 5
    ensures CellSound(PairGrammar(), PairMerged().states[s], PairMerged().trans[s], x, Row(s)[x])
    ensures CellPicked(PairGrammar(), PairMerged().states[s], PairMerged().trans[s], Null, x, Row(s)[x])
  {
    hide Reduces, CellSound, CellPicked, PairMerged;
    PairSizes();
    RowMoves(s, x);
    forall r: nat
      ensures Reduces(PairGrammar(), PairMerged().states[s], r, x)
         <==> (s == 1 && r == 0 && x == 0) || (s == 4 && r == 3 && x <= 2) || (s == 5 && r == 2 && x <= 2) || (s == 6 && r == 1 && x == 0)
    {
      FinalsAre(s, r, x);
    }
    if (s in {1, 6} && x == 0) || (s in {4, 5} && x <= 2) {
      OnlyReduction(PairMerged().states[s], PairMerged().trans[s], x, if s == 1 then 0 else if s == 4 then 3 else if s == 5 then 2 else 1);
    } else {
      OnlyMove(PairMerged().states[s], PairMerged().trans[s], x);
    }
  }

  lemma RowMoves(s: nat, x: nat)
    requires s < 7 && x < 5
    ensures var trans := PairMerged().trans[s];
            && (x in trans <==> Row(s)[x].Shift?) && (x in trans ==> Row(s)[x] == Shift(trans[x]))
            && (s in {1, 4, 5, 6} ==> x !in trans)
            && (!Row(s)[x].Shift? && !((s in {1, 6} && x == 0) || (s in {4, 5} && x <= 2)) ==> Row(s)[x] == Error)
  {
    hide Alone, WithA, FirstState;
  }

  /** The test's table is generated, without a conflict, for the merged graph. */
  lemma PairTableGenerated() returns (f: FirstInfo, a: Automaton)
    ensures Generated(PairGrammar(), f, a, Null, PairTable(), true)
  {
    hide IsCanonical, IsQuotient, CellSound, CellPicked, Cell, PairTable, PairMerged, PairGraph, CoreAutomaton;
    f := PairFirst();
    a := PairMerged();
    PairCanonical(f);
    PairQuotient();
    PairSizes();
    PairTableSize();
    forall s, x | 0 <= s < |a.states| && 0 <= x < PairGrammar().tokenN
      ensures CellSound(PairGrammar(), a.states[s], a.trans[s], x, Cell(PairGrammar(), PairTable(), s, x))
      ensures CellPicked(PairGrammar(), a.states[s], a.trans[s], Null, x, Cell(PairGrammar(), PairTable(), s, x))
    {
      PairRow(s, x);
      PairCell(s, x);
    }
  }

  lemma PairTableSize()
    ensures IsTable(PairGrammar(), 7, PairTable())
  {
  }

  function Rank(x: nat): nat {
    if x == 5 then 0 else if x == 3 then 1 else if x == 4 then 2 else 3
  }

  lemma CornerRises(a: nat, b: nat)
    requires LeftCorner(PairGrammar(), a, b)
    ensures Rank(a) < Rank(b)
  {
  }

  lemma {:induction false} RankRises(a: nat, b: nat, n: nat)
    requires ReachesIn(LeftCorners(PairGrammar()), a, b, n)
    ensures Rank(a) < Rank(b)
    decreases n
  {
    hide LeftCorner, Rank;
    if LeftCorner(PairGrammar(), a, b) {
      CornerRises(a, b);
    } else {
      var c: nat :| LeftCorner(PairGrammar(), a, c) && ReachesIn(LeftCorners(PairGrammar()), c, b, n - 1);
      CornerRises(a, c);
      RankRises(c, b, n - 1);
    }
  }

  lemma PairTame()
    ensures Tame(PairGrammar())
  {
    hide LeftCorner;
    var g := PairGrammar();
    forall a: nat, b: nat | a != b && Reaches(LeftCorners(g), a, b)
      ensures !Reaches(LeftCorners(g), b, a)
    {
      var n: nat :| ReachesIn(LeftCorners(g), a, b, n);
      RankRises(a, b, n);
      if Reaches(LeftCorners(g), b, a) {
        var m: nat :| ReachesIn(LeftCorners(g), b, a, m);
        RankRises(b, a, m);
      }
    }
  }

  /** On every input the expected table of the test answers within a linear number of turns, and
      accepts exactly the sentences. */
  lemma PairTableDecides(input: seq<Lexeme>)
    requires IsInput(PairGrammar(), input)
    ensures PairGrammar().WellFormed()
    ensures var o := Run(PairGrammar(), PairTable(), input, StepBound(PairGrammar(), input));
            && !o.Running?
            && (o.Accepted? <==> input[|input| - 1].tok == 0 && InLanguage(PairGrammar(), Symbols(input[..|input| - 1])))
  {
    hide Generated, Run, PairTable, InLanguage, Tame;
    PairWellFormed();
    var f, a := PairTableGenerated();
    PairTame();
    TameDecides(PairGrammar(), f, a, PairTable(), input);
  }
}
