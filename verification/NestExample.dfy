/** A grammar whose computed closure is larger than the textbook's. */
module NestExample {
  import opened Grammars
  import opened Closures
  import opened Automata
  import opened Canonical
  import opened Explorations
  import opened Textbooks

  /** S -> a S b | c: with the dot behind the a, the item itself is expanded. */
  function NestGrammar(): Grammar {
    Grammar([Rule(5, [4]), Rule(4, [1, 4, 2]), Rule(4, [3])], 5, 4)
  }

  function NestKernel(): ItemSet {
    map[Item(1, 1) := {0}]
  }

  /** The textbook closure of the kernel: the kernel item keeps its lookahead. */
  function NestTextbook(): ItemSet {
    map[Item(1, 1) := {0}, Item(1, 0) := {2}, Item(2, 0) := {2}]
  }

  lemma NestTextbookClosed(f: FirstInfo)
    ensures TextbookClosed(NestGrammar(), f, NestTextbook()) && Leq(NestKernel(), NestTextbook())
  {
    var g, m := NestGrammar(), NestTextbook();
    assert Curr(g, Item(1, 1)) == 4 && Curr(g, Item(1, 0)) == 1 && Curr(g, Item(2, 0)) == 3;
    assert Contribution(g, f, m, Item(1, 1)) == {2};
  }

  lemma NestTextbookBelow(f: FirstInfo, other: ItemSet)
    requires TextbookClosed(NestGrammar(), f, other) && Leq(NestKernel(), other)
    ensures Leq(NestTextbook(), other)
  {
    var g, it := NestGrammar(), Item(1, 1);
    assert it in NestKernel() && it in other;
    assert AtNonterminal(g, it) && Curr(g, it) == 4 && g.rules[1].lhs == 4 && g.rules[2].lhs == 4;
    assert Item(1, 0) in other && Item(2, 0) in other;
    assert Contribution(g, f, other, it) == {2};
  }

  lemma NestTextbookClosure(f: FirstInfo)
    ensures TextbookClosure(NestGrammar(), f, NestKernel(), NestTextbook())
  {
    hide TextbookClosed, Leq, NestTextbook;
    NestTextbookClosed(f);
    forall other | TextbookClosed(NestGrammar(), f, other) && Leq(NestKernel(), other)
      ensures Leq(NestTextbook(), other)
    {
      NestTextbookBelow(f, other);
    }
  }

  lemma NestWellFormed()
    ensures NestGrammar().WellFormed()
  {
    assert NestGrammar().rules[1].lhs == 4;
  }

  /** The start state of the grammar. */
  function NestStart(): ItemSet {
    map[Item(0, 0) := {0}, Item(1, 0) := {0}, Item(2, 0) := {0}]
  }

  lemma NestStartClosed(f: FirstInfo)
    ensures IsClosed(NestGrammar(), f, NestStart()) && Leq(START_KERNEL, NestStart())
  {
    var g := NestGrammar();
    assert Curr(g, Item(0, 0)) == 4 && Curr(g, Item(1, 0)) == 1 && Curr(g, Item(2, 0)) == 3;
    assert Contribution(g, f, NestStart(), Item(0, 0)) == {0};
  }

  lemma NestStartBelow(f: FirstInfo, m: ItemSet)
    requires LeastClosure(NestGrammar(), f, START_KERNEL, m)
    ensures Leq(NestStart(), m)
  {
    var g, it := NestGrammar(), Item(0, 0);
    assert it in START_KERNEL && it in m && 0 in m[it];
    assert AtNonterminal(g, it) && Curr(g, it) == 4 && g.rules[1].lhs == 4 && g.rules[2].lhs == 4;
    assert Item(1, 0) in m && Item(2, 0) in m && Contribution(g, f, m, it) == m[it];
  }

  lemma NestStartIs(f: FirstInfo, m: ItemSet)
    requires LeastClosure(NestGrammar(), f, START_KERNEL, m)
    ensures m == NestStart()
  {
    hide IsClosed, Leq, NestStart;
    NestStartClosed(f);
    NestStartBelow(f, m);
    SameItems(m, NestStart());
  }

  lemma NestAdvance()
    ensures 1 in NextSymbols(NestGrammar(), NestStart().Keys) && Advance(NestGrammar(), NestStart(), 1) == NestKernel()
  {
    hide Advance;
    var g, m := NestGrammar(), Advance(NestGrammar(), NestStart(), 1);
    assert Curr(g, Item(0, 0)) == 4 && Curr(g, Item(1, 0)) == 1 && Curr(g, Item(2, 0)) == 3;
    AdvanceAt(g, NestStart(), Item(1, 1), 1);
    forall it | it in m
      ensures it == Item(1, 1)
    {
      var from := AdvanceFrom(g, NestStart(), it, 1);
      assert from == Item(1, 0);
    }
    assert m.Keys == {Item(1, 1)};
  }

  /** The kernel is that of a state of every canonical graph of the grammar, and that state is larger
      than the textbook's: expanding its item adds what follows its symbol to the item itself. */
  lemma ClosureIsLarger(f: FirstInfo, a: Automaton)
    requires IsCanonical(NestGrammar(), f, a)
    ensures 1 in a.trans[0] && a.trans[0][1] < |a.states|
    ensures Advance(NestGrammar(), a.states[0], 1) == NestKernel()
    ensures TextbookClosure(NestGrammar(), f, NestKernel(), NestTextbook())
    ensures a.states[a.trans[0][1]] != NestTextbook() && !KernelFed(NestGrammar(), f, NestKernel(), NestTextbook())
  {
    hide LeastClosure, TextbookClosure, KernelFed, Advance, NextSymbols;
    var g := NestGrammar();
    NestWellFormed();
    NestStartIs(f, a.states[0]);
    NestAdvance();
    assert ClosureEdge(g, f, a, 0, 1);
    NestTextbookClosure(f);
    NestNotFed(f);
    EqualsTextbook(g, f, NestKernel(), NestTextbook(), a.states[a.trans[0][1]]);
  }

  lemma NestNotFed(f: FirstInfo)
    ensures AllInRange(NestGrammar(), NestTextbook()) && !KernelFed(NestGrammar(), f, NestKernel(), NestTextbook())
  {
    var g, it := NestGrammar(), Item(1, 1);
    assert Contribution(g, f, NestTextbook(), it) == {2};
    assert it in NestTextbook() && it in NestKernel() && AtNonterminal(g, it) && Lhs(g, it) == Curr(g, it) == 4;
  }
}
