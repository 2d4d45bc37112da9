/** A sentence that the driver rejects because a first set was cut short: completeness needs the
    first sets to be exact, and outside tame grammars the order of visits decides. */
module Rejections {
  import opened Grammars
  import opened Closures
  import opened Visits
  import opened FirstProofs
  import opened Automata
  import opened Tables
  import opened Machines
  import opened Parsing
  import opened Canonical
  import opened Fillings
  import opened Covers
  import opened Pipelines

  const ASK: nat := 1
  const NAME: nat := 2
  const OPEN: nat := 3
  const REQUEST: nat := 4
  const VERB: nat := 5
  const EXPRESSION: nat := 6
  const CALL: nat := 7

  /** A request is a verb and a call; calls and expressions begin with one another. */
  function RequestGrammar(): Grammar {
    Grammar([Rule(8, [REQUEST]),
             Rule(REQUEST, [VERB, CALL]),
             Rule(VERB, [ASK]),
             Rule(EXPRESSION, [CALL]),
             Rule(EXPRESSION, [NAME]),
             Rule(CALL, [EXPRESSION, OPEN])],
            8, 4)
  }

  lemma RequestWellFormed()
    ensures RequestGrammar().WellFormed()
  {
    var g := RequestGrammar();
    assert g.rules[1].lhs == REQUEST && g.rules[2].lhs == VERB && g.rules[3].lhs == EXPRESSION && g.rules[5].lhs == CALL;
  }

  // ------------------------------------------------ the first set of calls is missed

  lemma RequestInner(st: State)
    requires st == Initial(RequestGrammar()) && RequestGrammar().WellFormed()
    ensures var st' := Visit(RequestGrammar(), st, CALL, {EXPRESSION});
            st'.info.First(CALL) == {} && st'.done == {CALL}
  {
    var g := RequestGrammar();
    var v: set<nat> := {EXPRESSION, CALL};
    assert {EXPRESSION} + {CALL} == v;
    var st5 := VisitRule(g, st, CALL, v, 5);
    assert Visit(g, st, EXPRESSION, v) == st;
    assert VisitRules(g, st, CALL, v, 0) == VisitRules(g, st, CALL, v, 1) == VisitRules(g, st, CALL, v, 2)
        == VisitRules(g, st, CALL, v, 3) == VisitRules(g, st, CALL, v, 4) == VisitRules(g, st, CALL, v, 5) == VisitRules(g, st5, CALL, v, 6) == st5;
  }

  lemma RequestVisit(st: State)
    requires st == Initial(RequestGrammar()) && RequestGrammar().WellFormed()
    ensures var st' := Visit(RequestGrammar(), st, EXPRESSION, {});
            st'.info.First(CALL) == {} && CALL in st'.done
  {
    var g := RequestGrammar();
    assert {} + {EXPRESSION} == {EXPRESSION};
    var inner := Visit(g, st, CALL, {EXPRESSION});
    RequestInner(st);
    var v: set<nat> := {EXPRESSION};
    var st3 := VisitRule(g, st, EXPRESSION, v, 3);
    assert st3 == MergeHead(inner, EXPRESSION, [CALL]);
    var st4 := VisitRule(g, st3, EXPRESSION, v, 4);
    assert VisitRules(g, st, EXPRESSION, v, 0) == VisitRules(g, st, EXPRESSION, v, 1) == VisitRules(g, st, EXPRESSION, v, 2)
        == VisitRules(g, st, EXPRESSION, v, 3) == VisitRules(g, st3, EXPRESSION, v, 4);
    assert VisitRules(g, st3, EXPRESSION, v, 4) == VisitRules(g, st4, EXPRESSION, v, 5) == VisitRules(g, st4, EXPRESSION, v, 6) == st4;
  }

  lemma {:induction false} RequestVisits(rest: seq<nat>)
    requires RequestGrammar().WellFormed() && forall i | 0 <= i < |rest| :: rest[i] in LeftSides(RequestGrammar())
    ensures forall i | 0 <= i < |rest| + 1 :: ([EXPRESSION] + rest)[i] in LeftSides(RequestGrammar())
    ensures var st := VisitAll(RequestGrammar(), Initial(RequestGrammar()), [EXPRESSION] + rest);
            st.info.First(CALL) == {} && CALL in st.done
    decreases |rest|
  {
    hide Visit;
    var g, order := RequestGrammar(), [EXPRESSION] + rest;
    if rest == [] {
      RequestVisit(Initial(g));
      assert order[..0] == [] && order[0] == EXPRESSION;
      assert VisitAll(g, Initial(g), order[..0]) == Initial(g);
    } else {
      var n := |rest| - 1;
      RequestVisits(rest[..n]);
      assert order[..n + 1] == [EXPRESSION] + rest[..n] && order[n + 1] == rest[n];
      VisitGrows(g, VisitAll(g, Initial(g), order[..n + 1]), rest[n], {});
    }
  }

  /** When expressions are visited first, calls are left without a first token. */
  lemma RequestMissesFirst(rest: seq<nat>)
    requires RequestGrammar().WellFormed() && IsOrder(RequestGrammar(), [EXPRESSION] + rest)
    ensures var f := VisitAll(RequestGrammar(), Initial(RequestGrammar()), [EXPRESSION] + rest).info;
            Computed(RequestGrammar(), f) && f.First(CALL) == {} && CALL !in f.empty
  {
    hide Visit, VisitAll, Sound, Exact, FirstClosed, PlainHeads, Derives;
    var g, order := RequestGrammar(), [EXPRESSION] + rest;
    forall i | 0 <= i < |rest|
      ensures rest[i] in LeftSides(g)
    {
      assert rest[i] == order[i + 1];
    }
    RequestVisits(rest);
    var f := VisitAll(g, Initial(g), order).info;
    ComputedFirst(g, f);
    if CALL in f.empty {
      SoundFlag(g, f, CALL);
      var n: nat :| Derives(g, [CALL], [], n);
      NothingShrinks(g, [CALL], [], n);
    }
  }

  lemma SoundFlag(g: Grammar, f: FirstInfo, x: nat)
    requires Sound(g, f) && x < g.tokenN && x in f.empty
    ensures Nullable(g, x)
  {
  }

  // ------------------------------------------------ the order of the alternatives decides as well

  /** The same language, with a name as the first alternative of expressions. */
  function SwappedGrammar(): (g: Grammar)
    ensures g.WellFormed()
  {
    var g := Grammar([Rule(8, [REQUEST]),
                      Rule(REQUEST, [VERB, CALL]),
                      Rule(VERB, [ASK]),
                      Rule(EXPRESSION, [NAME]),
                      Rule(EXPRESSION, [CALL]),
                      Rule(CALL, [EXPRESSION, OPEN])],
                     8, 4);
    assert g.rules[1].lhs == REQUEST && g.rules[2].lhs == VERB && g.rules[3].lhs == EXPRESSION && g.rules[5].lhs == CALL;
    g
  }

  lemma SwappedInner(st: State)
    requires st.info.First(CALL) == {} && st.info.First(EXPRESSION) == {NAME} && st.done == {}
    ensures var st' := Visit(SwappedGrammar(), st, CALL, {EXPRESSION});
            st'.info.First(CALL) == {NAME} && st'.done == {CALL}
  {
    var g := SwappedGrammar();
    var v: set<nat> := {EXPRESSION, CALL};
    assert {EXPRESSION} + {CALL} == v;
    var st5 := VisitRule(g, st, CALL, v, 5);
    assert Visit(g, st, EXPRESSION, v) == st;
    assert VisitRules(g, st, CALL, v, 0) == VisitRules(g, st, CALL, v, 1) == VisitRules(g, st, CALL, v, 2)
        == VisitRules(g, st, CALL, v, 3) == VisitRules(g, st, CALL, v, 4) == VisitRules(g, st, CALL, v, 5) == VisitRules(g, st5, CALL, v, 6) == st5;
  }

  lemma SwappedVisit(st: State)
    requires st == Initial(SwappedGrammar())
    ensures var st' := Visit(SwappedGrammar(), st, EXPRESSION, {});
            st'.info.First(CALL) == {NAME} && CALL in st'.done
  {
    var g := SwappedGrammar();
    assert {} + {EXPRESSION} == {EXPRESSION};
    var v: set<nat> := {EXPRESSION};
    var st3 := VisitRule(g, st, EXPRESSION, v, 3);
    SwappedInner(st3);
    var inner := Visit(g, st3, CALL, v);
    var st4 := VisitRule(g, st3, EXPRESSION, v, 4);
    assert st4 == MergeHead(inner, EXPRESSION, [CALL]);
    assert VisitRules(g, st, EXPRESSION, v, 0) == VisitRules(g, st, EXPRESSION, v, 1) == VisitRules(g, st, EXPRESSION, v, 2)
        == VisitRules(g, st, EXPRESSION, v, 3) == VisitRules(g, st3, EXPRESSION, v, 4);
    assert VisitRules(g, st3, EXPRESSION, v, 4) == VisitRules(g, st4, EXPRESSION, v, 5) == VisitRules(g, st4, EXPRESSION, v, 6) == st4;
  }

  lemma {:induction false} SwappedVisits(rest: seq<nat>)
    requires forall i | 0 <= i < |rest| :: rest[i] in LeftSides(SwappedGrammar())
    ensures forall i | 0 <= i < |rest| + 1 :: ([EXPRESSION] + rest)[i] in LeftSides(SwappedGrammar())
    ensures var st := VisitAll(SwappedGrammar(), Initial(SwappedGrammar()), [EXPRESSION] + rest);
            st.info.First(CALL) == {NAME} && CALL in st.done
    decreases |rest|
  {
    hide Visit;
    var g, order := SwappedGrammar(), [EXPRESSION] + rest;
    if rest == [] {
      SwappedVisit(Initial(g));
      assert order[..0] == [] && order[0] == EXPRESSION;
      assert VisitAll(g, Initial(g), order[..0]) == Initial(g);
    } else {
      var n := |rest| - 1;
      SwappedVisits(rest[..n]);
      assert order[..n + 1] == [EXPRESSION] + rest[..n] && order[n + 1] == rest[n];
      VisitGrows(g, VisitAll(g, Initial(g), order[..n + 1]), rest[n], {});
    }
  }

  /** A head cut short by the cycle still brings what it has so far: expressions are visited first, but calls
      get the name that expressions have had by then. */
  lemma SwappedKeepsFirst(rest: seq<nat>)
    requires IsOrder(SwappedGrammar(), [EXPRESSION] + rest)
    ensures var f := VisitAll(SwappedGrammar(), Initial(SwappedGrammar()), [EXPRESSION] + rest).info;
            Computed(SwappedGrammar(), f) && f.First(CALL) == {NAME}
  {
    hide Visit, VisitAll;
    var order := [EXPRESSION] + rest;
    forall i | 0 <= i < |rest|
      ensures rest[i] in LeftSides(SwappedGrammar())
    {
      assert rest[i] == order[i + 1];
    }
    SwappedVisits(rest);
  }

  // ------------------------------------------------ and so a verb is never reduced

  /** Bounds of the states: in the third, behind a verb's token, there is no lookahead at all. */
  function RequestStates(): seq<ItemSet> {
    [map[Item(0, 0) := {0}, Item(1, 0) := {0}, Item(2, 0) := {}],
     map[Item(0, 1) := {0}],
     map[Item(2, 1) := {}],
     map[Item(1, 1) := {0}, Item(5, 0) := {0, OPEN}, Item(3, 0) := {OPEN}, Item(4, 0) := {OPEN}],
     map[Item(1, 2) := {0}, Item(3, 1) := {OPEN}],
     map[Item(5, 1) := {0, OPEN}],
     map[Item(4, 1) := {OPEN}],
     map[Item(5, 2) := {0, OPEN}]]
  }

  lemma RequestSymbols()
    ensures var g := RequestGrammar();
            && Curr(g, Item(0, 0)) == REQUEST && Curr(g, Item(1, 0)) == VERB && Curr(g, Item(2, 0)) == ASK
            && Curr(g, Item(1, 1)) == CALL && Curr(g, Item(5, 0)) == EXPRESSION && Curr(g, Item(3, 0)) == CALL
            && Curr(g, Item(4, 0)) == NAME && Curr(g, Item(5, 1)) == OPEN
            && IsFinal(g, Item(0, 1)) && IsFinal(g, Item(2, 1)) && IsFinal(g, Item(1, 2)) && IsFinal(g, Item(3, 1))
            && IsFinal(g, Item(4, 1)) && IsFinal(g, Item(5, 2))
  {
  }

  lemma FirstContributions(f: FirstInfo)
    requires f.First(CALL) == {} && CALL !in f.empty
    ensures Contribution(RequestGrammar(), f, RequestStates()[0], Item(0, 0)) == {0}
    ensures Contribution(RequestGrammar(), f, RequestStates()[0], Item(1, 0)) == {}
  {
    RequestSymbols();
  }

  lemma FirstStateExpanded()
    ensures AllInRange(RequestGrammar(), RequestStates()[0]) && Expanded(RequestGrammar(), RequestStates()[0])
  {
    RequestSymbols();
  }

  lemma FirstStateClosed(f: FirstInfo)
    requires f.First(CALL) == {} && CALL !in f.empty
    ensures IsClosed(RequestGrammar(), f, RequestStates()[0])
  {
    hide Contribution, Expanded, AllInRange;
    FirstStateExpanded();
    RequestSymbols();
    FirstContributions(f);
  }

  lemma CallContributions(f: FirstInfo)
    ensures var g, m := RequestGrammar(), RequestStates()[3];
            && Contribution(g, f, m, Item(1, 1)) == {0} && Contribution(g, f, m, Item(5, 0)) == {OPEN}
            && Contribution(g, f, m, Item(3, 0)) == {OPEN}
  {
    RequestSymbols();
  }

  lemma CallStateClosed(f: FirstInfo)
    ensures IsClosed(RequestGrammar(), f, RequestStates()[3])
  {
    hide Contribution;
    RequestSymbols();
    CallContributions(f);
  }

  lemma OtherStatesClosed(f: FirstInfo, i: nat)
    requires i in {1, 2, 4, 5, 6, 7}
    ensures IsClosed(RequestGrammar(), f, RequestStates()[i])
  {
    RequestSymbols();
    NothingToExpand(RequestGrammar(), f, RequestStates()[i]);
  }

  lemma FirstStateAdvances(x: nat)
    requires x in NextSymbols(RequestGrammar(), RequestStates()[0].Keys)
    ensures AdvancesInto(RequestGrammar(), RequestStates(), 0, x)
  {
    hide AdvancesInto;
    RequestSymbols();
    AdvanceBelow(RequestGrammar(), RequestStates(), 0, x, if x == REQUEST then 1 else if x == ASK then 2 else 3);
  }

  lemma CallStateAdvances(x: nat)
    requires x in NextSymbols(RequestGrammar(), RequestStates()[3].Keys)
    ensures AdvancesInto(RequestGrammar(), RequestStates(), 3, x)
  {
    hide AdvancesInto;
    RequestSymbols();
    AdvanceBelow(RequestGrammar(), RequestStates(), 3, x, if x == CALL then 4 else if x == EXPRESSION then 5 else 6);
  }

  lemma OtherStatesAdvance(i: nat, x: nat)
    requires i in {1, 2, 4, 5, 6, 7} && x in NextSymbols(RequestGrammar(), RequestStates()[i].Keys)
    ensures AdvancesInto(RequestGrammar(), RequestStates(), i, x)
  {
    hide AdvancesInto;
    RequestSymbols();
    AdvanceBelow(RequestGrammar(), RequestStates(), i, x, 7);
  }

  /** The item that marks a state. */
  function RequestMark(i: nat): Item {
    if i == 0 then Item(0, 0) else if i == 1 then Item(0, 1) else if i == 2 then Item(2, 1) else if i == 3 then Item(1, 1)
    else if i == 4 then Item(1, 2) else if i == 5 then Item(5, 1) else if i == 6 then Item(4, 1) else Item(5, 2)
  }

  lemma RequestMarked(i: nat, it: Item)
    requires i < 8 && it in RequestStates()[i] && Marks(it)
    ensures it == RequestMark(i) || (i == 4 && it == Item(3, 1))
  {
  }

  lemma RequestApart()
    ensures Apart(RequestStates()) && |RequestStates()| == 8 && Leq(START_KERNEL, RequestStates()[0])
  {
    RequestSize();
    hide RequestStates, Leq;
    var u := RequestStates();
    forall i, j, it | 0 <= i < |u| && 0 <= j < |u| && it in u[i] && it in u[j] && Marks(it)
      ensures i == j
    {
      RequestMarked(i, it);
      RequestMarked(j, it);
    }
  }

  lemma RequestSize()
    ensures |RequestStates()| == 8 && Leq(START_KERNEL, RequestStates()[0])
  {
  }

  lemma RequestCovered(f: FirstInfo)
    requires f.First(CALL) == {} && CALL !in f.empty
    ensures IsCover(RequestGrammar(), f, RequestStates()) && Apart(RequestStates())
  {
    hide IsClosed, AdvancesInto, NextSymbols, RequestStates, Apart, Leq;
    RequestApart();
    var g, u := RequestGrammar(), RequestStates();
    forall i | 0 <= i < |u|
      ensures IsClosed(g, f, u[i])
    {
      if i == 0 {
        FirstStateClosed(f);
      } else if i == 3 {
        CallStateClosed(f);
      } else {
        OtherStatesClosed(f, i);
      }
    }
    forall i, x | 0 <= i < |u| && x in NextSymbols(g, u[i].Keys)
      ensures AdvancesInto(g, u, i, x)
    {
      if i == 0 {
        FirstStateAdvances(x);
      } else if i == 3 {
        CallStateAdvances(x);
      } else {
        OtherStatesAdvance(i, x);
      }
    }
  }

  lemma RequestOneMove(i: nat)
    requires i < 8
    ensures OneMove(RequestGrammar(), RequestStates()[i])
  {
    RequestSymbols();
    var g, m := RequestGrammar(), RequestStates()[i];
    if i == 4 {
      assert forall r: nat, x: nat | Reduces(g, m, r, x) :: (r == 1 && x == 0) || (r == 3 && x == OPEN);
      assert NextSymbols(g, m.Keys) == {};
    } else {
      assert forall r: nat, x: nat | Reduces(g, m, r, x) :: i in {1, 6, 7};
      assert i in {1, 6, 7} ==> NextSymbols(g, m.Keys) == {};
    }
  }

  /** The generator finds nothing wrong: neither graph over such first sets has a conflict, so that the
      table is clean (see GenerateTable). */
  lemma RequestHasNoConflict(f: FirstInfo, a: Automaton)
    requires f.First(CALL) == {} && CALL !in f.empty && Collected(RequestGrammar(), f, a)
    ensures |a.states| == |a.trans| && !Conflicted(RequestGrammar(), a)
  {
    hide Collected, IsCover, Apart, OneMove, RequestStates;
    RequestWellFormed();
    RequestCovered(f);
    RequestApart();
    forall i | 0 <= i < |RequestStates()|
      ensures OneMove(RequestGrammar(), RequestStates()[i])
    {
      RequestOneMove(i);
    }
    CoverNoConflict(RequestGrammar(), f, a, RequestStates());
  }

  /** In every table the state behind a verb's token holds nothing but errors. */
  lemma VerbIsStuck(f: FirstInfo, a: Automaton, t: seq<nat>)
    requires RequestGrammar().WellFormed() && f.First(CALL) == {} && CALL !in f.empty
    requires Collected(RequestGrammar(), f, a) && |a.states| == |a.trans| && TableSound(RequestGrammar(), a, t)
    ensures 0 < |a.trans| && ASK in a.trans[0]
    ensures Cell(RequestGrammar(), t, 0, ASK) == Shift(a.trans[0][ASK])
    ensures Cell(RequestGrammar(), t, a.trans[0][ASK], NAME) == Error
  {
    hide Collected, CoreAutomaton, LookaheadClosed, IsCover, Apart, Cell, Leq, CellSound, RequestStates, NextSymbols, LookaheadEdge;
    var g := RequestGrammar();
    CollectedGraph(g, f, a);
    SameSize(g, a);
    RequestCovered(f);
    var s := VerbEdge(f, a);
    var i := CoverCollected(g, f, a, RequestStates(), s);
    var i0 := CoverCollected(g, f, a, RequestStates(), 0);
    TransKeys(g, a, 0);
    TransKeys(g, a, s);
    assert CellSound(g, a.states[0], a.trans[0], ASK, Cell(g, t, 0, ASK));
    assert CellSound(g, a.states[s], a.trans[s], NAME, Cell(g, t, s, NAME));
    VerbBound(a.states[s], i);
    StartBound(a.states[0], i0);
    OnlyShift(a.states[0], a.trans[0], Cell(g, t, 0, ASK));
    OnlyError(a.states[s], a.trans[s], Cell(g, t, s, NAME));
  }

  lemma TransKeys(g: Grammar, a: Automaton, s: nat)
    requires CoreAutomaton(g, a) && s < |a.states|
    ensures |a.states| == |a.trans| && a.trans[s].Keys == NextSymbols(g, a.states[s].Keys)
  {
    hide CoreClosure, NextSymbols;
  }

  lemma VerbEdge(f: FirstInfo, a: Automaton) returns (s: nat)
    requires RequestGrammar().WellFormed() && CoreAutomaton(RequestGrammar(), a) && LookaheadClosed(RequestGrammar(), f, a)
    ensures 0 < |a.states| == |a.trans| && Item(0, 0) in a.states[0] && Item(2, 0) in a.states[0]
    ensures ASK in a.trans[0] && s == a.trans[0][ASK] < |a.states| && Item(2, 1) in a.states[s]
  {
    hide CoreAutomaton, Contribution;
    var g := RequestGrammar();
    SameSize(g, a);
    RequestSymbols();
    Expands(g, f, a, 0, Item(0, 0), 1);
    Expands(g, f, a, 0, Item(1, 0), 2);
    Moves(g, f, a, 0, Item(2, 0));
    s := a.trans[0][ASK];
  }

  lemma VerbBound(m: ItemSet, i: nat)
    requires i < |RequestStates()| && Leq(m, RequestStates()[i]) && Item(2, 1) in m
    ensures m.Keys <= {Item(2, 1)} && m[Item(2, 1)] == {}
  {
    assert Item(2, 1) in RequestStates()[i];
    assert i == 2;
  }

  lemma StartBound(m: ItemSet, i: nat)
    requires i < |RequestStates()| && Leq(m, RequestStates()[i]) && Item(0, 0) in m
    ensures m.Keys <= {Item(0, 0), Item(1, 0), Item(2, 0)}
  {
    assert Item(0, 0) in RequestStates()[i];
    assert i == 0;
  }

  lemma OnlyShift(m: ItemSet, trans: map<nat, nat>, act: Action)
    requires m.Keys <= {Item(0, 0), Item(1, 0), Item(2, 0)} && Item(2, 0) in m && trans.Keys == NextSymbols(RequestGrammar(), m.Keys)
    requires CellSound(RequestGrammar(), m, trans, ASK, act)
    ensures ASK in trans && act == Shift(trans[ASK])
  {
    var g := RequestGrammar();
    assert Curr(g, Item(2, 0)) == ASK && ASK in NextSymbols(g, m.Keys);
    assert Candidate(g, m, trans, ASK, Shift(trans[ASK]));
    assert forall r: nat :: !Reduces(g, m, r, ASK);
  }

  lemma OnlyError(m: ItemSet, trans: map<nat, nat>, act: Action)
    requires m.Keys <= {Item(2, 1)} && Item(2, 1) in m && m[Item(2, 1)] == {} && trans.Keys == NextSymbols(RequestGrammar(), m.Keys)
    requires CellSound(RequestGrammar(), m, trans, NAME, act)
    ensures act == Error
  {
    assert NextSymbols(RequestGrammar(), m.Keys) == {};
    assert forall r: nat :: !Reduces(RequestGrammar(), m, r, NAME);
  }

  lemma RequestIsSentence()
    ensures RequestGrammar().WellFormed() && InLanguage(RequestGrammar(), [ASK, NAME, OPEN])
  {
    hide DerivesStar;
    RequestWellFormed();
    var g := RequestGrammar();
    StarRule(g, 1);
    StarRule(g, 2);
    StarRule(g, 5);
    StarRule(g, 4);
    StarContext(g, [], [VERB], [ASK], [CALL]);
    StarContext(g, [ASK], [CALL], [EXPRESSION, OPEN], []);
    StarContext(g, [ASK], [EXPRESSION], [NAME], [OPEN]);
    assert [] + [VERB] + [CALL] == [VERB, CALL] && [] + [ASK] + [CALL] == [ASK, CALL] == [ASK] + [CALL] + [];
    assert [ASK] + [EXPRESSION, OPEN] + [] == [ASK, EXPRESSION, OPEN] == [ASK] + [EXPRESSION] + [OPEN];
    assert [ASK] + [NAME] + [OPEN] == [ASK, NAME, OPEN];
    StarTrans(g, [REQUEST], [VERB, CALL], [ASK, CALL]);
    StarTrans(g, [REQUEST], [ASK, CALL], [ASK, EXPRESSION, OPEN]);
    StarTrans(g, [REQUEST], [ASK, EXPRESSION, OPEN], [ASK, NAME, OPEN]);
  }

  /** The request `ask name (` is a sentence, but no table generated from such first sets accepts it, of
      either parser type and whatever the precedences, though none has a conflict to report. */
  lemma SentenceRejected(f: FirstInfo, a: Automaton, prec: PrecedenceTable, t: seq<nat>, clean: bool, input: seq<Lexeme>, n: nat)
    requires RequestGrammar().WellFormed() && f.First(CALL) == {} && CALL !in f.empty
    requires Generated(RequestGrammar(), f, a, prec, t, clean)
    requires |input| == 4 && Symbols(input[..3]) == [ASK, NAME, OPEN] && input[3].tok == 0
    ensures InLanguage(RequestGrammar(), Symbols(input[..3])) && !Conflicted(RequestGrammar(), a)
    ensures !Run(RequestGrammar(), t, input, n).Accepted?
  {
    hide TableSound, Collected, Cell, InLanguage, Step, Run, Conflicted;
    var g := RequestGrammar();
    RequestIsSentence();
    RequestHasNoConflict(f, a);
    VerbIsStuck(f, a, t);
    InputTokens(input);
    var c1 := Config([0, a.trans[0][ASK]], [Leaf(ASK, input[0].val)], 1);
    ShiftTurn(g, t, input, Start(), a.trans[0][ASK], c1);
    ErrorTurn(g, t, input, c1);
    TwoSteps(g, t, input, c1);
    if n >= 2 {
      StepsStay(g, t, input, 2, n);
    }
  }

  lemma ErrorTurn(g: Grammar, t: seq<nat>, input: seq<Lexeme>, c: Config)
    requires c.pos < |input| && input[c.pos].tok >= 0 && c.states != []
    requires Cell(g, t, c.states[|c.states| - 1], input[c.pos].tok) == Error
    ensures Step(g, t, input, c) == SyntaxError(c)
  {
    hide Cell;
  }

  lemma InputTokens(input: seq<Lexeme>)
    requires |input| == 4 && Symbols(input[..3]) == [ASK, NAME, OPEN]
    ensures input[0].tok == ASK && input[1].tok == NAME
  {
    assert Symbols(input[..3])[0] == ASK && Symbols(input[..3])[1] == NAME;
    assert input[..3][0] == input[0] && input[..3][1] == input[1];
  }

  lemma TwoSteps(g: Grammar, t: seq<nat>, input: seq<Lexeme>, c1: Config)
    requires Step(g, t, input, Start()) == Running(c1) && Step(g, t, input, c1) == SyntaxError(c1)
    ensures !Run(g, t, input, 0).Accepted? && !Run(g, t, input, 1).Accepted? && Run(g, t, input, 2) == SyntaxError(c1)
  {
    hide Step, Run;
    RunStarts(g, t, input);
    RunOneMore(g, t, input, 0);
    RunOneMore(g, t, input, 1);
  }

  lemma RunStarts(g: Grammar, t: seq<nat>, input: seq<Lexeme>)
    ensures Run(g, t, input, 0) == Running(Start())
  {
  }
}
