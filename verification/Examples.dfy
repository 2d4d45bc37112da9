/** Small grammars that show where the generator and the driver depart from the textbook. */
module Examples {
  import opened Graphs
  import opened Grammars
  import opened Closures
  import opened Visits
  import opened FirstProofs
  import opened Automata
  import opened Tables
  import opened Machines
  import opened Parsing
  import opened Canonical
  import opened Follows
  import opened Fillings
  import opened Rows
  import opened Pipelines

  // ------------------------------------------------ first sets depend on the order of visits

  const IDENTIFIER: nat := 1
  const OPEN: nat := 2
  const CLOSE: nat := 3
  const COMMA: nat := 4
  const EXPRESSION: nat := 5
  const FUNCTION_CALL: nat := 6
  const ARGUMENT_LIST: nat := 7

  /** The example of README.md: calls of functions with arguments. */
  function CallGrammar(): Grammar {
    Grammar([Rule(8, [EXPRESSION]),
             Rule(EXPRESSION, [FUNCTION_CALL]),
             Rule(EXPRESSION, [IDENTIFIER]),
             Rule(FUNCTION_CALL, [EXPRESSION, OPEN, ARGUMENT_LIST, CLOSE]),
             Rule(ARGUMENT_LIST, [EXPRESSION, COMMA, ARGUMENT_LIST]),
             Rule(ARGUMENT_LIST, [EXPRESSION])],
            8, 5)
  }

  lemma CallGrammarWellFormed()
    ensures CallGrammar().WellFormed()
  {
    var g := CallGrammar();
    assert g.rules[1].lhs == 5 && g.rules[3].lhs == 6 && g.rules[4].lhs == 7;
  }

  lemma CallBegins()
    ensures Begins(CallGrammar(), EXPRESSION, IDENTIFIER) && Begins(CallGrammar(), FUNCTION_CALL, IDENTIFIER)
  {
    hide Begins;
    CallGrammarWellFormed();
    BeginsByRule(CallGrammar(), 2, IDENTIFIER);
    BeginsByRule(CallGrammar(), 3, IDENTIFIER);
  }

  /** Visiting expressions first, the visit of function calls is cut short by the cycle, and calls
      are marked as done with no first token at all. */
  lemma CallVisit(st: State)
    requires st == Initial(CallGrammar()) && CallGrammar().WellFormed()
    ensures var st' := Visit(CallGrammar(), st, EXPRESSION, {});
            st'.info.First(FUNCTION_CALL) == {} && FUNCTION_CALL in st'.done && EXPRESSION in st'.done
  {
    var g := CallGrammar();
    assert {} + {EXPRESSION} == {EXPRESSION};
    var inner := Visit(g, st, FUNCTION_CALL, {EXPRESSION});
    CallInner(st);
    var st1 := VisitRule(g, st, EXPRESSION, {EXPRESSION}, 1);
    assert st1 == MergeHead(inner, EXPRESSION, [FUNCTION_CALL]);
    var st2 := VisitRule(g, st1, EXPRESSION, {EXPRESSION}, 2);
    assert VisitRules(g, st, EXPRESSION, {EXPRESSION}, 0) == VisitRules(g, st, EXPRESSION, {EXPRESSION}, 1)
        == VisitRules(g, st1, EXPRESSION, {EXPRESSION}, 2) == VisitRules(g, st2, EXPRESSION, {EXPRESSION}, 3);
    assert VisitRules(g, st2, EXPRESSION, {EXPRESSION}, 3) == VisitRules(g, st2, EXPRESSION, {EXPRESSION}, 4)
        == VisitRules(g, st2, EXPRESSION, {EXPRESSION}, 5) == VisitRules(g, st2, EXPRESSION, {EXPRESSION}, 6) == st2;
  }

  lemma CallInner(st: State)
    requires st == Initial(CallGrammar()) && CallGrammar().WellFormed()
    ensures var st' := Visit(CallGrammar(), st, FUNCTION_CALL, {EXPRESSION});
            && st'.info.First(FUNCTION_CALL) == {} && st'.done == {FUNCTION_CALL} && st'.info.empty == {}
  {
    var g := CallGrammar();
    var v: set<nat> := {EXPRESSION, FUNCTION_CALL};
    assert {EXPRESSION} + {FUNCTION_CALL} == v;
    var st3 := VisitRule(g, st, FUNCTION_CALL, v, 3);
    assert Visit(g, st, EXPRESSION, v) == st;
    assert VisitRules(g, st, FUNCTION_CALL, v, 0) == VisitRules(g, st, FUNCTION_CALL, v, 1)
        == VisitRules(g, st, FUNCTION_CALL, v, 2) == VisitRules(g, st, FUNCTION_CALL, v, 3) == VisitRules(g, st3, FUNCTION_CALL, v, 4);
    assert VisitRules(g, st3, FUNCTION_CALL, v, 4) == VisitRules(g, st3, FUNCTION_CALL, v, 5) == VisitRules(g, st3, FUNCTION_CALL, v, 6) == st3;
  }

  /** What the first visit leaves stays: whatever is visited afterwards. */
  lemma {:induction false} CallVisits(rest: seq<nat>)
    requires CallGrammar().WellFormed() && forall i | 0 <= i < |rest| :: rest[i] in LeftSides(CallGrammar())
    ensures forall i | 0 <= i < |rest| + 1 :: ([EXPRESSION] + rest)[i] in LeftSides(CallGrammar())
    ensures var st := VisitAll(CallGrammar(), Initial(CallGrammar()), [EXPRESSION] + rest);
            st.info.First(FUNCTION_CALL) == {} && FUNCTION_CALL in st.done
    decreases |rest|
  {
    hide Visit;
    var g, order := CallGrammar(), [EXPRESSION] + rest;
    if rest == [] {
      CallVisit(Initial(g));
      assert order[..0] == [] && order[0] == EXPRESSION;
      assert VisitAll(g, Initial(g), order[..0]) == Initial(g);
    } else {
      var n := |rest| - 1;
      CallVisits(rest[..n]);
      assert order[..n + 1] == [EXPRESSION] + rest[..n] && order[n + 1] == rest[n];
      VisitGrows(g, VisitAll(g, Initial(g), order[..n + 1]), rest[n], {});
    }
  }

  lemma CallIsNotTame()
    ensures !Tame(CallGrammar())
  {
    var g := CallGrammar();
    assert g.rules[1].lhs == EXPRESSION && g.rules[1].rhs[0] == FUNCTION_CALL;
    assert LeftCorner(g, EXPRESSION, FUNCTION_CALL);
    assert g.rules[3].lhs == FUNCTION_CALL && g.rules[3].rhs[0] == EXPRESSION;
    assert LeftCorner(g, FUNCTION_CALL, EXPRESSION);
    ReachesEdge(LeftCorners(g), EXPRESSION, FUNCTION_CALL);
    ReachesEdge(LeftCorners(g), FUNCTION_CALL, EXPRESSION);
  }

  /** The README's grammar is not tame, and the sets are not exact when expressions are visited first:
      a call begins with an identifier, but has no first token. */
  lemma ReadmeMissesFirst(rest: seq<nat>)
    requires CallGrammar().WellFormed() && IsOrder(CallGrammar(), [EXPRESSION] + rest)
    ensures !Tame(CallGrammar())
    ensures var f := VisitAll(CallGrammar(), Initial(CallGrammar()), [EXPRESSION] + rest).info;
            IDENTIFIER !in f.First(FUNCTION_CALL) && Begins(CallGrammar(), FUNCTION_CALL, IDENTIFIER) && !Exact(CallGrammar(), f)
  {
    hide Begins, Tame, Visit, VisitAll;
    var order := [EXPRESSION] + rest;
    forall i | 0 <= i < |rest|
      ensures rest[i] in LeftSides(CallGrammar())
    {
      assert rest[i] == order[i + 1];
    }
    CallVisits(rest);
    CallBegins();
    CallIsNotTame();
    var f := VisitAll(CallGrammar(), Initial(CallGrammar()), order).info;
    assert FUNCTION_CALL < CallGrammar().tokenN;
  }

  // ------------------------------------------------ and yet the README's grammar is decided

  /** Exact first sets add nothing to what follows a nonterminal within a rule: there is always a
      token, or the end of the rule. */
  function CallFirst(): FirstInfo {
    FirstInfo(map[EXPRESSION := {IDENTIFIER}, FUNCTION_CALL := {IDENTIFIER}, ARGUMENT_LIST := {IDENTIFIER}, 8 := {IDENTIFIER}], {})
  }

  lemma CallFirstClosed()
    ensures FirstClosed(CallGrammar(), CallFirst())
  {
    var g, f := CallGrammar(), CallFirst();
    forall r | 0 < r < |g.rules|
      ensures RuleClosed(g, f, r)
    {
      assert g.rules[r].rhs[0] in {EXPRESSION, FUNCTION_CALL, IDENTIFIER};
      assert !AllEmpty(f, g.rules[r].rhs);
    }
  }

  lemma CallCovered(f: FirstInfo)
    ensures FirstServes(CallGrammar(), f)
  {
    var g := CallGrammar();
    CallFirstClosed();
    forall r, k, la: set<nat> | 0 <= r < |g.rules| && 0 < k <= |g.rules[r].rhs| && !g.IsAction(g.rules[r].rhs[k - 1])
      ensures NextLookaheads(g, CallFirst(), g.rules[r].rhs, k, la) <= NextLookaheads(g, f, g.rules[r].rhs, k, la)
    {
      assert k == |g.rules[r].rhs| || g.IsAction(g.rules[r].rhs[k]);
    }
    assert Covers(g, f, CallFirst());
  }

  lemma CallStartApart()
    ensures CallGrammar().WellFormed() && StartApart(CallGrammar())
  {
    var g := CallGrammar();
    CallGrammarWellFormed();
    forall k, r: nat | CoreClosure(g, {Item(0, 0)}, k) && g.IsRule(r) && Item(r, 0) in k
      ensures g.rules[r].rhs != [g.Start()]
    {
      CallStartItems(k);
    }
  }

  lemma CallStartItems(k: set<Item>)
    requires CoreClosure(CallGrammar(), {Item(0, 0)}, k)
    ensures Item(5, 0) !in k
  {
    var other := {Item(0, 0), Item(1, 0), Item(2, 0), Item(3, 0)};
    var g := CallGrammar();
    assert Curr(g, Item(0, 0)) == EXPRESSION && Curr(g, Item(1, 0)) == FUNCTION_CALL && Curr(g, Item(2, 0)) == IDENTIFIER
        && Curr(g, Item(3, 0)) == EXPRESSION;
    assert CoreClosed(g, other);
  }

  /** Whatever the order of visits, a clean table of either parser type for the README's grammar
      accepts exactly its language. */
  lemma ReadmeIsDecided(f: FirstInfo, a: Automaton, t: seq<nat>, input: seq<Lexeme>)
    requires Generated(CallGrammar(), f, a, Null, t, true) && IsInput(CallGrammar(), input)
    ensures CallGrammar().WellFormed()
    ensures (exists n: nat :: Run(CallGrammar(), t, input, n).Accepted?)
       <==> (input[|input| - 1].tok == 0 && InLanguage(CallGrammar(), Symbols(input[..|input| - 1])))
  {
    hide Collected, TableSound, TablePicked, StartApart, FirstServes, TableServes, NoAcceptReduce, Run, InLanguage;
    CallStartApart();
    CallCovered(f);
    ApartNoAcceptReduce(CallGrammar(), f, a);
    CleanServes(CallGrammar(), f, a, t);
    GeneratedDecides(CallGrammar(), f, a, Null, t, true, input);
  }
}
