/** First sets come from the heads of rules alone, and a nullable head hides what follows it. */
module HeadExample {
  import opened Grammars
  import opened Closures
  import opened Visits
  import opened FirstProofs

  /** A relation between symbols and tokens that holds whatever the head of a rule passes on. */
  ghost predicate HeadClosed(g: Grammar, rel: (nat, nat) -> bool) {
    forall r | 0 <= r < |g.rules| && g.rules[r].rhs != [] :: HeadPasses(g, rel, r)
  }

  ghost predicate HeadPasses(g: Grammar, rel: (nat, nat) -> bool, r: nat)
    requires r < |g.rules| && g.rules[r].rhs != []
  {
    var x, h := g.rules[r].lhs, g.rules[r].rhs[0];
    if g.IsAction(h) then rel(x, h) else forall a: nat | rel(h, a) :: rel(x, a)
  }

  ghost predicate Within(f: FirstInfo, rel: (nat, nat) -> bool) {
    forall x: nat, a: nat | a in f.First(x) :: rel(x, a)
  }

  lemma {:induction false} VisitWithin(g: Grammar, rel: (nat, nat) -> bool, st: State, x: nat, visiting: set<nat>)
    requires g.WellFormed() && x in LeftSides(g) && HeadClosed(g, rel) && Within(st.info, rel)
    ensures Within(Visit(g, st, x, visiting).info, rel)
    decreases LeftSides(g) - visiting, 0, 0
  {
    if x !in visiting && x !in st.done {
      VisitRulesWithin(g, rel, st, x, visiting + {x}, 0);
    }
  }

  lemma {:induction false} VisitRulesWithin(g: Grammar, rel: (nat, nat) -> bool, st: State, x: nat, visiting: set<nat>, r: nat)
    requires g.WellFormed() && x in LeftSides(g) && HeadClosed(g, rel) && Within(st.info, rel)
    ensures Within(VisitRules(g, st, x, visiting, r).info, rel)
    decreases LeftSides(g) - visiting, if r < |g.rules| then |g.rules| - r else 0, 1
  {
    hide HeadClosed, Within;
    if r < |g.rules| {
      if g.rules[r].lhs == x {
        VisitRuleWithin(g, rel, st, x, visiting, r);
        VisitRulesWithin(g, rel, VisitRule(g, st, x, visiting, r), x, visiting, r + 1);
      } else {
        VisitRulesWithin(g, rel, st, x, visiting, r + 1);
      }
    }
  }

  lemma {:induction false} VisitRuleWithin(g: Grammar, rel: (nat, nat) -> bool, st: State, x: nat, visiting: set<nat>, r: nat)
    requires g.WellFormed() && x in LeftSides(g) && r < |g.rules| && g.rules[r].lhs == x && HeadClosed(g, rel) && Within(st.info, rel)
    ensures Within(VisitRule(g, st, x, visiting, r).info, rel)
    decreases LeftSides(g) - visiting, |g.rules| - r, 0
  {
    var rhs := g.rules[r].rhs;
    if rhs != [] {
      assert HeadPasses(g, rel, r);
      if !g.IsAction(rhs[0]) {
        VisitWithin(g, rel, st, rhs[0], visiting);
      }
    }
  }

  lemma {:induction false} VisitAllWithin(g: Grammar, rel: (nat, nat) -> bool, order: seq<nat>)
    requires g.WellFormed() && HeadClosed(g, rel) && forall i | 0 <= i < |order| :: order[i] in LeftSides(g)
    ensures Within(VisitAll(g, Initial(g), order).info, rel)
    decreases |order|
  {
    hide HeadClosed;
    if order != [] {
      var n := |order| - 1;
      VisitAllWithin(g, rel, order[..n]);
      VisitWithin(g, rel, VisitAll(g, Initial(g), order[..n]), order[n], {});
    }
  }

  /** In any order of visits, a token is marked only if a chain of heads leads to it. */
  lemma ComputedWithin(g: Grammar, rel: (nat, nat) -> bool, f: FirstInfo)
    requires g.WellFormed() && Computed(g, f) && HeadClosed(g, rel)
    ensures Within(f, rel)
  {
    hide HeadClosed, Within;
    var order :| IsOrder(g, order) && f == VisitAll(g, Initial(g), order).info;
    VisitAllWithin(g, rel, order);
  }

  // ------------------------------------------------ a nullable head

  const NUMBER: nat := 1
  const SEMICOLON: nat := 2
  const LINE: nat := 3
  const SIGN: nat := 4

  /** A line is an optional number and a semicolon. */
  function LineGrammar(): (g: Grammar)
    ensures g.WellFormed()
  {
    var g := Grammar([Rule(5, [LINE]), Rule(LINE, [SIGN, SEMICOLON]), Rule(SIGN, []), Rule(SIGN, [NUMBER])], 5, 3);
    assert g.rules[1].lhs == LINE && g.rules[2].lhs == SIGN;
    g
  }

  /** In every order of visits the semicolon is missing from the first tokens of a line, though a line
      may begin with it: the head that may be empty is not looked behind. */
  lemma NullableHeadMissesFirst(f: FirstInfo)
    requires Computed(LineGrammar(), f)
    ensures SEMICOLON !in f.First(LINE) && Begins(LineGrammar(), LINE, SEMICOLON) && !Exact(LineGrammar(), f)
  {
    hide DerivesStar;
    var g := LineGrammar();
    var rel := (x: nat, a: nat) => a == NUMBER;
    assert HeadClosed(g, rel);
    ComputedWithin(g, rel, f);
    StarRule(g, 1);
    StarRule(g, 2);
    StarContext(g, [], [SIGN], [], [SEMICOLON]);
    assert [] + [SIGN] + [SEMICOLON] == [SIGN, SEMICOLON] && [] + [] + [SEMICOLON] == [SEMICOLON] + [];
    StarTrans(g, [LINE], [SIGN, SEMICOLON], [SEMICOLON] + []);
  }
}
