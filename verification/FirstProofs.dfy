/** What the computed first sets and empty flags mean. */
module FirstProofs {
  import opened Graphs
  import opened Grammars
  import opened Closures
  import opened Visits

  /** Some derivation from x begins with the token a. */
  ghost predicate Begins(g: Grammar, x: nat, a: nat) {
    exists s: seq<nat> :: DerivesStar(g, [x], [a] + s)
  }

  ghost predicate Nullable(g: Grammar, x: nat) {
    DerivesStar(g, [x], [])
  }

  /** Each marked token begins a derivation and each flagged symbol derives the empty string. */
  ghost predicate Sound(g: Grammar, f: FirstInfo) {
    && (forall x: nat, a: nat | x < g.tokenN && a in f.First(x) :: Begins(g, x, a))
    && (forall x: nat | x < g.tokenN && x in f.empty :: Nullable(g, x))
  }

  /** The sets and flags are those of the textbook. */
  ghost predicate Exact(g: Grammar, f: FirstInfo) {
    && (forall x: nat, a: nat | g.actionN <= x < g.tokenN && a < g.actionN :: a in f.First(x) <==> Begins(g, x, a))
    && (forall x: nat | g.actionN <= x < g.tokenN :: x in f.empty <==> Nullable(g, x))
  }

  predicate AllEmpty(f: FirstInfo, s: seq<nat>) {
    forall i | 0 <= i < |s| :: s[i] in f.empty
  }

  /** The sets and flags satisfy the equation of every rule; this is a finite check. */
  predicate RuleClosed(g: Grammar, f: FirstInfo, r: nat)
    requires r < |g.rules|
  {
    && NextLookaheads(g, f, g.rules[r].rhs, 0, {}) <= f.First(g.rules[r].lhs)
    && (AllEmpty(f, g.rules[r].rhs) ==> g.rules[r].lhs in f.empty)
  }

  ghost predicate FirstClosed(g: Grammar, f: FirstInfo) {
    && (forall r | 0 < r < |g.rules| :: RuleClosed(g, f, r))
    && (forall x | x in f.empty :: !g.IsAction(x))
  }

  // ------------------------------------------------ left corners and tame grammars

  ghost predicate LeftCorner(g: Grammar, a: nat, b: nat) {
    exists r: nat :: r < |g.rules| && g.rules[r].lhs == a && g.rules[r].rhs != [] && g.rules[r].rhs[0] == b
  }

  ghost function LeftCorners(g: Grammar): (nat, nat) -> bool {
    (a: nat, b: nat) => LeftCorner(g, a, b)
  }

  /** No empty rule, no left-corner cycle but self-loops, and no rule from a symbol to itself. */
  ghost predicate Tame(g: Grammar) {
    && (forall r | 0 <= r < |g.rules| :: g.rules[r].rhs != [])
    && (forall r | 0 <= r < |g.rules| :: g.rules[r].rhs != [g.rules[r].lhs])
    && (forall a: nat, b: nat | a != b && Reaches(LeftCorners(g), a, b) :: !Reaches(LeftCorners(g), b, a))
  }

  /** Only rules of one symbol begin with a symbol that derives the empty string, and there is no
      left-corner cycle but self-loops. Empty rules are allowed. */
  ghost predicate PlainHeads(g: Grammar) {
    && (forall r | 0 <= r < |g.rules| && |g.rules[r].rhs| > 1 :: !Nullable(g, g.rules[r].rhs[0]))
    && (forall a: nat, b: nat | a != b && Reaches(LeftCorners(g), a, b) :: !Reaches(LeftCorners(g), b, a))
  }

  lemma TameIsPlain(g: Grammar)
    requires Tame(g)
    ensures PlainHeads(g)
  {
    hide LeftCorners, Derives;
    forall r | 0 <= r < |g.rules| && |g.rules[r].rhs| > 1
      ensures !Nullable(g, g.rules[r].rhs[0])
    {
      var h := g.rules[r].rhs[0];
      if Nullable(g, h) {
        var n: nat :| Derives(g, [h], [], n);
        NothingShrinks(g, [h], [], n);
      }
    }
  }

  // ------------------------------------------------ soundness, for every grammar

  lemma BeginsByRule(g: Grammar, r: nat, a: nat)
    requires g.WellFormed() && g.IsRule(r) && g.rules[r].rhs != []
    requires g.rules[r].rhs[0] == a || Begins(g, g.rules[r].rhs[0], a)
    ensures Begins(g, g.rules[r].lhs, a)
  {
    hide DerivesStar;
    var rhs := g.rules[r].rhs;
    StarRule(g, r);
    var s := HeadBegins(g, rhs, a);
    StarTrans(g, [g.rules[r].lhs], rhs, [a] + s);
  }

  lemma HeadBegins(g: Grammar, w: seq<nat>, a: nat) returns (s: seq<nat>)
    requires w != [] && (w[0] == a || Begins(g, w[0], a))
    ensures DerivesStar(g, w, [a] + s)
  {
    hide DerivesStar;
    if w[0] == a {
      s := w[1..];
      StarRefl(g, w);
      assert [a] + s == w;
    } else {
      var t: seq<nat> :| DerivesStar(g, [w[0]], [a] + t);
      StarContext(g, [], [w[0]], [a] + t, w[1..]);
      s := t + w[1..];
      assert [] + [w[0]] + w[1..] == w;
      assert [] + ([a] + t) + w[1..] == [a] + s;
    }
  }

  lemma NullableByRule(g: Grammar, r: nat)
    requires g.WellFormed() && g.IsRule(r)
    requires g.rules[r].rhs == [] || (|g.rules[r].rhs| == 1 && Nullable(g, g.rules[r].rhs[0]))
    ensures Nullable(g, g.rules[r].lhs)
  {
    StarRule(g, r);
    if g.rules[r].rhs != [] {
      assert g.rules[r].rhs == [g.rules[r].rhs[0]];
      StarTrans(g, [g.rules[r].lhs], g.rules[r].rhs, []);
    }
  }

  lemma {:induction false} VisitSound(g: Grammar, st: State, x: nat, visiting: set<nat>)
    requires g.WellFormed() && x in LeftSides(g) && Sound(g, st.info)
    ensures Sound(g, Visit(g, st, x, visiting).info)
    decreases LeftSides(g) - visiting, 0, 0
  {
    if x !in visiting && x !in st.done {
      VisitRulesSound(g, st, x, visiting + {x}, 0);
    }
  }

  lemma {:induction false} VisitRulesSound(g: Grammar, st: State, x: nat, visiting: set<nat>, r: nat)
    requires g.WellFormed() && x in LeftSides(g) && Sound(g, st.info)
    ensures Sound(g, VisitRules(g, st, x, visiting, r).info)
    decreases LeftSides(g) - visiting, if r < |g.rules| then |g.rules| - r else 0, 1
  {
    if r < |g.rules| {
      if g.rules[r].lhs == x {
        VisitRuleSound(g, st, x, visiting, r);
        VisitRulesSound(g, VisitRule(g, st, x, visiting, r), x, visiting, r + 1);
      } else {
        VisitRulesSound(g, st, x, visiting, r + 1);
      }
    }
  }

  lemma {:induction false} VisitRuleSound(g: Grammar, st: State, x: nat, visiting: set<nat>, r: nat)
    requires g.WellFormed() && x in LeftSides(g) && r < |g.rules| && g.rules[r].lhs == x && Sound(g, st.info)
    ensures Sound(g, VisitRule(g, st, x, visiting, r).info)
    decreases LeftSides(g) - visiting, |g.rules| - r, 0
  {
    var rhs := g.rules[r].rhs;
    if rhs == [] {
      NullableByRule(g, r);
    } else if g.IsAction(rhs[0]) {
      if r > 0 {
        BeginsByRule(g, r, rhs[0]);
      }
    } else {
      VisitSound(g, st, rhs[0], visiting);
      MergeHeadSound(g, Visit(g, st, rhs[0], visiting), x, r);
    }
  }

  lemma MergeHeadSound(g: Grammar, st: State, x: nat, r: nat)
    requires g.WellFormed() && r < |g.rules| && g.rules[r].lhs == x && g.rules[r].rhs != [] && Sound(g, st.info)
    ensures Sound(g, MergeHead(st, x, g.rules[r].rhs).info)
  {
    if r > 0 {
      var h := g.rules[r].rhs[0];
      if h in st.info.empty && |g.rules[r].rhs| == 1 {
        NullableByRule(g, r);
      }
      forall a | a in st.info.First(h)
        ensures Begins(g, x, a)
      {
        BeginsByRule(g, r, a);
      }
    }
  }

  /** FIRST is sound for every grammar and every order of visits. */
  lemma {:induction false} FirstSound(g: Grammar, order: seq<nat>)
    requires g.WellFormed() && forall i | 0 <= i < |order| :: order[i] in LeftSides(g)
    ensures Sound(g, VisitAll(g, Initial(g), order).info)
    decreases |order|
  {
    if order != [] {
      var n := |order| - 1;
      FirstSound(g, order[..n]);
      VisitSound(g, VisitAll(g, Initial(g), order[..n]), order[n], {});
    }
  }

  // ------------------------------------------------ the recursion's frame

  /** From st to st', sets grow, initialized sets are frozen, and the table stays well formed. */
  ghost predicate Grows(g: Grammar, st: State, st': State) {
    && st.done <= st'.done
    && (forall x :: st.info.First(x) <= st'.info.First(x))
    && st.info.empty <= st'.info.empty
    && (forall x | x in st.done :: st.info.First(x) == st'.info.First(x) && (x in st'.info.empty ==> x in st.info.empty))
    && (st.info.WellFormed(g) ==> st'.info.WellFormed(g))
  }

  lemma {:induction false} VisitGrows(g: Grammar, st: State, x: nat, visiting: set<nat>)
    requires g.WellFormed() && x in LeftSides(g) && visiting !! st.done
    ensures var st' := Visit(g, st, x, visiting);
            Grows(g, st, st') && visiting !! st'.done && (x in visiting || x in st'.done)
    decreases LeftSides(g) - visiting, 0, 0
  {
    if x !in visiting && x !in st.done {
      VisitRulesGrows(g, st, x, visiting + {x}, 0);
    }
  }

  lemma {:induction false} VisitRulesGrows(g: Grammar, st: State, x: nat, visiting: set<nat>, r: nat)
    requires g.WellFormed() && x in LeftSides(g) && x in visiting && visiting !! st.done
    ensures var st' := VisitRules(g, st, x, visiting, r);
            Grows(g, st, st') && visiting !! st'.done
    decreases LeftSides(g) - visiting, if r < |g.rules| then |g.rules| - r else 0, 1
  {
    if r < |g.rules| {
      if g.rules[r].lhs == x {
        VisitRuleGrows(g, st, x, visiting, r);
        VisitRulesGrows(g, VisitRule(g, st, x, visiting, r), x, visiting, r + 1);
      } else {
        VisitRulesGrows(g, st, x, visiting, r + 1);
      }
    }
  }

  lemma {:induction false} VisitRuleGrows(g: Grammar, st: State, x: nat, visiting: set<nat>, r: nat)
    requires g.WellFormed() && x in LeftSides(g) && r < |g.rules| && x in visiting && visiting !! st.done
    ensures var st' := VisitRule(g, st, x, visiting, r);
            Grows(g, st, st') && visiting !! st'.done
    decreases LeftSides(g) - visiting, |g.rules| - r, 0
  {
    hide Grows;
    var rhs := g.rules[r].rhs;
    if rhs == [] {
      EmptyGrows(g, st, x, visiting);
    } else if g.IsAction(rhs[0]) {
      FirstGrows(g, st, x, visiting, {rhs[0]});
    } else {
      VisitGrows(g, st, rhs[0], visiting);
      var st1 := Visit(g, st, rhs[0], visiting);
      HeadGrows(g, st1, x, visiting, rhs);
      GrowsTrans(g, st, st1, MergeHead(st1, x, rhs));
    }
  }

  lemma EmptyGrows(g: Grammar, st: State, x: nat, visiting: set<nat>)
    requires x in visiting && visiting !! st.done
    ensures Grows(g, st, st.AddEmpty(x)) && visiting !! st.AddEmpty(x).done
  {
  }

  lemma FirstGrows(g: Grammar, st: State, x: nat, visiting: set<nat>, s: set<nat>)
    requires x in visiting && visiting !! st.done && forall a | a in s :: a < g.actionN
    ensures Grows(g, st, st.AddFirst(x, s)) && visiting !! st.AddFirst(x, s).done
  {
  }

  lemma HeadGrows(g: Grammar, st: State, x: nat, visiting: set<nat>, rhs: seq<nat>)
    requires rhs != [] && x in visiting && visiting !! st.done
    ensures Grows(g, st, MergeHead(st, x, rhs)) && visiting !! MergeHead(st, x, rhs).done
  {
  }

  lemma GrowsTrans(g: Grammar, a: State, b: State, c: State)
    requires Grows(g, a, b) && Grows(g, b, c)
    ensures Grows(g, a, c)
  {
  }

  // ------------------------------------------------ what a visit leaves, for every grammar

  /** The head of rule r, which is for x, brings the token a. */
  ghost predicate HeadGives(g: Grammar, st: State, x: nat, r: nat, a: nat) {
    && r < |g.rules| && g.rules[r].lhs == x && g.rules[r].rhs != []
    && var h := g.rules[r].rhs[0];
       if g.IsAction(h) then a == h else h != x && a in st.info.First(h)
  }

  /** Rule r, which is for x, is empty or has one symbol flagged as empty. */
  ghost predicate HeadFlags(g: Grammar, st: State, x: nat, r: nat) {
    && r < |g.rules| && g.rules[r].lhs == x
    && (g.rules[r].rhs == []
        || (|g.rules[r].rhs| == 1 && g.rules[r].rhs[0] != x && !g.IsAction(g.rules[r].rhs[0]) && g.rules[r].rhs[0] in st.info.empty))
  }

  ghost predicate Gives(g: Grammar, st: State, x: nat, n: nat, a: nat) {
    exists r: nat :: r < n && HeadGives(g, st, x, r, a)
  }

  ghost predicate Flagged(g: Grammar, st: State, x: nat, n: nat) {
    exists r: nat :: r < n && HeadFlags(g, st, x, r)
  }

  /** x has exactly what the heads of its first n rules bring, cut short by a cycle or not. */
  ghost predicate HasHeads(g: Grammar, st: State, x: nat, n: nat) {
    && (forall a: nat :: a in st.info.First(x) <==> Gives(g, st, x, n, a))
    && (x in st.info.empty <==> Flagged(g, st, x, n))
  }

  ghost predicate Explains(g: Grammar, st: State, x: nat) {
    HasHeads(g, st, x, |g.rules|)
  }

  /** The heads of the first n rules for x will not change while x is visited. */
  ghost predicate HeadsSettled(g: Grammar, st: State, x: nat, visiting: set<nat>, n: nat) {
    forall r | 0 <= r < n && r < |g.rules| && g.rules[r].lhs == x && g.rules[r].rhs != [] && !g.IsAction(g.rules[r].rhs[0]) ::
      g.rules[r].rhs[0] in st.done || g.rules[r].rhs[0] in visiting
  }

  /** Nothing is known of the symbols not met yet. */
  ghost predicate Fresh(st: State, visiting: set<nat>) {
    forall y | y !in visiting && y !in st.done :: st.info.First(y) == {} && y !in st.info.empty
  }

  /** What the given symbols have does not change. */
  ghost predicate Keeps(st: State, st': State, symbols: set<nat>) {
    forall y | y in symbols :: st'.info.First(y) == st.info.First(y) && (y in st'.info.empty <==> y in st.info.empty)
  }

  /** When x was finished, in state m, it had exactly what the heads of its rules bring, and still has. */
  ghost predicate Finished(g: Grammar, m: State, st: State, x: nat) {
    x in m.done && Grows(g, m, st) && Explains(g, m, x)
  }

  ghost predicate WasExplained(g: Grammar, st: State, x: nat) {
    exists m: State :: Finished(g, m, st, x)
  }

  ghost predicate AllExplained(g: Grammar, st: State) {
    forall x | x in st.done :: WasExplained(g, st, x)
  }

  lemma GrowsRefl(g: Grammar, st: State)
    ensures Grows(g, st, st)
  {
  }

  lemma ExplainedKept(g: Grammar, st: State, st': State)
    requires AllExplained(g, st) && Grows(g, st, st')
    ensures forall x | x in st.done :: WasExplained(g, st', x)
  {
    hide Grows, Explains;
    forall x | x in st.done
      ensures WasExplained(g, st', x)
    {
      assert WasExplained(g, st, x);
      var m: State :| Finished(g, m, st, x);
      GrowsTrans(g, m, st, st');
      assert Finished(g, m, st', x);
    }
  }

  /** The heads of earlier rules bring the same after a change elsewhere. */
  lemma HeadsKept(g: Grammar, st: State, st': State, x: nat, visiting: set<nat>, n: nat)
    requires HasHeads(g, st, x, n) && HeadsSettled(g, st, x, visiting, n) && x in visiting
    requires Grows(g, st, st') && Keeps(st, st', visiting)
    ensures HasHeads(g, st', x, n) && HeadsSettled(g, st', x, visiting, n)
  {
    hide Grows, Keeps;
    GrowsHeads(g, st, st', x, visiting, n);
    KeepsOne(st, st', visiting, x);
    forall a: nat
      ensures Gives(g, st', x, n, a) <==> Gives(g, st, x, n, a)
    {
      if Gives(g, st, x, n, a) {
        var r: nat :| r < n && HeadGives(g, st, x, r, a);
        assert HeadGives(g, st', x, r, a);
      }
      if Gives(g, st', x, n, a) {
        var r: nat :| r < n && HeadGives(g, st', x, r, a);
        assert HeadGives(g, st, x, r, a);
      }
    }
    if Flagged(g, st, x, n) {
      var r: nat :| r < n && HeadFlags(g, st, x, r);
      assert HeadFlags(g, st', x, r);
    }
    if Flagged(g, st', x, n) {
      var r: nat :| r < n && HeadFlags(g, st', x, r);
      assert HeadFlags(g, st, x, r);
    }
  }

  lemma KeepsOne(st: State, st': State, symbols: set<nat>, y: nat)
    requires Keeps(st, st', symbols) && y in symbols
    ensures st'.info.First(y) == st.info.First(y) && (y in st'.info.empty <==> y in st.info.empty)
  {
  }

  lemma GrowsHeads(g: Grammar, st: State, st': State, x: nat, visiting: set<nat>, n: nat)
    requires HeadsSettled(g, st, x, visiting, n) && Grows(g, st, st') && Keeps(st, st', visiting)
    ensures HeadsSettled(g, st', x, visiting, n)
    ensures forall r | 0 <= r < n && r < |g.rules| && g.rules[r].lhs == x && g.rules[r].rhs != [] && !g.IsAction(g.rules[r].rhs[0]) ::
              && st'.info.First(g.rules[r].rhs[0]) == st.info.First(g.rules[r].rhs[0])
              && (g.rules[r].rhs[0] in st'.info.empty <==> g.rules[r].rhs[0] in st.info.empty)
  {
  }

  /** One more rule: the heads before it and its own. */
  lemma OneMoreHead(g: Grammar, st: State, st': State, x: nat, n: nat)
    requires n < |g.rules| && HasHeads(g, st, x, n)
    requires forall r: nat, a: nat | r < n :: HeadGives(g, st', x, r, a) <==> HeadGives(g, st, x, r, a)
    requires forall r: nat | r < n :: HeadFlags(g, st', x, r) <==> HeadFlags(g, st, x, r)
    requires forall a: nat :: a in st'.info.First(x) <==> a in st.info.First(x) || HeadGives(g, st', x, n, a)
    requires x in st'.info.empty <==> x in st.info.empty || HeadFlags(g, st', x, n)
    ensures HasHeads(g, st', x, n + 1)
  {
    hide HeadGives, HeadFlags;
    forall a: nat
      ensures Gives(g, st', x, n + 1, a) <==> Gives(g, st, x, n, a) || HeadGives(g, st', x, n, a)
    {
      if Gives(g, st', x, n + 1, a) {
        var r: nat :| r < n + 1 && HeadGives(g, st', x, r, a);
        assert r == n || HeadGives(g, st, x, r, a);
      }
      if Gives(g, st, x, n, a) {
        var r: nat :| r < n && HeadGives(g, st, x, r, a);
        assert HeadGives(g, st', x, r, a);
      }
    }
    if Flagged(g, st, x, n) {
      var r: nat :| r < n && HeadFlags(g, st, x, r);
      assert HeadFlags(g, st', x, r);
    }
    if Flagged(g, st', x, n + 1) {
      var r: nat :| r < n + 1 && HeadFlags(g, st', x, r);
      assert r == n || HeadFlags(g, st, x, r);
    }
  }

  /** A change of x alone, by what the head of rule r brings. */
  lemma OwnChange(g: Grammar, st: State, st': State, x: nat, visiting: set<nat>, r: nat)
    requires r < |g.rules| && HasHeads(g, st, x, r) && HeadsSettled(g, st, x, visiting, r + 1) && x in visiting
    requires Fresh(st, visiting) && AllExplained(g, st) && Grows(g, st, st') && st'.done == st.done
    requires forall y | y != x :: st'.info.First(y) == st.info.First(y) && (y in st'.info.empty <==> y in st.info.empty)
    requires forall a: nat :: a in st'.info.First(x) <==> a in st.info.First(x) || HeadGives(g, st', x, r, a)
    requires x in st'.info.empty <==> x in st.info.empty || HeadFlags(g, st', x, r)
    ensures Fresh(st', visiting) && AllExplained(g, st') && Keeps(st, st', visiting - {x})
    ensures HasHeads(g, st', x, r + 1) && HeadsSettled(g, st', x, visiting, r + 1)
  {
    ExplainedKept(g, st, st');
    hide Grows, WasExplained, HasHeads;
    OneMoreHead(g, st, st', x, r);
  }

  lemma SkipRule(g: Grammar, st: State, x: nat, visiting: set<nat>, r: nat)
    requires r < |g.rules| && g.rules[r].lhs != x && HasHeads(g, st, x, r) && HeadsSettled(g, st, x, visiting, r)
    ensures HasHeads(g, st, x, r + 1) && HeadsSettled(g, st, x, visiting, r + 1)
  {
    OneMoreHead(g, st, st, x, r);
  }

  lemma KeepsTrans(a: State, b: State, c: State, symbols: set<nat>)
    requires Keeps(a, b, symbols) && Keeps(b, c, symbols)
    ensures Keeps(a, c, symbols)
  {
  }

  lemma KeepsLess(a: State, b: State, symbols: set<nat>, some: set<nat>)
    requires Keeps(a, b, symbols) && some <= symbols
    ensures Keeps(a, b, some)
  {
  }

  lemma {:induction false} VisitTells(g: Grammar, st: State, x: nat, visiting: set<nat>)
    requires g.WellFormed() && x in LeftSides(g) && visiting !! st.done && Fresh(st, visiting) && AllExplained(g, st)
    ensures var st' := Visit(g, st, x, visiting);
            && Fresh(st', visiting) && AllExplained(g, st') && Keeps(st, st', visiting)
            && (x !in visiting && x !in st.done ==> Explains(g, st', x))
    decreases LeftSides(g) - visiting, 0, 0
  {
    hide Grows, HasHeads, Fresh, AllExplained, Keeps, HeadsSettled;
    if x in visiting || x in st.done {
      KeepsRefl(st, visiting);
    } else {
      var inner := visiting + {x};
      VisitStarts(g, st, x, visiting);
      VisitRulesTells(g, st, x, inner, 0);
      VisitRulesGrows(g, st, x, inner, 0);
      VisitEnds(g, st, VisitRules(g, st, x, inner, 0), x, visiting);
    }
  }

  lemma KeepsRefl(st: State, symbols: set<nat>)
    ensures Keeps(st, st, symbols)
  {
  }

  lemma VisitStarts(g: Grammar, st: State, x: nat, visiting: set<nat>)
    requires Fresh(st, visiting) && x !in visiting && x !in st.done
    ensures Fresh(st, visiting + {x}) && HasHeads(g, st, x, 0) && HeadsSettled(g, st, x, visiting + {x}, 0)
  {
  }

  lemma VisitEnds(g: Grammar, st: State, st': State, x: nat, visiting: set<nat>)
    requires Fresh(st', visiting + {x}) && AllExplained(g, st') && Keeps(st, st', visiting + {x} - {x}) && HasHeads(g, st', x, |g.rules|)
    requires x !in visiting
    ensures var st2 := st'.(done := st'.done + {x});
            Fresh(st2, visiting) && AllExplained(g, st2) && Keeps(st, st2, visiting) && Explains(g, st2, x)
  {
    var st2 := st'.(done := st'.done + {x});
    DoneGrows(g, st', x);
    ExplainedKept(g, st', st2);
    SameHeads(g, st', st2, x, |g.rules|);
    GrowsRefl(g, st2);
    hide Grows, HasHeads;
    assert Finished(g, st2, st2, x);
    assert visiting + {x} - {x} == visiting;
    forall y | y in st2.done
      ensures WasExplained(g, st2, y)
    {
    }
  }

  lemma DoneGrows(g: Grammar, st: State, x: nat)
    ensures Grows(g, st, st.(done := st.done + {x}))
  {
  }

  lemma SameHeads(g: Grammar, st: State, st': State, x: nat, n: nat)
    requires st'.info == st.info && HasHeads(g, st, x, n)
    ensures HasHeads(g, st', x, n)
  {
    forall a: nat
      ensures Gives(g, st', x, n, a) <==> Gives(g, st, x, n, a)
    {
      if Gives(g, st, x, n, a) {
        var r: nat :| r < n && HeadGives(g, st, x, r, a);
        assert HeadGives(g, st', x, r, a);
      }
      if Gives(g, st', x, n, a) {
        var r: nat :| r < n && HeadGives(g, st', x, r, a);
        assert HeadGives(g, st, x, r, a);
      }
    }
    if Flagged(g, st, x, n) {
      var r: nat :| r < n && HeadFlags(g, st, x, r);
      assert HeadFlags(g, st', x, r);
    }
    if Flagged(g, st', x, n) {
      var r: nat :| r < n && HeadFlags(g, st', x, r);
      assert HeadFlags(g, st, x, r);
    }
  }

  lemma {:induction false} VisitRulesTells(g: Grammar, st: State, x: nat, visiting: set<nat>, r: nat)
    requires g.WellFormed() && x in LeftSides(g) && x in visiting && visiting !! st.done && r <= |g.rules|
    requires Fresh(st, visiting) && AllExplained(g, st) && HasHeads(g, st, x, r) && HeadsSettled(g, st, x, visiting, r)
    ensures var st' := VisitRules(g, st, x, visiting, r);
            Fresh(st', visiting) && AllExplained(g, st') && Keeps(st, st', visiting - {x}) && HasHeads(g, st', x, |g.rules|)
    decreases LeftSides(g) - visiting, |g.rules| - r, 1
  {
    hide Grows, HasHeads, Fresh, AllExplained, Keeps, HeadsSettled;
    if r == |g.rules| {
      KeepsRefl(st, visiting - {x});
    } else if g.rules[r].lhs == x {
      VisitRuleTells(g, st, x, visiting, r);
      VisitRuleGrows(g, st, x, visiting, r);
      var st1 := VisitRule(g, st, x, visiting, r);
      VisitRulesTells(g, st1, x, visiting, r + 1);
      KeepsTrans(st, st1, VisitRules(g, st1, x, visiting, r + 1), visiting - {x});
    } else {
      SkipRule(g, st, x, visiting, r);
      VisitRulesTells(g, st, x, visiting, r + 1);
    }
  }

  lemma {:induction false} VisitRuleTells(g: Grammar, st: State, x: nat, visiting: set<nat>, r: nat)
    requires g.WellFormed() && x in LeftSides(g) && x in visiting && visiting !! st.done && r < |g.rules| && g.rules[r].lhs == x
    requires Fresh(st, visiting) && AllExplained(g, st) && HasHeads(g, st, x, r) && HeadsSettled(g, st, x, visiting, r)
    ensures var st' := VisitRule(g, st, x, visiting, r);
            && Fresh(st', visiting) && AllExplained(g, st') && Keeps(st, st', visiting - {x})
            && HasHeads(g, st', x, r + 1) && HeadsSettled(g, st', x, visiting, r + 1)
    decreases LeftSides(g) - visiting, |g.rules| - r, 0
  {
    hide Grows, HasHeads, Fresh, AllExplained, Keeps;
    var rhs := g.rules[r].rhs;
    if rhs == [] {
      EmptyGrows(g, st, x, visiting);
      OwnChange(g, st, st.AddEmpty(x), x, visiting, r);
    } else if g.IsAction(rhs[0]) {
      FirstGrows(g, st, x, visiting, {rhs[0]});
      OwnChange(g, st, st.AddFirst(x, {rhs[0]}), x, visiting, r);
    } else {
      var h := rhs[0];
      var st1 := Visit(g, st, h, visiting);
      VisitTells(g, st, h, visiting);
      VisitGrows(g, st, h, visiting);
      HeadsKept(g, st, st1, x, visiting, r);
      HeadGrows(g, st1, x, visiting, rhs);
      MergeChange(g, st1, x, visiting, r);
      KeepsLess(st, st1, visiting, visiting - {x});
      KeepsTrans(st, st1, MergeHead(st1, x, rhs), visiting - {x});
    }
  }

  lemma MergeChange(g: Grammar, st: State, x: nat, visiting: set<nat>, r: nat)
    requires r < |g.rules| && g.rules[r].lhs == x && g.rules[r].rhs != [] && !g.IsAction(g.rules[r].rhs[0])
    requires HasHeads(g, st, x, r) && HeadsSettled(g, st, x, visiting, r) && x in visiting
    requires g.rules[r].rhs[0] in visiting || g.rules[r].rhs[0] in st.done
    requires Fresh(st, visiting) && AllExplained(g, st) && Grows(g, st, MergeHead(st, x, g.rules[r].rhs))
    ensures var st' := MergeHead(st, x, g.rules[r].rhs);
            && Fresh(st', visiting) && AllExplained(g, st') && Keeps(st, st', visiting - {x})
            && HasHeads(g, st', x, r + 1) && HeadsSettled(g, st', x, visiting, r + 1)
  {
    hide Grows, HasHeads, Fresh, AllExplained, Keeps;
    OwnChange(g, st, MergeHead(st, x, g.rules[r].rhs), x, visiting, r);
  }

  /** In every order of visits and for every grammar, each left side was left with exactly what the heads of its
      rules had when it was finished. */
  lemma {:induction false} VisitAllTells(g: Grammar, order: seq<nat>)
    requires g.WellFormed() && forall i | 0 <= i < |order| :: order[i] in LeftSides(g)
    ensures var st := VisitAll(g, Initial(g), order);
            && Fresh(st, {}) && AllExplained(g, st) && forall i | 0 <= i < |order| :: order[i] in st.done
    decreases |order|
  {
    hide Grows, Explains, Visit;
    if order != [] {
      var n := |order| - 1;
      VisitAllTells(g, order[..n]);
      var st := VisitAll(g, Initial(g), order[..n]);
      VisitTells(g, st, order[n], {});
      VisitGrows(g, st, order[n], {});
      GrowsDone(g, st, VisitAll(g, Initial(g), order));
    }
  }

  lemma GrowsDone(g: Grammar, a: State, b: State)
    requires Grows(g, a, b)
    ensures a.done <= b.done
  {
  }

  /** The same of computed sets: m is the state in which x was finished. */
  ghost predicate ExplainedBy(g: Grammar, f: FirstInfo, m: State, x: nat) {
    && Explains(g, m, x)
    && f.First(x) == m.info.First(x) && (x in f.empty <==> x in m.info.empty)
    && (forall y :: m.info.First(y) <= f.First(y)) && m.info.empty <= f.empty
  }

  lemma ComputedExplained(g: Grammar, f: FirstInfo, x: nat) returns (m: State)
    requires g.WellFormed() && Computed(g, f) && x in LeftSides(g)
    ensures ExplainedBy(g, f, m, x)
  {
    hide Explains, Visit, VisitAll;
    var order :| IsOrder(g, order) && f == VisitAll(g, Initial(g), order).info;
    VisitAllTells(g, order);
    var st := VisitAll(g, Initial(g), order);
    assert x in order;
    assert WasExplained(g, st, x);
    m :| Finished(g, m, st, x);
  }

  // ------------------------------------------------ exactness, for plain heads

  /** The computed set and flag of x account for rule r, whose head is x itself or already final. */
  ghost predicate HeadClosed(g: Grammar, st: State, x: nat, r: nat)
    requires r < |g.rules|
  {
    var rhs := g.rules[r].rhs;
    if rhs == [] then x in st.info.empty
    else if g.IsAction(rhs[0]) then rhs[0] in st.info.First(x)
    else rhs[0] == x || (rhs[0] in st.done && HeadPassed(st, x, rhs[0], |rhs|))
  }

  predicate HeadPassed(st: State, x: nat, h: nat, n: nat) {
    st.info.First(h) <= st.info.First(x) && (n == 1 && h in st.info.empty ==> x in st.info.empty)
  }

  ghost predicate ClosedUpTo(g: Grammar, st: State, x: nat, n: nat)
    requires n <= |g.rules|
  {
    forall r | 0 <= r < n && g.rules[r].lhs == x :: HeadClosed(g, st, x, r)
  }

  ghost predicate DoneClosed(g: Grammar, st: State) {
    forall x | x in st.done :: ClosedUpTo(g, st, x, |g.rules|)
  }

  /** The symbols being visited lead to x by left corners. */
  ghost predicate Chain(g: Grammar, visiting: set<nat>, x: nat) {
    forall v | v in visiting :: v == x || Reaches(LeftCorners(g), v, x)
  }

  lemma ChainStep(g: Grammar, visiting: set<nat>, x: nat, h: nat)
    requires Chain(g, visiting, x) && LeftCorner(g, x, h)
    ensures Chain(g, visiting, h)
  {
    forall v | v in visiting
      ensures Reaches(LeftCorners(g), v, h)
    {
      if v == x {
        ReachesEdge(LeftCorners(g), x, h);
      } else {
        ReachesStep(LeftCorners(g), v, x, h);
      }
    }
  }

  lemma GrowsKeepsClosed(g: Grammar, st: State, st': State, x: nat, n: nat)
    requires n <= |g.rules| && Grows(g, st, st') && ClosedUpTo(g, st, x, n)
    ensures ClosedUpTo(g, st', x, n)
  {
    forall r | 0 <= r < n && g.rules[r].lhs == x
      ensures HeadClosed(g, st', x, r)
    {
      assert HeadClosed(g, st, x, r);
      assert st.info.First(x) <= st'.info.First(x);
    }
  }

  lemma {:induction false} VisitCloses(g: Grammar, st: State, x: nat, visiting: set<nat>)
    requires g.WellFormed() && PlainHeads(g) && x in LeftSides(g)
    requires visiting !! st.done && Chain(g, visiting, x) && DoneClosed(g, st)
    ensures DoneClosed(g, Visit(g, st, x, visiting))
    decreases LeftSides(g) - visiting, 0, 0
  {
    if x !in visiting && x !in st.done {
      VisitRulesCloses(g, st, x, visiting + {x}, 0);
      var st' := VisitRules(g, st, x, visiting + {x}, 0);
      var st2 := st'.(done := st'.done + {x});
      forall y | y in st2.done
        ensures ClosedUpTo(g, st2, y, |g.rules|)
      {
        assert ClosedUpTo(g, st', y, |g.rules|);
        forall r | 0 <= r < |g.rules| && g.rules[r].lhs == y
          ensures HeadClosed(g, st2, y, r)
        {
          assert HeadClosed(g, st', y, r);
        }
      }
    }
  }

  lemma {:induction false} VisitRulesCloses(g: Grammar, st: State, x: nat, visiting: set<nat>, r: nat)
    requires g.WellFormed() && PlainHeads(g) && x in LeftSides(g) && x in visiting && r <= |g.rules|
    requires visiting !! st.done && Chain(g, visiting, x) && DoneClosed(g, st) && ClosedUpTo(g, st, x, r)
    ensures var st' := VisitRules(g, st, x, visiting, r);
            DoneClosed(g, st') && ClosedUpTo(g, st', x, |g.rules|)
    decreases LeftSides(g) - visiting, |g.rules| - r, 1
  {
    if r < |g.rules| {
      if g.rules[r].lhs == x {
        VisitRuleCloses(g, st, x, visiting, r);
        VisitRuleGrows(g, st, x, visiting, r);
        VisitRulesCloses(g, VisitRule(g, st, x, visiting, r), x, visiting, r + 1);
      } else {
        VisitRulesCloses(g, st, x, visiting, r + 1);
      }
    }
  }

  lemma {:induction false} VisitRuleCloses(g: Grammar, st: State, x: nat, visiting: set<nat>, r: nat)
    requires g.WellFormed() && PlainHeads(g) && x in LeftSides(g) && x in visiting && r < |g.rules| && g.rules[r].lhs == x
    requires visiting !! st.done && Chain(g, visiting, x) && DoneClosed(g, st) && ClosedUpTo(g, st, x, r)
    ensures var st' := VisitRule(g, st, x, visiting, r);
            DoneClosed(g, st') && ClosedUpTo(g, st', x, r + 1)
    decreases LeftSides(g) - visiting, |g.rules| - r, 0
  {
    var rhs := g.rules[r].rhs;
    var st' := VisitRule(g, st, x, visiting, r);
    VisitRuleGrows(g, st, x, visiting, r);
    GrowsKeepsClosed(g, st, st', x, r);
    if rhs == [] || g.IsAction(rhs[0]) {
      forall y | y in st'.done
        ensures ClosedUpTo(g, st', y, |g.rules|)
      {
        GrowsKeepsClosed(g, st, st', y, |g.rules|);
      }
    } else {
      var h := rhs[0];
      assert LeftCorner(g, x, h);
      ChainStep(g, visiting, x, h);
      VisitCloses(g, st, h, visiting);
      VisitGrows(g, st, h, visiting);
      ReachesEdge(LeftCorners(g), x, h);
      assert h in visiting ==> h == x;
      MergeHeadCloses(g, Visit(g, st, h, visiting), x, visiting, r);
    }
  }

  lemma MergeHeadCloses(g: Grammar, st: State, x: nat, visiting: set<nat>, r: nat)
    requires r < |g.rules| && g.rules[r].lhs == x && g.rules[r].rhs != [] && !g.IsAction(g.rules[r].rhs[0])
    requires x in visiting && visiting !! st.done && DoneClosed(g, st)
    requires g.rules[r].rhs[0] == x || g.rules[r].rhs[0] in st.done
    ensures var st' := MergeHead(st, x, g.rules[r].rhs);
            DoneClosed(g, st') && HeadClosed(g, st', x, r)
  {
    var st' := MergeHead(st, x, g.rules[r].rhs);
    forall y | y in st'.done
      ensures ClosedUpTo(g, st', y, |g.rules|)
    {
      assert ClosedUpTo(g, st, y, |g.rules|);
      forall q | 0 <= q < |g.rules| && g.rules[q].lhs == y
        ensures HeadClosed(g, st', y, q)
      {
        assert HeadClosed(g, st, y, q);
      }
    }
  }

  lemma {:induction false} VisitAllCloses(g: Grammar, order: seq<nat>)
    requires g.WellFormed() && forall i | 0 <= i < |order| :: order[i] in LeftSides(g)
    ensures var st := VisitAll(g, Initial(g), order);
            && st.info.WellFormed(g)
            && (forall i | 0 <= i < |order| :: order[i] in st.done)
            && (PlainHeads(g) ==> DoneClosed(g, st))
    decreases |order|
  {
    if order != [] {
      var n := |order| - 1;
      VisitAllCloses(g, order[..n]);
      var st := VisitAll(g, Initial(g), order[..n]);
      VisitGrows(g, st, order[n], {});
      if PlainHeads(g) {
        VisitCloses(g, st, order[n], {});
      }
    }
  }

  /** With plain heads the computed sets satisfy every rule's equation, whatever the order. */
  lemma PlainIsClosed(g: Grammar, order: seq<nat>)
    requires g.WellFormed() && PlainHeads(g) && IsOrder(g, order)
    ensures FirstClosed(g, VisitAll(g, Initial(g), order).info)
  {
    hide Visit, VisitAll, LeftCorners, Nullable, Begins;
    VisitAllCloses(g, order);
    VisitAllFlags(g, order);
    FirstSound(g, order);
    var st := VisitAll(g, Initial(g), order);
    forall r | 0 < r < |g.rules|
      ensures RuleClosed(g, st.info, r)
    {
      assert g.rules[r].lhs in order;
      assert ClosedUpTo(g, st, g.rules[r].lhs, |g.rules|);
      PlainRule(g, st, r);
    }
  }

  lemma PlainRule(g: Grammar, st: State, r: nat)
    requires g.WellFormed() && PlainHeads(g) && Sound(g, st.info) && g.IsRule(r) && HeadClosed(g, st, g.rules[r].lhs, r)
    requires forall x | x in st.info.empty :: !g.IsAction(x)
    ensures RuleClosed(g, st.info, r)
  {
    hide LeftCorners, Nullable, Begins;
    var rhs, f := g.rules[r].rhs, st.info;
    if |rhs| > 1 {
      assert !Nullable(g, rhs[0]) && rhs[0] < g.tokenN;
      assert rhs[0] !in f.empty;
    }
    if rhs != [] {
      assert NextLookaheads(g, f, rhs, 0, {}) <= (if g.IsAction(rhs[0]) then {rhs[0]} else f.First(rhs[0])) by {
        assert |rhs| == 1 ==> NextLookaheads(g, f, rhs, 1, {}) == {};
      }
    }
  }

  /** For tame grammars as well. */
  lemma TameIsClosed(g: Grammar, order: seq<nat>)
    requires g.WellFormed() && Tame(g) && IsOrder(g, order)
    ensures FirstClosed(g, VisitAll(g, Initial(g), order).info)
  {
    TameIsPlain(g);
    PlainIsClosed(g, order);
  }

  // ------------------------------------------------ closed sets are exact

  /** One derivation step back can only add first tokens. */
  lemma StepFirst(g: Grammar, f: FirstInfo, a: seq<nat>, b: seq<nat>, k: nat, r: nat, la: set<nat>)
    requires g.WellFormed() && FirstClosed(g, f) && StepAt(g, a, b, k, r)
    ensures NextLookaheads(g, f, b, 0, la) <= NextLookaheads(g, f, a, 0, la)
  {
    var p, rhs, s, x := a[..k], g.rules[r].rhs, a[k + 1..], g.rules[r].lhs;
    assert b == p + (rhs + s) && a == p + ([x] + s);
    var l := NextLookaheads(g, f, s, 0, la);
    assert NextLookaheads(g, f, rhs, 0, l) <= NextLookaheads(g, f, [x], 0, l) by {
      RuleFirst(g, f, r, l);
    }
    NextConcat(g, f, rhs, s, 0, la);
    NextConcat(g, f, [x], s, 0, la);
    NextConcat(g, f, p, rhs + s, 0, la);
    NextConcat(g, f, p, [x] + s, 0, la);
    NextMonotone(g, f, p, 0, NextLookaheads(g, f, rhs + s, 0, la), NextLookaheads(g, f, [x] + s, 0, la));
  }

  lemma RuleFirst(g: Grammar, f: FirstInfo, r: nat, la: set<nat>)
    requires g.WellFormed() && FirstClosed(g, f) && g.IsRule(r)
    ensures NextLookaheads(g, f, g.rules[r].rhs, 0, la) <= NextLookaheads(g, f, [g.rules[r].lhs], 0, la)
  {
    var rhs, x := g.rules[r].rhs, g.rules[r].lhs;
    assert RuleClosed(g, f, r);
    assert NextLookaheads(g, f, [x], 0, la) == f.First(x) + if x in f.empty then la else {};
    NextPasses(g, f, rhs, 0, la);
  }

  /** The lookahead set shows through exactly when all symbols are flagged. */
  lemma {:induction false} NextPasses(g: Grammar, f: FirstInfo, s: seq<nat>, j: nat, la: set<nat>)
    requires j <= |s| && forall x | x in f.empty :: !g.IsAction(x)
    ensures NextLookaheads(g, f, s, j, la) == NextLookaheads(g, f, s, j, {}) + if AllEmpty(f, s[j..]) then la else {}
    decreases |s| - j
  {
    if j < |s| {
      NextPasses(g, f, s, j + 1, la);
      assert s[j..] == [s[j]] + s[j + 1..];
      assert AllEmpty(f, s[j..]) <==> s[j] in f.empty && AllEmpty(f, s[j + 1..]) by {
        AllEmptyCons(f, s[j], s[j + 1..]);
      }
    }
  }

  lemma AllEmptyCons(f: FirstInfo, x: nat, s: seq<nat>)
    ensures AllEmpty(f, [x] + s) <==> x in f.empty && AllEmpty(f, s)
  {
    var t := [x] + s;
    assert t[0] == x;
    if AllEmpty(f, t) {
      forall i | 0 <= i < |s|
        ensures s[i] in f.empty
      {
        assert t[i + 1] == s[i];
      }
    }
  }

  /** The first tokens at the end of a derivation are among those computed at its start. */
  lemma {:induction false} DerivationFirst(g: Grammar, f: FirstInfo, a: seq<nat>, b: seq<nat>, n: nat, la: set<nat>)
    requires g.WellFormed() && FirstClosed(g, f) && Derives(g, a, b, n)
    ensures NextLookaheads(g, f, b, 0, la) <= NextLookaheads(g, f, a, 0, la)
    decreases n
  {
    if n > 0 {
      var k, r, c :| StepAt(g, a, c, k, r) && Derives(g, c, b, n - 1);
      StepFirst(g, f, a, c, k, r, la);
      DerivationFirst(g, f, c, b, n - 1, la);
    }
  }

  lemma ClosedComplete(g: Grammar, f: FirstInfo, x: nat, a: nat)
    requires g.WellFormed() && f.WellFormed(g) && FirstClosed(g, f) && g.actionN <= x < g.tokenN && a < g.actionN
    ensures Begins(g, x, a) ==> a in f.First(x)
    ensures Nullable(g, x) ==> x in f.empty
  {
    if Begins(g, x, a) {
      var s: seq<nat> :| DerivesStar(g, [x], [a] + s);
      var n: nat :| Derives(g, [x], [a] + s, n);
      DerivationFirst(g, f, [x], [a] + s, n, {});
    }
    if Nullable(g, x) {
      var n: nat :| Derives(g, [x], [], n);
      DerivationFirst(g, f, [x], [], n, {g.actionN});
    }
  }

  /** Sound sets are exact if and only if they satisfy every rule's equation. */
  lemma ExactIffClosed(g: Grammar, f: FirstInfo)
    requires g.WellFormed() && f.WellFormed(g) && Sound(g, f) && forall x | x in f.empty :: !g.IsAction(x)
    ensures Exact(g, f) <==> FirstClosed(g, f)
  {
    if FirstClosed(g, f) {
      forall x: nat, a: nat | g.actionN <= x < g.tokenN && a < g.actionN
        ensures a in f.First(x) <==> Begins(g, x, a)
      {
        ClosedComplete(g, f, x, a);
      }
      forall x: nat | g.actionN <= x < g.tokenN
        ensures x in f.empty <==> Nullable(g, x)
      {
        ClosedComplete(g, f, x, 0);
      }
    }
    if Exact(g, f) {
      forall r | 0 < r < |g.rules|
        ensures RuleClosed(g, f, r)
      {
        ExactRuleClosed(g, f, r);
      }
    }
  }

  lemma ExactRuleClosed(g: Grammar, f: FirstInfo, r: nat)
    requires g.WellFormed() && f.WellFormed(g) && Sound(g, f) && Exact(g, f) && g.IsRule(r)
    ensures RuleClosed(g, f, r)
  {
    var x, rhs := g.rules[r].lhs, g.rules[r].rhs;
    StarRule(g, r);
    assert rhs[0..] == rhs;
    NextBounded(g, f, rhs, 0, {});
    forall a | a in NextLookaheads(g, f, rhs, 0, {})
      ensures a in f.First(x)
    {
      var s := BeginsSeq(g, f, rhs, 0, a);
      StarTrans(g, [x], rhs, [a] + s);
      assert Begins(g, x, a);
    }
    if AllEmpty(f, rhs) {
      NullableSeq(g, f, rhs, 0);
      StarTrans(g, [x], rhs, []);
      assert Nullable(g, x);
    }
  }

  lemma {:induction false} NullableSeq(g: Grammar, f: FirstInfo, s: seq<nat>, j: nat)
    requires j <= |s| && Sound(g, f) && AllEmpty(f, s) && forall i | 0 <= i < |s| :: s[i] < g.tokenN
    ensures DerivesStar(g, s[j..], [])
    decreases |s| - j
  {
    if j == |s| {
      StarRefl(g, s[j..]);
    } else {
      NullableSeq(g, f, s, j + 1);
      StarContext(g, [], [s[j]], [], s[j + 1..]);
      assert [] + [s[j]] + s[j + 1..] == s[j..];
      assert [] + [] + s[j + 1..] == s[j + 1..];
      StarTrans(g, s[j..], s[j + 1..], []);
    }
  }

  lemma {:induction false} BeginsSeq(g: Grammar, f: FirstInfo, s: seq<nat>, j: nat, a: nat) returns (t: seq<nat>)
    requires j <= |s| && Sound(g, f) && forall i | 0 <= i < |s| :: s[i] < g.tokenN
    requires a in NextLookaheads(g, f, s, j, {})
    ensures DerivesStar(g, s[j..], [a] + t)
    decreases |s| - j
  {
    hide DerivesStar;
    var rest := s[j + 1..];
    assert s[j..] == [] + [s[j]] + rest;
    if g.IsAction(s[j]) {
      t := rest;
      StarRefl(g, s[j..]);
      assert [a] + t == s[j..];
    } else if a in f.First(s[j]) {
      var u: seq<nat> :| DerivesStar(g, [s[j]], [a] + u);
      StarContext(g, [], [s[j]], [a] + u, rest);
      t := u + rest;
      assert [] + ([a] + u) + rest == [a] + t;
    } else {
      t := BeginsSeq(g, f, s, j + 1, a);
      StarContext(g, [], [s[j]], [], rest);
      assert [] + [] + rest == rest;
      StarTrans(g, s[j..], rest, [a] + t);
    }
  }

  /** With plain heads the computed sets are FIRST exactly, in any order of visits. */
  lemma PlainFirstExact(g: Grammar, order: seq<nat>)
    requires g.WellFormed() && PlainHeads(g) && IsOrder(g, order)
    ensures Exact(g, VisitAll(g, Initial(g), order).info)
  {
    hide Visit, VisitAll, Sound, Exact, FirstClosed, PlainHeads;
    FirstSound(g, order);
    VisitAllCloses(g, order);
    VisitAllFlags(g, order);
    PlainIsClosed(g, order);
    ExactIffClosed(g, VisitAll(g, Initial(g), order).info);
  }

  /** And so they are for tame grammars. */
  lemma TameFirstExact(g: Grammar, order: seq<nat>)
    requires g.WellFormed() && Tame(g) && IsOrder(g, order)
    ensures Exact(g, VisitAll(g, Initial(g), order).info)
  {
    TameIsPlain(g);
    PlainFirstExact(g, order);
  }

  /** The sets are what some order of visits leaves. */
  ghost predicate Computed(g: Grammar, f: FirstInfo)
    requires g.WellFormed()
  {
    exists order: seq<nat> :: IsOrder(g, order) && f == VisitAll(g, Initial(g), order).info
  }

  ghost predicate IsOrder(g: Grammar, order: seq<nat>) {
    && (forall i | 0 <= i < |order| :: order[i] in LeftSides(g))
    && (forall x | x in LeftSides(g) :: x in order)
  }

  /** FIRST in any order: sound for every grammar, and for tame grammars exact. */
  lemma ComputedFirst(g: Grammar, f: FirstInfo)
    requires g.WellFormed() && Computed(g, f)
    ensures f.WellFormed(g) && Sound(g, f) && forall x | x in f.empty :: !g.IsAction(x)
    ensures PlainHeads(g) ==> FirstClosed(g, f) && Exact(g, f)
  {
    var order :| IsOrder(g, order) && f == VisitAll(g, Initial(g), order).info;
    FirstSound(g, order);
    VisitAllCloses(g, order);
    VisitAllFlags(g, order);
    if PlainHeads(g) {
      PlainIsClosed(g, order);
      PlainFirstExact(g, order);
    }
  }

  ghost predicate Flags(g: Grammar, st: State) {
    forall x | x in st.info.empty :: x in LeftSides(g)
  }

  lemma {:induction false} VisitFlags(g: Grammar, st: State, x: nat, visiting: set<nat>)
    requires g.WellFormed() && x in LeftSides(g) && Flags(g, st)
    ensures Flags(g, Visit(g, st, x, visiting))
    decreases LeftSides(g) - visiting, 0, 0
  {
    if x !in visiting && x !in st.done {
      VisitRulesFlags(g, st, x, visiting + {x}, 0);
    }
  }

  lemma {:induction false} VisitRulesFlags(g: Grammar, st: State, x: nat, visiting: set<nat>, r: nat)
    requires g.WellFormed() && x in LeftSides(g) && Flags(g, st)
    ensures Flags(g, VisitRules(g, st, x, visiting, r))
    decreases LeftSides(g) - visiting, if r < |g.rules| then |g.rules| - r else 0, 1
  {
    if r < |g.rules| {
      if g.rules[r].lhs == x {
        var rhs := g.rules[r].rhs;
        if rhs != [] && !g.IsAction(rhs[0]) {
          VisitFlags(g, st, rhs[0], visiting);
        }
        VisitRulesFlags(g, VisitRule(g, st, x, visiting, r), x, visiting, r + 1);
      } else {
        VisitRulesFlags(g, st, x, visiting, r + 1);
      }
    }
  }

  lemma {:induction false} VisitAllFlags(g: Grammar, order: seq<nat>)
    requires g.WellFormed() && forall i | 0 <= i < |order| :: order[i] in LeftSides(g)
    ensures Flags(g, VisitAll(g, Initial(g), order))
    decreases |order|
  {
    if order != [] {
      var n := |order| - 1;
      VisitAllFlags(g, order[..n]);
      VisitFlags(g, VisitAll(g, Initial(g), order[..n]), order[n], {});
    }
  }
}
