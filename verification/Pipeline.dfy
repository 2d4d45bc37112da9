/** From a grammar to an answer: generate the table, then drive it. */
module Pipelines {
  import opened Grammars
  import opened Closures
  import opened FirstProofs
  import opened Automata
  import opened Tables
  import opened Machines
  import opened Parsing
  import opened Necessity
  import opened Prefixes
  import opened Termination
  import opened Canonical
  import opened Follows
  import opened Fillings
  import opened Rows
  import opened Mergings
  import opened Collections
  import opened Values
  import opened Memories
  import opened Drivers

  /** A table generated for a collected graph: sound whatever conflicted, and with every cell
      determined when nothing did. */
  ghost predicate Generated(g: Grammar, f: FirstInfo, a: Automaton, prec: PrecedenceTable, t: seq<nat>, clean: bool) {
    && g.WellFormed()
    && Computed(g, f)
    && Collected(g, f, a)
    && |a.states| == |a.trans|
    && TableSound(g, a, t)
    && (clean ==> TablePicked(g, a, prec, t))
  }

  lemma GeneratedSetting(g: Grammar, f: FirstInfo, a: Automaton, prec: PrecedenceTable, t: seq<nat>, clean: bool, input: seq<Lexeme>)
    requires Generated(g, f, a, prec, t, clean) && IsInput(g, input)
    ensures Setting(g, a, t, input) && EofOnly(a)
  {
    hide TableSound, TablePicked, Collected, CoreAutomaton;
    CollectedGraph(g, f, a);
  }

  /** Soundness for every grammar, every precedence table and every conflict: what is accepted is
      a sentence, and the reductions read backwards are a rightmost derivation of it. */
  lemma GeneratedSound(g: Grammar, f: FirstInfo, a: Automaton, prec: PrecedenceTable, t: seq<nat>, clean: bool, input: seq<Lexeme>, n: nat)
    requires Generated(g, f, a, prec, t, clean) && IsInput(g, input) && Run(g, t, input, n).Accepted?
    ensures var c := Run(g, t, input, n).c; var w := Symbols(input[..|input| - 1]);
            && Parsed(g, input, c)
            && InLanguage(g, w)
            && Rightmost(g, Postorders(c.forest), [g.Start()], w)
  {
    hide TableSound, TablePicked, Collected, CoreAutomaton, Run;
    GeneratedSetting(g, f, a, prec, t, clean, input);
    Soundness(g, a, t, input, n);
  }

  /** The driver accepts exactly the language whenever the table serves, whatever the precedences and
      conflicts it was filled with. */
  lemma GeneratedDecides(g: Grammar, f: FirstInfo, a: Automaton, prec: PrecedenceTable, t: seq<nat>, clean: bool, input: seq<Lexeme>)
    requires Generated(g, f, a, prec, t, clean) && TableServes(g, t) && IsInput(g, input)
    ensures (exists n: nat :: Run(g, t, input, n).Accepted?)
       <==> (input[|input| - 1].tok == 0 && InLanguage(g, Symbols(input[..|input| - 1])))
  {
    hide Generated, TableServes, Setting, Run;
    GeneratedSetting(g, f, a, prec, t, clean, input);
    Decides(g, a, t, input);
  }

  /** The driver answers for every input whether it is a sentence. */
  ghost predicate AcceptsLanguage(g: Grammar, t: seq<nat>)
    requires g.WellFormed()
  {
    forall input | IsInput(g, input) :: Answers(g, t, input)
  }

  ghost predicate Answers(g: Grammar, t: seq<nat>, input: seq<Lexeme>)
    requires g.WellFormed() && |input| > 0
  {
    (exists n: nat :: Run(g, t, input, n).Accepted?)
    <==> (input[|input| - 1].tok == 0 && InLanguage(g, Symbols(input[..|input| - 1])))
  }

  ghost predicate OneTreeEach(g: Grammar)
    requires g.WellFormed()
  {
    forall input, t1, t2 | IsInput(g, input) && ParseOf(g, input, t1) && ParseOf(g, input, t2) :: t1 == t2
  }

  /** The exact condition: a generated table serves if and only if no sentence has two trees and the
      driver accepts exactly the language. */
  lemma ServesIffDecides(g: Grammar, f: FirstInfo, a: Automaton, prec: PrecedenceTable, t: seq<nat>, clean: bool, v: Value)
    requires Generated(g, f, a, prec, t, clean) && Productive(g)
    ensures TableServes(g, t) <==> AcceptsLanguage(g, t) && OneTreeEach(g)
  {
    hide Generated, Productive, TableServes, AllTokens, ParseOf, Answers, RebuildsTrees;
    GeneratedGrammar(g, f, a, prec, t, clean);
    GeneratedRebuilds(g, f, a, prec, t, clean, v);
    if TableServes(g, t) {
      forall input | IsInput(g, input)
        ensures Answers(g, t, input)
      {
        ServedAnswers(g, f, a, prec, t, clean, input);
      }
      forall input, t1, t2 | IsInput(g, input) && ParseOf(g, input, t1) && ParseOf(g, input, t2)
        ensures t1 == t2
      {
        Unambiguous(g, t, input, t1, t2);
      }
    }
    if AcceptsLanguage(g, t) && OneTreeEach(g) {
      AnswersRebuild(g, f, a, prec, t, clean);
    }
  }

  lemma GeneratedGrammar(g: Grammar, f: FirstInfo, a: Automaton, prec: PrecedenceTable, t: seq<nat>, clean: bool)
    requires Generated(g, f, a, prec, t, clean)
    ensures g.WellFormed() && |a.states| == |a.trans|
  {
  }

  lemma GeneratedRebuilds(g: Grammar, f: FirstInfo, a: Automaton, prec: PrecedenceTable, t: seq<nat>, clean: bool, v: Value)
    requires Generated(g, f, a, prec, t, clean) && Productive(g)
    ensures TableServes(g, t) <==> RebuildsTrees(g, t)
  {
    hide TableSound, TablePicked, Collected, CoreAutomaton, Productive, TableServes, RebuildsTrees, AllReached;
    CollectedGraph(g, f, a);
    CollectedReached(g, f, a);
    ServesExactly(g, a, t, v);
  }

  lemma ServedAnswers(g: Grammar, f: FirstInfo, a: Automaton, prec: PrecedenceTable, t: seq<nat>, clean: bool, input: seq<Lexeme>)
    requires Generated(g, f, a, prec, t, clean) && TableServes(g, t) && IsInput(g, input)
    ensures Answers(g, t, input)
  {
    hide Generated, TableServes, Run;
    GeneratedDecides(g, f, a, prec, t, clean, input);
  }

  lemma AnswersRebuild(g: Grammar, f: FirstInfo, a: Automaton, prec: PrecedenceTable, t: seq<nat>, clean: bool)
    requires Generated(g, f, a, prec, t, clean) && AcceptsLanguage(g, t) && OneTreeEach(g)
    ensures RebuildsTrees(g, t)
  {
    hide Generated, AllTokens, ParseOf, Run, InLanguage, Parsed;
    GeneratedGrammar(g, f, a, prec, t, clean);
    forall input, tree | IsInput(g, input) && ParseOf(g, input, tree)
      ensures Rebuilds(g, t, input, tree)
    {
      ParseIsSentence(g, input, tree);
      assert Answers(g, t, input);
      var n: nat :| Run(g, t, input, n).Accepted?;
      GeneratedSound(g, f, a, prec, t, clean, input, n);
      var forest := Run(g, t, input, n).c.forest;
      ParsedParse(g, input, Run(g, t, input, n).c);
      assert forest == [forest[0]];
    }
  }

  lemma ParsedParse(g: Grammar, input: seq<Lexeme>, c: Config)
    requires g.WellFormed() && |input| > 0 && Parsed(g, input, c)
    ensures |c.forest| == 1 && ParseOf(g, input, c.forest[0])
  {
  }

  /** First sets that satisfy the rules need not be those computed: they may only not add to what
      follows a nonterminal within a rule. */
  ghost predicate Covers(g: Grammar, f: FirstInfo, f': FirstInfo) {
    forall r, k, la: set<nat> | 0 <= r < |g.rules| && 0 < k <= |g.rules[r].rhs| && !g.IsAction(g.rules[r].rhs[k - 1]) ::
      NextLookaheads(g, f', g.rules[r].rhs, k, la) <= NextLookaheads(g, f, g.rules[r].rhs, k, la)
  }

  ghost predicate FirstServes(g: Grammar, f: FirstInfo) {
    exists f' :: FirstClosed(g, f') && Covers(g, f, f')
  }

  lemma CoveredClosed(g: Grammar, f: FirstInfo, f': FirstInfo, a: Automaton)
    requires CoreAutomaton(g, a) && LookaheadClosed(g, f, a) && Covers(g, f, f')
    ensures LookaheadClosed(g, f', a)
  {
    hide NextLookaheads, LookaheadEdge, CoreClosure;
    forall s | 0 <= s < |a.states|
      ensures Propagated(g, f', a.states[s])
    {
      CoveredPropagated(g, f, f', a.states[s]);
    }
  }

  lemma CoveredPropagated(g: Grammar, f: FirstInfo, f': FirstInfo, m: ItemSet)
    requires Propagated(g, f, m) && Covers(g, f, f')
    ensures Propagated(g, f', m)
  {
    hide NextLookaheads;
    forall it, it2 | it in m && it2 in m && AtNonterminal(g, it) && Lhs(g, it2) == Curr(g, it)
      ensures Contribution(g, f', m, it) <= m[it2]
    {
      var r, k := it.rule, it.dot + 1;
      assert NextLookaheads(g, f', g.rules[r].rhs, k, m[it]) <= NextLookaheads(g, f, g.rules[r].rhs, k, m[it]);
    }
  }

  /** A clean table under null precedence serves, without a state that both accepts and reduces. */
  lemma CleanServes(g: Grammar, f: FirstInfo, a: Automaton, t: seq<nat>)
    requires Generated(g, f, a, Null, t, true) && FirstServes(g, f) && NoAcceptReduce(g, a)
    ensures TableServes(g, t)
  {
    hide TableSound, TablePicked, Collected, CoreAutomaton, FirstClosed, NoAcceptReduce, TableComplete, Covers, LookaheadClosed, LookaheadFlow;
    CollectedGraph(g, f, a);
    PickedComplete(g, a, t);
    var f' :| FirstClosed(g, f') && Covers(g, f, f');
    CoveredClosed(g, f, f', a);
    ClosedFlow(g, f', a);
    assert ServedBy(g, f', a, t);
  }

  lemma ClosedServes(g: Grammar, f: FirstInfo)
    requires FirstClosed(g, f)
    ensures FirstServes(g, f)
  {
    hide FirstClosed, NextLookaheads;
    assert Covers(g, f, f);
  }

  /** For tame grammars the hypotheses hold, and the driver has answered after linearly many steps. */
  lemma TameDecides(g: Grammar, f: FirstInfo, a: Automaton, t: seq<nat>, input: seq<Lexeme>)
    requires Generated(g, f, a, Null, t, true) && Tame(g) && IsInput(g, input)
    ensures StepBound(g, input) == 2 * |input| * (g.tokenN + 2) + 1
    ensures var o := Run(g, t, input, StepBound(g, input));
            && !o.Running?
            && (o.Accepted? <==> input[|input| - 1].tok == 0 && InLanguage(g, Symbols(input[..|input| - 1])))
  {
    hide TableSound, TablePicked, Collected, CoreAutomaton, Run, Tame, FirstClosed, NoAcceptReduce, InLanguage, Exact, Sound, FirstServes, TableServes,
      PlainHeads;
    TameIsPlain(g);
    ComputedFirst(g, f);
    TameNoAcceptReduce(g, f, a);
    GeneratedSetting(g, f, a, Null, t, true, input);
    TameTerminates(g);
    var bound := StepBound(g, input);
    RunEnds(g, a, t, input, bound);
    ClosedServes(g, f);
    CleanServes(g, f, a, t);
    GeneratedDecides(g, f, a, Null, t, true, input);
    if n: nat :| Run(g, t, input, n).Accepted? {
      if n <= bound {
        StepsStay(g, t, input, n, bound);
      } else {
        StepsStay(g, t, input, bound, n);
      }
    }
  }

  /** The run has ended, by accepting exactly if the input is a sentence. */
  ghost predicate Answered(g: Grammar, t: seq<nat>, input: seq<Lexeme>, n: nat)
    requires g.WellFormed() && |input| > 0
  {
    && !Run(g, t, input, n).Running?
    && (Run(g, t, input, n).Accepted? <==> input[|input| - 1].tok == 0 && InLanguage(g, Symbols(input[..|input| - 1])))
  }

  lemma EndedAnswered(g: Grammar, t: seq<nat>, input: seq<Lexeme>, n: nat)
    requires g.WellFormed() && |input| > 0 && Answers(g, t, input) && !Run(g, t, input, n).Running?
    ensures Answered(g, t, input, n)
  {
    hide Run, InLanguage;
    if k: nat :| Run(g, t, input, k).Accepted? {
      StepsStay(g, t, input, if k <= n then k else n, if k <= n then n else k);
    }
  }

  /** On a generated table that serves a productive grammar every run ends, with the right answer. */
  lemma ServedDecides(g: Grammar, f: FirstInfo, a: Automaton, prec: PrecedenceTable, t: seq<nat>, clean: bool, input: seq<Lexeme>, v: Value)
    requires Generated(g, f, a, prec, t, clean) && Productive(g) && TableServes(g, t) && IsInput(g, input)
    ensures g.WellFormed() && exists n: nat :: Answered(g, t, input, n)
  {
    hide Generated, Setting, Productive, TableServes, Run, Answers, AllTokens;
    GeneratedGrammar(g, f, a, prec, t, clean);
    GeneratedSetting(g, f, a, prec, t, clean, input);
    ServedEnds(g, a, t, input, v);
    var n: nat :| !Run(g, t, input, n).Running?;
    ServedAnswers(g, f, a, prec, t, clean, input);
    EndedAnswered(g, t, input, n);
  }

  /** What a grammar can show of itself for its clean tables to decide its language: heads that leave no
      first token unseen, and a start symbol that is not accepted and reduced at once. */
  ghost predicate StartFree(g: Grammar)
    requires g.WellFormed()
  {
    StartApart(g) || StartAlone(g)
  }

  /** For such grammars, empty rules included, a clean table under null precedence serves. */
  lemma PlainServes(g: Grammar, f: FirstInfo, a: Automaton, t: seq<nat>)
    requires Generated(g, f, a, Null, t, true) && PlainHeads(g) && StartFree(g)
    ensures TableServes(g, t)
  {
    hide TableSound, TablePicked, Collected, CoreAutomaton, PlainHeads, FirstClosed, Exact, Sound, FirstServes, NoAcceptReduce, StartApart, StartAlone;
    ComputedFirst(g, f);
    ClosedServes(g, f);
    if StartApart(g) {
      ApartNoAcceptReduce(g, f, a);
    } else {
      AloneNoAcceptReduce(g, f, a);
    }
    CleanServes(g, f, a, t);
  }

  /** And so the driver decides the language, and for productive grammars always answers. */
  lemma PlainDecides(g: Grammar, f: FirstInfo, a: Automaton, t: seq<nat>, input: seq<Lexeme>, v: Value)
    requires Generated(g, f, a, Null, t, true) && PlainHeads(g) && StartFree(g) && IsInput(g, input)
    ensures Answers(g, t, input)
    ensures Productive(g) ==> exists n: nat :: Answered(g, t, input, n)
  {
    hide TableSound, TablePicked, Collected, PlainHeads, StartFree, Productive, TableServes, Answers, Answered, AllTokens;
    PlainServes(g, f, a, t);
    ServedAnswers(g, f, a, Null, t, true, input);
    if Productive(g) {
      ServedDecides(g, f, a, Null, t, true, input, v);
    }
  }

  /** The correct-prefix property of a generated table that serves a productive grammar: at a syntax error the
      tokens shifted begin a sentence, and with the lookahead they begin none. */
  lemma GeneratedPrefix(g: Grammar, f: FirstInfo, a: Automaton, prec: PrecedenceTable, t: seq<nat>, clean: bool, input: seq<Lexeme>,
                        n: nat, v: Value)
    requires Generated(g, f, a, prec, t, clean) && Productive(g) && TableServes(g, t) && IsInput(g, input)
    requires Run(g, t, input, n).SyntaxError?
    ensures var c := Run(g, t, input, n).c;
            && g.WellFormed() && c.pos < |input| && BeginsSentence(g, Symbols(input[..c.pos]))
            && (if input[c.pos].tok > 0 then !BeginsSentence(g, Symbols(input[..c.pos + 1])) else !InLanguage(g, Symbols(input[..c.pos])))
  {
    hide Generated, Setting, Productive, TableServes, Run, InLanguage, BeginsSentence;
    GeneratedGrammar(g, f, a, prec, t, clean);
    GeneratedSetting(g, f, a, prec, t, clean, input);
    CorrectPrefix(g, a, t, input, n, v);
  }

  // ------------------------------------------------ the order of the items

  /** Runs on two clean tables of one graph are the same: no order in which the generator met the items can
      be seen in them. */
  lemma {:induction false} CleanRunsAgree(g: Grammar, f: FirstInfo, a: Automaton, prec: PrecedenceTable, t1: seq<nat>, t2: seq<nat>,
                                          input: seq<Lexeme>, n: nat)
    requires Generated(g, f, a, prec, t1, true) && Generated(g, f, a, prec, t2, true) && IsInput(g, input)
    ensures Run(g, t1, input, n) == Run(g, t2, input, n)
    decreases n
  {
    hide Generated, Setting, Run, Step, AllTokens, EofOnly;
    GeneratedGrammar(g, f, a, prec, t1, true);
    GeneratedSetting(g, f, a, prec, t1, true, input);
    RunFromStart(g, t1, input);
    RunFromStart(g, t2, input);
    if n > 0 {
      CleanRunsAgree(g, f, a, prec, t1, t2, input, n - 1);
      RunOneMore(g, t1, input, n - 1);
      RunOneMore(g, t2, input, n - 1);
      RunSafe(g, a, t1, input, n - 1);
      var o := Run(g, t1, input, n - 1);
      if o.Running? {
        CleanStepsAgree(g, f, a, prec, t1, t2, input, o.c);
      }
    }
  }

  lemma CleanStepsAgree(g: Grammar, f: FirstInfo, a: Automaton, prec: PrecedenceTable, t1: seq<nat>, t2: seq<nat>, input: seq<Lexeme>, c: Config)
    requires Generated(g, f, a, prec, t1, true) && Generated(g, f, a, prec, t2, true) && IsInput(g, input)
    requires |a.trans| == |a.states| && Inv(g, a, input, c)
    ensures Step(g, t1, input, c) == Step(g, t2, input, c)
  {
    hide Collected, TableSound, TablePicked, CoreAutomaton, EofOnly, Cell, Reduced, Inv, Computed;
    CollectedGraph(g, f, a);
    InvShape(g, a, input, c);
    var la := input[c.pos];
    if la.tok >= 0 {
      InputAt(g, input, c.pos);
      var s := c.states[|c.states| - 1];
      CleanAgrees(g, a, prec, t1, t2, s, la.tok);
      match Cell(g, t1, s, la.tok)
      case Reduce(r) =>
        CellReduce(g, a, t1, input, s, la.tok, r);
        ReduceHandle(g, a, t1, input, c, r);
        ReduceHandle(g, a, t2, input, c, r);
        SameReduced(g, a, t1, t2, c, r);
      case _ =>
    }
  }

  lemma SameReduced(g: Grammar, a: Automaton, t1: seq<nat>, t2: seq<nat>, c: Config, r: nat)
    requires g.IsRule(r) && |a.trans| == |a.states| && |c.states| == |c.forest| + 1
    requires HandleOnTop(g, a, t1, c, r) && HandleOnTop(g, a, t2, c, r)
    ensures Reduced(g, t1, c, r) == Reduced(g, t2, c, r)
  {
    hide Cell, Goto;
  }

  /** Some state has two moves for one token. */
  ghost predicate Conflicted(g: Grammar, a: Automaton)
    requires |a.states| == |a.trans|
  {
    (exists s: nat, x: nat :: ShiftReduce(g, a, s, x)) || exists s: nat, x: nat :: ReduceReduce(g, a, s, x)
  }

  lemma CountedConflicted(g: Grammar, a: Automaton, rr: nat, sr: nat)
    requires CoreAutomaton(g, a) && |a.states| == |a.trans| && (rr > 0 || sr > 0)
    requires sr > 0 ==> ClashBelow(g, a, Null, |a.states|)
    requires rr > 0 ==> ContestBelow(g, a, Null, |a.states|)
    ensures Conflicted(g, a)
  {
    hide CoreAutomaton, ClashBelow, ContestBelow, ShiftReduce, ReduceReduce;
    if sr > 0 {
      ClashIsShiftReduce(g, a);
    } else {
      ContestIsReduceReduce(g, a, Null);
    }
  }

  /** A clean table leaves no conflict but one of acceptance and a reduction. */
  lemma CleanNotConflicted(g: Grammar, a: Automaton, t: seq<nat>)
    requires g.WellFormed() && CoreAutomaton(g, a) && |a.states| == |a.trans| && TablePicked(g, a, Null, t) && NoAcceptReduce(g, a)
    ensures !Conflicted(g, a)
  {
    hide CoreAutomaton, TablePicked, Reduces;
    forall s: nat, x: nat
      ensures !ShiftReduce(g, a, s, x) && !ReduceReduce(g, a, s, x)
    {
      if s < |a.states| && x < g.tokenN {
        CleanHasNone(g, a, t, s, x);
      } else {
        NoSuchColumn(g, a, s, x);
      }
    }
  }

  lemma NoSuchColumn(g: Grammar, a: Automaton, s: nat, x: nat)
    requires g.WellFormed() && CoreAutomaton(g, a) && |a.states| == |a.trans| && (s >= |a.states| || x >= g.tokenN)
    ensures !ShiftReduce(g, a, s, x) && !ReduceReduce(g, a, s, x)
  {
    hide CoreClosure;
    if s < |a.states| {
      assert Bounded(g, a.states[s]);
    }
  }

  // ------------------------------------------------ the two parser types compared

  /** If the CLR(1) table of a grammar has no shift/reduce conflict under null precedence, then
      neither has the LALR(1) table. */
  lemma MergingKeepsShiftReduceFree(g: Grammar, a0: Automaton, a1: Automaton, c: seq<nat>)
    requires CoreAutomaton(g, a0) && CoreAutomaton(g, a1) && IsQuotient(g, a0, a1, c)
    requires |a0.trans| == |a0.states| && |a1.trans| == |a1.states|
    requires !ClashBelow(g, a0, Null, |a0.states|)
    ensures !ClashBelow(g, a1, Null, |a1.states|)
  {
    hide CoreAutomaton, ClashBelow, ShiftReduce, IsQuotient;
    ClashIsShiftReduce(g, a0);
    ClashIsShiftReduce(g, a1);
    if i: nat, x: nat :| ShiftReduce(g, a1, i, x) {
      var s := MergeAddsNoShiftReduce(g, a0, a1, c, i, x);
    }
  }

  /** What the CLR(1) table accepts, a conflict-free LALR(1) table accepts after as many steps, with
      the same parse tree, and so with the same shifts and reductions. */
  lemma LalrAccepts(g: Grammar, f: FirstInfo, a0: Automaton, prec: PrecedenceTable, t0: seq<nat>, clean: bool,
                    a1: Automaton, t1: seq<nat>, c: seq<nat>, input: seq<Lexeme>, n: nat)
    requires Generated(g, f, a0, prec, t0, clean) && Generated(g, f, a1, Null, t1, true)
    requires IsQuotient(g, a0, a1, c) && NoAcceptReduce(g, a1) && IsInput(g, input)
    requires Run(g, t0, input, n).Accepted?
    ensures Run(g, t1, input, n) == RenamedOutcome(c, Run(g, t0, input, n))
    ensures Run(g, t1, input, n).Accepted? && Run(g, t1, input, n).c.forest == Run(g, t0, input, n).c.forest
  {
    hide TableSound, TablePicked, TableComplete, Collected, CoreAutomaton, Run, IsQuotient, NoAcceptReduce;
    GeneratedSetting(g, f, a0, prec, t0, clean, input);
    GeneratedSetting(g, f, a1, Null, t1, true, input);
    PickedComplete(g, a1, t1);
    Simulation(g, a0, t0, a1, t1, c, input, n);
  }

  datatype Report = TooLarge | Conflicts | Ran(result: ParseResult, value: Value)

  /** The table is one of a state graph of the grammar. */
  ghost predicate IsTableOf(g: Grammar, prec: PrecedenceTable, table: seq<nat>, clean: bool) {
    exists f, a :: Generated(g, f, a, prec, table, clean)
  }

  /** Generate the table of a grammar: the result is sound in any case, and clean if error is 0. */
  method GenerateTable(g: Grammar, parserType: ParserType, prec: PrecedenceTable)
    returns (tooLarge: bool, error: nat, table: seq<nat>, ghost f: FirstInfo, ghost a: Automaton)
    requires g.WellFormed()
    ensures |a.states| == |a.trans|
    ensures tooLarge <==> |a.states| > 0x2000_0000 || |g.rules| > 0x2000_0000
    ensures !tooLarge ==> Generated(g, f, a, prec, table, error == 0)
    ensures !tooLarge && error == 0 ==> Obeys(g, a, prec, table)
    ensures !tooLarge && error != 0 ==> ConflictUnder(g, a, prec)
    ensures !tooLarge ==> forall s: nat, x: nat | UndecidedClash(g, a, prec, s, x) :: error != 0
    ensures !tooLarge && NoAcceptReduce(g, a) ==> (error != 0 <==> ConflictUnder(g, a, prec))
    ensures !tooLarge ==> IsTableOf(g, prec, table, error == 0)
    ensures !tooLarge && error != 0 && prec == Null ==> Conflicted(g, a)
    ensures !tooLarge && prec == Null && NoAcceptReduce(g, a) ==> (error != 0 <==> Conflicted(g, a))
    ensures if parserType == CLR_1 then IsCanonical(g, f, a) else IsMerged(g, f, a)
  {
    hide IsMerged, ContestBelow, Conflicted, Collected, TableSound, TablePicked, CoreAutomaton, Computed, IsCanonical, Sound, Exact, FirstClosed, PlainHeads, ClashBelow,
      DoubledBelow, NoAcceptReduce, Obeys, ConflictUnder, UndecidedClash, WasExplained;
    hide LookaheadClosed, EofOnly, CanonicalCollection.Numbered, CanonicalCollection.InUse, Compacted;
    var cc := new CanonicalCollection(g);
    f := cc.f;
    ComputedFirst(g, f);
    cc.Resolve(parserType);
    a := cc.View();
    CollectedGraph(g, f, a);
    SameSize(g, a);
    cc.ViewSize();
    tooLarge, error, table := cc.stateN > CAPACITY || |g.rules| > CAPACITY, 0, [];
    if !tooLarge {
      var cells := new nat[cc.stateN * g.tokenN];
      ghost var rr, sr;
      error, rr, sr := cc.Generate(cells, prec);
      table := cells[..];
      if error != 0 && prec == Null {
        CountedConflicted(g, a, rr, sr);
      }
      if error == 0 && prec == Null && NoAcceptReduce(g, a) {
        CleanNotConflicted(g, a, table);
      }
    }
  }

  ghost predicate NoEmptyRule(g: Grammar) {
    forall r | 0 <= r < |g.rules| :: g.rules[r].rhs != []
  }

  lemma {:induction false} NoEmptyTree(g: Grammar, ts: seq<Tree>)
    requires NoEmptyRule(g) && ValidForest(g, ts)
    ensures NoEmptyAll(ts)
    decreases ts
  {
    forall i | 0 <= i < |ts|
      ensures NoEmpty(ts[i])
    {
      if ts[i].Node? {
        assert Valid(g, ts[i]) && |Roots(g, ts[i].kids)| == |ts[i].kids|;
        NoEmptyTree(g, ts[i].kids);
      }
    }
  }

  /** The slot an accepting run returns holds the value of its tree. */
  lemma AcceptedSlot(g: Grammar, user: UserCode, zero: Value, input: seq<Lexeme>, o: Outcome, d: Memory)
    requires g.WellFormed() && |input| > 0 && o.Accepted? && o.c.pos < |input| && NoEmptyRule(g) && Parsed(g, input, o.c)
    requires NoEmptyAll(o.c.forest) ==> InRunOrder(g, user, zero, input, o, d)
    ensures d.dest < |d.valueTable| && d.valueTable[d.dest] == Fold(user.reduce, o.c.forest[0])
  {
    hide Fold, Packed, CallsAll, ErrorHanded, HandedOnError, NoEmptyAll;
    NoEmptyTree(g, o.c.forest) by { assert o.c.forest == [o.c.forest[0]]; }
  }

  /** What was reported of a run on a table generated without a conflict. */
  ghost predicate IsReported(g: Grammar, f: FirstInfo, a: Automaton, prec: PrecedenceTable, input: seq<Lexeme>, result: ParseResult,
                             o: Outcome, table: seq<nat>) {
    && Generated(g, f, a, prec, table, true) && Obeys(g, a, prec, table)
    && o == Run(g, table, input, StepBound(g, input))
    && (result.OutOfSteps? <==> o.Running?) && (result.Index? <==> o.Accepted?)
    && (result.Failed? <==> o.SyntaxError? || o.LexError?)
  }

  /** Generate the table of a grammar, and parse with it. The tables are refused exactly beyond the bound on
      states and rules, and otherwise exactly if some state has two moves for one token that no precedence
      decides, where no state accepts and reduces on one token. */
  method GenerateAndParse(g: Grammar, parserType: ParserType, prec: PrecedenceTable, user: UserCode, zero: Value, input: seq<Lexeme>)
    returns (report: Report, ghost f: FirstInfo, ghost a: Automaton, ghost table: seq<nat>, ghost o: Outcome, ghost d: Memory)
    requires g.WellFormed() && IsInput(g, input)
    ensures if parserType == CLR_1 then IsCanonical(g, f, a) else IsMerged(g, f, a)
    ensures |a.states| == |a.trans|
    ensures report.TooLarge? <==> |a.states| > 0x2000_0000 || |g.rules| > 0x2000_0000
    ensures report.Conflicts? ==> ConflictUnder(g, a, prec)
    ensures !report.TooLarge? && NoAcceptReduce(g, a) ==> (report.Ran? <==> !ConflictUnder(g, a, prec))
    ensures report.Ran? ==> IsReported(g, f, a, prec, input, report.result, o, table)
    ensures report.Ran? ==> IsMemoryOf(g, user, table, input, StepBound(g, input), d)
    ensures report.Ran? && report.result.Index? ==> report.result.slot == d.dest
    ensures report.Ran? && report.result.Index? && d.dest < |d.valueTable| ==> report.value == d.valueTable[d.dest]
    ensures report.Ran? && report.result.Index? ==>
              o.Accepted? && Parsed(g, input, o.c) && InLanguage(g, Symbols(input[..|input| - 1]))
    ensures report.Ran? && report.result.Index? && NoEmptyRule(g) ==> report.value == Fold(user.reduce, o.c.forest[0])
    ensures report.Ran? && prec == Null && !report.result.OutOfSteps? && PlainHeads(g) && StartFree(g) ==>
              (report.result.Index? <==> input[|input| - 1].tok == 0 && InLanguage(g, Symbols(input[..|input| - 1])))
    ensures report.Ran? && prec == Null && Tame(g) ==>
              && !report.result.OutOfSteps?
              && (report.result.Index? <==> input[|input| - 1].tok == 0 && InLanguage(g, Symbols(input[..|input| - 1])))
  {
    hide Generated, Setting, Run, Tame, InLanguage, Good, Parsed, IsCanonical, IsMerged, NoEmptyRule, NoEmptyAll, InRunOrder, Fold,
      PlainHeads, StartFree, TableServes, IsMemoryOf, Obeys, ConflictUnder, NoAcceptReduce, UndecidedClash, IsTableOf, Conflicted;
    o, d := Stuck, Memory([], [], [], 0, 0, []);
    var tooLarge, error, cells;
    tooLarge, error, cells, f, a := GenerateTable(g, parserType, prec);
    table := cells;
    if tooLarge {
      return TooLarge, f, a, table, o, d;
    }
    if error != 0 {
      return Conflicts, f, a, table, o, d;
    }
    var driver := new Driver(g, user, cells, zero);
    GeneratedSetting(g, f, a, prec, table, true, input);
    var result;
    result, o, d := driver.Parse(input, StepBound(g, input), a);
    if o.Accepted? {
      GeneratedSound(g, f, a, prec, table, true, input, StepBound(g, input));
    }
    if Tame(g) && prec == Null {
      TameDecides(g, f, a, table, input);
    }
    if !o.Running? && prec == Null && PlainHeads(g) && StartFree(g) {
      PlainServes(g, f, a, table);
      GeneratedDecides(g, f, a, Null, table, true, input);
      EndedAnswered(g, table, input, StepBound(g, input));
    }
    var value := zero;
    if result.Index? && result.slot < |driver.valueTable| {
      value := driver.valueTable[result.slot];
    }
    if o.Accepted? && NoEmptyRule(g) {
      AcceptedSlot(g, user, zero, input, o, d);
    }
    report := Ran(result, value);
  }
}
