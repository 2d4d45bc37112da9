/** Every value is used exactly once, on every exit of the driver (src/lr.c 158-202, 226-298). */
module Conservation {
  import opened Grammars
  import opened Automata
  import opened Tables
  import opened Machines
  import opened Values
  import opened Memories

  /** The values lexed, the lookahead's included, and the results of the calls made are, each exactly once:
      an argument of a call, the accepted value, handed to the destructor of its token, held without a
      destructor, or the lookahead. */
  ghost predicate Conserved(g: Grammar, user: UserCode, zero: Value, input: seq<Lexeme>, o: Outcome, d: Memory)
    requires !o.Stuck? && o.c.pos < |input|
  {
    var la := input[o.c.pos];
    var used := Arguments(d.calls);
    var made := LexedValues(input[..o.c.pos]) + Results(user.reduce, d.calls);
    match o
    case Running(c) => made + multiset{la.val} == used + multiset(Folds(user.reduce, c.forest)) + multiset{la.val}
    case Accepted(c) => d.dest < |d.valueTable| && made + multiset{la.val} == used + multiset{d.valueTable[d.dest]} + multiset{la.val}
    case SyntaxError(c) =>
      made + multiset{la.val} == used + HandedValues(ErrorHanded(g, user, zero, d, false)) + KeepAll(g, user, c.forest) + Held(user, la)
    case LexError(c) => made == used + HandedValues(ErrorHanded(g, user, zero, d, true)) + KeepAll(g, user, c.forest)
  }

  /** The lookahead, if its token has no destructor. */
  function Held(user: UserCode, la: Lexeme): multiset<Value> {
    if la.tok < 0 then multiset{la.val} else KeepOne(user, la.tok, la.val)
  }

  /** In every run that has reduced no empty rule, whatever the table's conflicts and however it ends. */
  lemma EveryValueOnce(g: Grammar, user: UserCode, zero: Value, a: Automaton, t: seq<nat>, input: seq<Lexeme>, d0: Memory, n: nat)
    requires Setting(g, a, t, input) && IsStart(d0, input[0])
    ensures var o := Run(g, t, input, n);
            && !o.Stuck? && o.c.pos < |input|
            && (NoEmptyAll(o.c.forest) ==> Conserved(g, user, zero, input, o, MemoryAt(g, user, t, input, d0, n)))
  {
    hide CoreAutomaton, TableSound, Driving, Packed, Run, MemoryAt, Conserved, IsStart, Inv, NoEmptyAll;
    SameSize(g, a);
    RunSafe(g, a, t, input, n);
    MemoryDrives(g, user, a, t, input, d0, n);
    var o, d := Run(g, t, input, n), MemoryAt(g, user, t, input, d0, n);
    if NoEmptyAll(o.c.forest) {
      RunOutcome(g, a, t, input, n);
      OutcomeConserved(g, user, zero, a, t, input, o, d);
    }
  }

  lemma InvYields(g: Grammar, a: Automaton, input: seq<Lexeme>, c: Config)
    requires |a.trans| == |a.states| && Inv(g, a, input, c)
    ensures c.pos < |input| && Yields(c.forest) == input[..c.pos] && ValidForest(g, c.forest)
  {
  }

  lemma DrivingCalls(g: Grammar, user: UserCode, d: Memory, c: Config, la: Lexeme)
    requires Driving(g, user, d, c, la) && NoEmptyAll(c.forest)
    ensures Packed(g, user, d, c.forest, la) && LastDest(c.forest, d.dest) && d.calls == CallsAll(user.reduce, c.forest)
    ensures |d.tokenTable| == |d.valueTable|
  {
  }

  /** An accepted configuration is one tree, and a run stops on a lexing error at a negative token. */
  ghost predicate Ended(o: Outcome, input: seq<Lexeme>)
    requires !o.Stuck? && o.c.pos < |input|
  {
    && (o.Accepted? ==> |o.c.forest| == 1)
    && (o.LexError? ==> input[o.c.pos].tok < 0)
    && (o.SyntaxError? ==> input[o.c.pos].tok >= 0)
  }

  lemma StepEnded(g: Grammar, a: Automaton, t: seq<nat>, input: seq<Lexeme>, c: Config)
    requires Setting(g, a, t, input) && |a.trans| == |a.states| && Inv(g, a, input, c)
    ensures var o := Step(g, t, input, c); !o.Stuck? && o.c.pos < |input| && Ended(o, input)
  {
    hide CoreAutomaton, TableSound, Cell, Reduced;
    StepKeeps(g, a, t, input, c);
    InvShape(g, a, input, c);
    if Step(g, t, input, c).Accepted? {
      AcceptedPath(g, a, t, input, c);
    }
    match Cell(g, t, c.states[|c.states| - 1], if input[c.pos].tok < 0 then 0 else input[c.pos].tok)
    case Reduce(r) => ReducedOutcome(g, t, c, r);
    case _ =>
  }

  lemma AcceptedPath(g: Grammar, a: Automaton, t: seq<nat>, input: seq<Lexeme>, c: Config)
    requires Setting(g, a, t, input) && |a.trans| == |a.states| && Inv(g, a, input, c) && Step(g, t, input, c).Accepted?
    ensures |c.forest| == 1
  {
    hide CoreAutomaton, TableSound, Reduced;
    StepKeeps(g, a, t, input, c);
    AcceptPath(g, a, c.states, Roots(g, c.forest));
    assert |c.forest| == |Roots(g, c.forest)|;
  }

  lemma {:induction false} RunOutcome(g: Grammar, a: Automaton, t: seq<nat>, input: seq<Lexeme>, n: nat)
    requires Setting(g, a, t, input)
    ensures var o := Run(g, t, input, n); !o.Stuck? && o.c.pos < |input| && Ended(o, input)
    decreases n
  {
    hide CoreAutomaton, TableSound, Step, Inv;
    SameSize(g, a);
    RunSafe(g, a, t, input, n);
    if n > 0 {
      RunOutcome(g, a, t, input, n - 1);
      RunSafe(g, a, t, input, n - 1);
      RunOneMore(g, t, input, n - 1);
      var o := Run(g, t, input, n - 1);
      if o.Running? {
        StepEnded(g, a, t, input, o.c);
      }
    }
  }

  lemma OutcomeConserved(g: Grammar, user: UserCode, zero: Value, a: Automaton, t: seq<nat>, input: seq<Lexeme>, o: Outcome, d: Memory)
    requires Setting(g, a, t, input) && |a.trans| == |a.states| && Good(g, a, input, o) && o.c.pos < |input| && Ended(o, input)
    requires NoEmptyAll(o.c.forest) && Driving(g, user, d, o.c, input[o.c.pos])
    ensures Conserved(g, user, zero, input, o, d)
  {
    hide CoreAutomaton, TableSound, Driving, Packed, NoEmptyAll, Inv, Results, Arguments, LexedValues, CallsAll, Fold, ErrorHanded, HandedOnError,
      HandedValues, KeepAll, Held;
    var c, la := o.c, input[o.c.pos];
    InvYields(g, a, input, c);
    InputAt(g, input, c.pos);
    DrivingCalls(g, user, d, c, la);
    ForestConserves(user.reduce, c.forest);
    match o
    case Running(_) =>
    case Accepted(_) => AcceptedValue(g, user, d, c.forest, la);
    case SyntaxError(_) =>
      PackedDestroyed(g, user, zero, d, c.forest, la, false);
      ErrorValues(g, user, c.forest, la, false);
      ErrorBalance(LexedValues(input[..c.pos]), Results(user.reduce, d.calls), Arguments(d.calls), multiset(Folds(user.reduce, c.forest)),
                   HandedValues(ErrorHanded(g, user, zero, d, false)), KeepAll(g, user, c.forest), Held(user, la), multiset{la.val});
    case LexError(_) =>
      PackedDestroyed(g, user, zero, d, c.forest, la, true);
      ErrorValues(g, user, c.forest, la, true);
      ErrorBalance(LexedValues(input[..c.pos]), Results(user.reduce, d.calls), Arguments(d.calls), multiset(Folds(user.reduce, c.forest)),
                   HandedValues(ErrorHanded(g, user, zero, d, true)), KeepAll(g, user, c.forest), multiset{}, multiset{});
      PlusNone(LexedValues(input[..c.pos]) + Results(user.reduce, d.calls));
      PlusNone(Arguments(d.calls) + HandedValues(ErrorHanded(g, user, zero, d, true)) + KeepAll(g, user, c.forest));
  }

  lemma PlusNone(m: multiset<Value>)
    ensures m + multiset{} == m
  {
  }

  lemma ErrorBalance(lexed: multiset<Value>, results: multiset<Value>, used: multiset<Value>, folds: multiset<Value>,
                     handed: multiset<Value>, kept: multiset<Value>, held: multiset<Value>, la: multiset<Value>)
    requires lexed + results == used + folds && handed + kept + held == folds + la
    ensures lexed + results + la == used + handed + kept + held
  {
    assert used + handed + kept + held == used + (handed + kept + held);
    assert used + folds + la == used + (folds + la);
  }

  lemma AcceptedValue(g: Grammar, user: UserCode, d: Memory, forest: seq<Tree>, la: Lexeme)
    requires Packed(g, user, d, forest, la) && LastDest(forest, d.dest) && |forest| == 1
    ensures d.dest == 0 < |d.valueTable| && d.valueTable[0] == Fold(user.reduce, forest[0])
    ensures multiset(Folds(user.reduce, forest)) == multiset{Fold(user.reduce, forest[0])}
  {
    hide Fold;
    assert SlotHolds(g, user, d, forest, 0);
    assert Folds(user.reduce, forest) == [Fold(user.reduce, forest[0])];
  }

  lemma ErrorValues(g: Grammar, user: UserCode, forest: seq<Tree>, la: Lexeme, lexing: bool)
    requires lexing || la.tok >= 0
    ensures HandedValues(HandedOnError(g, user, forest, la, lexing)) + KeepAll(g, user, forest) + (if lexing then multiset{} else Held(user, la))
         == multiset(Folds(user.reduce, forest)) + if lexing then multiset{} else multiset{la.val}
  {
    hide HandedValues, KeepAll, KeepOne, HandOne, HandAll;
    HandOrKeep(g, user, forest);
    if lexing {
      assert [] + HandAll(g, user, forest) == HandAll(g, user, forest);
    } else {
      HandOneOrKeep(user, la.tok, la.val);
      HandedAppend(HandOne(user, la.tok, la.val), HandAll(g, user, forest));
    }
  }
}
