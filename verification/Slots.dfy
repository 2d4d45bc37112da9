/** Exactly when the slots keep the driver's promises: an empty reduction breaks the packing, and the
    driver's assertion on the lookahead's slot has its own exact condition (src/lr.c 266-292). */
module Slots {
  import opened Grammars
  import opened Automata
  import opened Tables
  import opened Machines
  import opened Values
  import opened Memories

  // ------------------------------------------------ packed exactly without empty reductions

  ghost predicate PackedAt(g: Grammar, user: UserCode, t: seq<nat>, input: seq<Lexeme>, d0: Memory, k: nat) {
    var o := Run(g, t, input, k);
    !o.Stuck? && o.c.pos < |input| && Packed(g, user, MemoryAt(g, user, t, input, d0, k), o.c.forest, input[o.c.pos])
  }

  /** The rule of the turn's reduction is empty. */
  predicate ReducesEmpty(g: Grammar, t: seq<nat>, input: seq<Lexeme>, c: Config) {
    && c.pos < |input| && input[c.pos].tok >= 0 && c.states != []
    && var act := Cell(g, t, c.states[|c.states| - 1], input[c.pos].tok);
       act.Reduce? && act.rule < |g.rules| && g.rules[act.rule].rhs == []
  }

  lemma StepNoEmpty(g: Grammar, t: seq<nat>, input: seq<Lexeme>, c: Config)
    requires Step(g, t, input, c).Running?
    ensures NoEmptyAll(Step(g, t, input, c).c.forest) <==> NoEmptyAll(c.forest) && !ReducesEmpty(g, t, input, c)
  {
    hide NoEmptyAll, Cell, Goto;
    match Cell(g, t, c.states[|c.states| - 1], input[c.pos].tok)
    case Shift(_) =>
      NoEmptyPush(c.forest, Leaf(input[c.pos].tok, input[c.pos].val));
    case Reduce(r) =>
      NoEmptyReduce(c.forest, |c.forest| - |g.rules[r].rhs|, r);
  }

  /** From a packed memory, an empty reduction either reuses a slot that is not the next one, or takes
      the lookahead's. */
  lemma EmptyUnpacks(g: Grammar, user: UserCode, t: seq<nat>, d: Memory, forest: seq<Tree>, la: Lexeme, r: nat)
    requires Packed(g, user, d, forest, la) && CanReduce(g, d, r) && g.rules[r].rhs == []
    ensures !Packed(g, user, Moved(Result(g, user, t, d, r)), forest + [Node(r, [])], la)
  {
    hide Goto, Moved;
    var d1 := Result(g, user, t, d, r);
    MovedSlots(d1);
    assert d1.stack[2 * |forest| + 1] == d.dest;
  }

  lemma EmptyTurnUnpacks(g: Grammar, user: UserCode, a: Automaton, t: seq<nat>, input: seq<Lexeme>, c: Config, d: Memory)
    requires Setting(g, a, t, input) && |a.trans| == |a.states| && Inv(g, a, input, c) && Driving(g, user, d, c, input[c.pos])
    requires Packed(g, user, d, c.forest, input[c.pos]) && ReducesEmpty(g, t, input, c)
    ensures Step(g, t, input, c).Running? && Step(g, t, input, c).c.pos == c.pos
    ensures !Packed(g, user, Turn(g, user, t, input, Running(c), d), Step(g, t, input, c).c.forest, input[c.pos])
  {
    hide CoreAutomaton, TableSound, Driving, Packed, Cell, Moved, Result, CanReduce, Goto;
    InvShape(g, a, input, c);
    var r := Cell(g, t, c.states[|c.states| - 1], input[c.pos].tok).rule;
    DrivingCanReduce(g, user, d, c, input[c.pos], r);
    EmptyUnpacks(g, user, t, d, c.forest, input[c.pos], r);
    assert c.forest[..|c.forest|] == c.forest && c.forest[|c.forest|..] == [];
  }

  lemma DrivingPacked(g: Grammar, user: UserCode, d: Memory, c: Config, la: Lexeme)
    requires Driving(g, user, d, c, la) && NoEmptyAll(c.forest)
    ensures Packed(g, user, d, c.forest, la)
  {
  }

  ghost predicate AllPacked(g: Grammar, user: UserCode, t: seq<nat>, input: seq<Lexeme>, d0: Memory, n: nat) {
    forall k: nat | k <= n :: PackedAt(g, user, t, input, d0, k)
  }

  lemma AllPackedNext(g: Grammar, user: UserCode, t: seq<nat>, input: seq<Lexeme>, d0: Memory, n: nat)
    ensures AllPacked(g, user, t, input, d0, n + 1) <==> AllPacked(g, user, t, input, d0, n) && PackedAt(g, user, t, input, d0, n + 1)
  {
    hide PackedAt;
  }

  /** In every run of every generated table: the slots of every configuration so far are 0..d-1 with the
      lookahead in slot d, each holding its token and the fold of its tree, exactly when no empty rule
      has been reduced. */
  lemma {:induction false} PackedExactly(g: Grammar, user: UserCode, a: Automaton, t: seq<nat>, input: seq<Lexeme>, d0: Memory, n: nat)
    requires Setting(g, a, t, input) && IsStart(d0, input[0])
    ensures !Run(g, t, input, n).Stuck?
    ensures AllPacked(g, user, t, input, d0, n) <==> NoEmptyAll(Run(g, t, input, n).c.forest)
    decreases n
  {
    hide CoreAutomaton, TableSound, Driving, Packed, Step, Turn, IsStart, ReducesEmpty, Inv, NoEmptyAll, Run;
    MemoryDrives(g, user, a, t, input, d0, n);
    var o, d := Run(g, t, input, n), MemoryAt(g, user, t, input, d0, n);
    if NoEmptyAll(o.c.forest) {
      DrivingPacked(g, user, d, o.c, input[o.c.pos]);
    }
    if n == 0 {
      RunNone(g, t, input);
    } else {
      PackedExactly(g, user, a, t, input, d0, n - 1);
      AllPackedNext(g, user, t, input, d0, n - 1);
      RunOneMore(g, t, input, n - 1);
      RunSafe(g, a, t, input, n - 1);
      SameSize(g, a);
      var o0 := Run(g, t, input, n - 1);
      assert AllPacked(g, user, t, input, d0, n - 1) ==> PackedAt(g, user, t, input, d0, n - 1);
      if o0.Running? {
        PackedTurn(g, user, a, t, input, d0, n - 1);
      }
    }
  }

  lemma RunNone(g: Grammar, t: seq<nat>, input: seq<Lexeme>)
    ensures Run(g, t, input, 0) == Running(Start()) && NoEmptyAll(Start().forest)
  {
  }

  lemma PackedTurn(g: Grammar, user: UserCode, a: Automaton, t: seq<nat>, input: seq<Lexeme>, d0: Memory, n: nat)
    requires Setting(g, a, t, input) && IsStart(d0, input[0]) && Run(g, t, input, n).Running?
    ensures !Run(g, t, input, n + 1).Stuck?
    ensures NoEmptyAll(Run(g, t, input, n + 1).c.forest) ==> NoEmptyAll(Run(g, t, input, n).c.forest)
    ensures NoEmptyAll(Run(g, t, input, n).c.forest) && PackedAt(g, user, t, input, d0, n) && PackedAt(g, user, t, input, d0, n + 1) ==>
              NoEmptyAll(Run(g, t, input, n + 1).c.forest)
  {
    hide CoreAutomaton, TableSound, Driving, Packed, Step, Turn, IsStart, ReducesEmpty, Inv, NoEmptyAll, Run;
    var c, d := Run(g, t, input, n).c, MemoryAt(g, user, t, input, d0, n);
    SameSize(g, a);
    RunSafe(g, a, t, input, n);
    MemoryDrives(g, user, a, t, input, d0, n);
    MemoryDrives(g, user, a, t, input, d0, n + 1);
    RunOneMore(g, t, input, n);
    StepShape(g, t, input, c);
    if Step(g, t, input, c).Running? {
      StepNoEmpty(g, t, input, c);
      if ReducesEmpty(g, t, input, c) && PackedAt(g, user, t, input, d0, n) {
        EmptyTurnUnpacks(g, user, a, t, input, c, d);
      }
    }
  }

  /** A turn that ends the run leaves its configuration. */
  lemma StepShape(g: Grammar, t: seq<nat>, input: seq<Lexeme>, c: Config)
    ensures var o := Step(g, t, input, c); o.Running? || o.Stuck? || o.c == c
  {
    hide Cell, Goto;
  }

  // ------------------------------------------------ the assertion on the lookahead's slot

  /** The turn reduces by rule r and then moves the lookahead, because its slot is not the result's. */
  predicate MovesLookahead(g: Grammar, t: seq<nat>, input: seq<Lexeme>, o: Outcome, d: Memory) {
    && o.Running? && o.c.pos < |input| && input[o.c.pos].tok >= 0 && o.c.states != []
    && var act := Cell(g, t, o.c.states[|o.c.states| - 1], input[o.c.pos].tok);
       && act.Reduce?
       && CanReduce(g, d, act.rule)
       && FirstSlot(d.stack, |g.rules[act.rule].rhs|, d.dest) != d.i
  }

  /** What the driver asserts before it moves the lookahead: its slot holds its token. */
  ghost predicate AssertionHolds(g: Grammar, user: UserCode, t: seq<nat>, input: seq<Lexeme>, d0: Memory, k: nat) {
    var o, d := Run(g, t, input, k), MemoryAt(g, user, t, input, d0, k);
    MovesLookahead(g, t, input, o, d) ==> d.i < |d.tokenTable| && d.tokenTable[d.i] == input[o.c.pos].tok
  }

  /** The last result is not in the lookahead's slot. */
  ghost predicate SlotsDiffer(g: Grammar, user: UserCode, t: seq<nat>, input: seq<Lexeme>, d0: Memory, k: nat) {
    var o, d := Run(g, t, input, k), MemoryAt(g, user, t, input, d0, k);
    MovesLookahead(g, t, input, o, d) ==> d.i != d.dest
  }

  /** While the assertion has held: the lookahead's slot holds its token unless a result was put there. */
  ghost predicate Tracked(d: Memory, tok: int) {
    && d.dest <= d.i < |d.tokenTable|
    && (d.tokenTable[d.i] == tok <==> d.i != d.dest || d.calls == [])
    && (d.calls == [] && d.i == d.dest ==> |d.stack| == 1)
  }

  lemma ShiftTracks(d: Memory, tok: int, s: nat, lexeme: Lexeme)
    requires Tracked(d, tok) && |d.tokenTable| == |d.valueTable|
    ensures Tracked(Shifted(d, s, lexeme), lexeme.tok)
  {
    hide Put;
    PutSlots(d.(stack := d.stack + [d.i, s], i := d.i + 1), d.i + 1, lexeme.tok, lexeme.val);
  }

  lemma ReduceTracks(g: Grammar, user: UserCode, t: seq<nat>, d: Memory, tok: int, r: nat)
    requires g.WellFormed() && g.IsRule(r) && tok < g.actionN
    requires Tracked(d, tok) && CanReduce(g, d, r)
    requires FirstSlot(d.stack, |g.rules[r].rhs|, d.dest) != d.i ==> d.tokenTable[d.i] == tok
    ensures Tracked(Moved(Result(g, user, t, d, r)), tok)
  {
    hide Popped, Goto, Moved, FirstSlot;
    var d1 := Result(g, user, t, d, r);
    MovedSlots(d1);
    assert g.rules[r].lhs >= g.actionN;
  }

  /** At a turn that moves the lookahead, the guard and the assertion say the same. */
  lemma GuardIsAssertion(g: Grammar, t: seq<nat>, input: seq<Lexeme>, o: Outcome, d: Memory)
    requires MovesLookahead(g, t, input, o, d) && Tracked(d, input[o.c.pos].tok)
    ensures d.tokenTable[d.i] == input[o.c.pos].tok <==> d.i != d.dest
  {
    hide Cell;
  }

  lemma TurnTracks(g: Grammar, user: UserCode, a: Automaton, t: seq<nat>, input: seq<Lexeme>, o: Outcome, d: Memory)
    requires Setting(g, a, t, input) && |a.trans| == |a.states| && Good(g, a, input, o) && Driving(g, user, d, o.c, input[o.c.pos])
    requires Tracked(d, input[o.c.pos].tok)
    requires MovesLookahead(g, t, input, o, d) ==> d.i < |d.tokenTable| && d.tokenTable[d.i] == input[o.c.pos].tok
    ensures var o' := if o.Running? then Step(g, t, input, o.c) else o;
            !o'.Stuck? && o'.c.pos < |input| && Tracked(Turn(g, user, t, input, o, d), input[o'.c.pos].tok)
  {
    hide CoreAutomaton, TableSound, Tracked, Cell, Reduced, Shifted, Moved, Result, CanReduce, FirstSlot, Interleaved, NoEmptyAll, InOrder;
    if o.Running? {
      var c, la := o.c, input[o.c.pos];
      StepKeeps(g, a, t, input, c);
      InputAt(g, input, c.pos);
      InvShape(g, a, input, c);
      if la.tok >= 0 {
        match Cell(g, t, c.states[|c.forest|], la.tok)
        case Shift(s) =>
          InvShape(g, a, input, Step(g, t, input, c).c);
          ShiftTracks(d, la.tok, s, input[c.pos + 1]);
        case Reduce(r) =>
          CellReduce(g, a, t, input, c.states[|c.forest|], la.tok, r);
          ReduceHandle(g, a, t, input, c, r);
          ReducedRuns(g, t, c, r);
          DrivingCanReduce(g, user, d, c, la, r);
          ReduceTracks(g, user, t, d, la.tok, r);
        case _ =>
      }
    }
  }

  ghost predicate AllAsserted(g: Grammar, user: UserCode, t: seq<nat>, input: seq<Lexeme>, d0: Memory, n: nat) {
    forall k: nat | k < n :: AssertionHolds(g, user, t, input, d0, k)
  }

  ghost predicate AllDiffer(g: Grammar, user: UserCode, t: seq<nat>, input: seq<Lexeme>, d0: Memory, n: nat) {
    forall k: nat | k < n :: SlotsDiffer(g, user, t, input, d0, k)
  }

  lemma {:induction false} RunTracks(g: Grammar, user: UserCode, a: Automaton, t: seq<nat>, input: seq<Lexeme>, d0: Memory, n: nat)
    requires Setting(g, a, t, input) && IsStart(d0, input[0]) && AllAsserted(g, user, t, input, d0, n)
    ensures var o := Run(g, t, input, n);
            !o.Stuck? && o.c.pos < |input| && Tracked(MemoryAt(g, user, t, input, d0, n), input[o.c.pos].tok)
    decreases n
  {
    hide CoreAutomaton, TableSound, Driving, Step, Turn, Inv, MovesLookahead;
    SameSize(g, a);
    if n > 0 {
      RunTracks(g, user, a, t, input, d0, n - 1);
      RunSafe(g, a, t, input, n - 1);
      MemoryDrives(g, user, a, t, input, d0, n - 1);
      assert AssertionHolds(g, user, t, input, d0, n - 1);
      TurnTracks(g, user, a, t, input, Run(g, t, input, n - 1), MemoryAt(g, user, t, input, d0, n - 1));
      RunOneMore(g, t, input, n - 1);
    }
  }

  /** The driver's assertion never fails in the first n turns exactly when no turn moves the lookahead
      out of the slot of the last result. */
  lemma {:induction false} AssertedExactly(g: Grammar, user: UserCode, a: Automaton, t: seq<nat>, input: seq<Lexeme>, d0: Memory, n: nat)
    requires Setting(g, a, t, input) && IsStart(d0, input[0])
    ensures AllAsserted(g, user, t, input, d0, n) <==> AllDiffer(g, user, t, input, d0, n)
    decreases n
  {
    hide Setting, IsStart, Tracked, MovesLookahead, Run, MemoryAt;
    if n > 0 {
      AssertedExactly(g, user, a, t, input, d0, n - 1);
      var k := n - 1;
      if AllAsserted(g, user, t, input, d0, k) {
        RunTracks(g, user, a, t, input, d0, k);
        AssertedTurn(g, user, t, input, d0, k);
      }
      assert AllAsserted(g, user, t, input, d0, n) <==> AllAsserted(g, user, t, input, d0, k) && AssertionHolds(g, user, t, input, d0, k);
      assert AllDiffer(g, user, t, input, d0, n) <==> AllDiffer(g, user, t, input, d0, k) && SlotsDiffer(g, user, t, input, d0, k);
    }
  }

  lemma AssertedTurn(g: Grammar, user: UserCode, t: seq<nat>, input: seq<Lexeme>, d0: Memory, k: nat)
    requires var o := Run(g, t, input, k);
             !o.Stuck? && o.c.pos < |input| && Tracked(MemoryAt(g, user, t, input, d0, k), input[o.c.pos].tok)
    ensures AssertionHolds(g, user, t, input, d0, k) <==> SlotsDiffer(g, user, t, input, d0, k)
  {
    hide Run, MemoryAt, MovesLookahead;
    var o, d := Run(g, t, input, k), MemoryAt(g, user, t, input, d0, k);
    if MovesLookahead(g, t, input, o, d) {
      GuardIsAssertion(g, t, input, o, d);
    }
  }

  /** Without empty reductions it never fails. */
  lemma NoEmptyAsserted(g: Grammar, user: UserCode, a: Automaton, t: seq<nat>, input: seq<Lexeme>, d0: Memory, n: nat)
    requires Setting(g, a, t, input) && IsStart(d0, input[0])
    ensures !Run(g, t, input, n).Stuck?
    ensures NoEmptyAll(Run(g, t, input, n).c.forest) ==> AllAsserted(g, user, t, input, d0, n)
  {
    hide Setting, IsStart, MovesLookahead, Run, MemoryAt;
    PackedExactly(g, user, a, t, input, d0, n);
    forall k: nat | k < n && NoEmptyAll(Run(g, t, input, n).c.forest)
      ensures AssertionHolds(g, user, t, input, d0, k)
    {
      assert PackedAt(g, user, t, input, d0, k);
    }
  }
}
