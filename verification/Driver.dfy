/** The LR driver as it runs: an interleaved stack of slots and states over a token table and a
    value table (src/lr.c). Its memory is, after every turn, what module Memories says. */
module Drivers {
  import opened Grammars
  import opened Automata
  import opened Tables
  import opened Machines
  import opened Values
  import opened Memories
  import opened Handings
  import opened Conservation

  datatype ParseResult = Index(slot: nat) | Failed | OutOfSteps

  class Driver {
    const g: Grammar
    const user: UserCode
    const table: seq<nat>
    /** What a destroyed value is overwritten with. */
    const zero: Value

    var stack: seq<nat>
    var tokenTable: seq<int>
    var valueTable: seq<Value>
    /** The calls made to the user's reduction code and destructors. */
    var calls: seq<Call>
    var handed: seq<Handed>

    constructor (g: Grammar, user: UserCode, table: seq<nat>, zero: Value)
      ensures this.g == g && this.user == user && this.table == table && this.zero == zero
      ensures stack == [] && tokenTable == [] && valueTable == [] && calls == [] && handed == []
    {
      this.g, this.user, this.table, this.zero := g, user, table, zero;
      stack, tokenTable, valueTable, calls, handed := [], [], [], [], [];
    }

    ghost function Now(i: nat, dest: nat): Memory
      reads this
    {
      Memory(stack, tokenTable, valueTable, i, dest, calls)
    }

    method PutSlot(k: nat, tok: int, val: Value, ghost i: nat, ghost dest: nat)
      requires |tokenTable| == |valueTable| && k <= |tokenTable|
      modifies `tokenTable, `valueTable
      ensures Now(i, dest) == Put(old(Now(i, dest)), k, tok, val)
    {
      if k == |tokenTable| {
        tokenTable, valueTable := tokenTable + [tok], valueTable + [val];
      } else {
        tokenTable, valueTable := tokenTable[k := tok], valueTable[k := val];
      }
    }

    /** Pop a state and the slot below it. */
    method PopSlot() returns (slot: nat)
      requires |stack| >= 2
      modifies `stack
      ensures stack == old(stack)[..|old(stack)| - 2] && slot == old(stack)[|old(stack)| - 2]
    {
      stack := stack[..|stack| - 1];
      slot := stack[|stack| - 1];
      stack := stack[..|stack| - 1];
    }

    /** Pop the arguments of a rule; the slot of the first one, or of the previous reduction for an
        empty rule, receives the result. */
    method PopArguments(n: nat, ghost i: nat, dest: nat) returns (args: seq<Value>, slot: nat)
      requires |stack| > 2 * n && |stack| % 2 == 1 && SlotsInUse(Now(i, dest))
      modifies `stack
      ensures stack == old(stack)[..|old(stack)| - 2 * n]
      ensures slot == FirstSlot(old(stack), n, dest) && args == Popped(valueTable, old(stack), n)
    {
      args, slot := [], dest;
      for j := 0 to n
        invariant stack == old(stack)[..|old(stack)| - 2 * j]
        invariant slot == FirstSlot(old(stack), j, dest) && args == Popped(valueTable, old(stack), j)
      {
        SlotPosition(old(stack), j, |valueTable|);
        slot := PopSlot();
        args := [valueTable[slot]] + args;
      }
    }

    /** Reduce by a rule: pop, run the reduction code, store the result and go to the next state. */
    method Reduce(rule: nat, ghost i: nat, dest: nat) returns (next: nat, slot: nat)
      requires |stack| % 2 == 1 && SlotsInUse(Now(i, dest)) && CanReduce(g, Now(i, dest), rule)
      requires var low := stack[|stack| - 2 * |g.rules[rule].rhs| - 1];
               g.rules[rule].lhs < g.tokenN && Offset(g, low, g.rules[rule].lhs) < |table|
      modifies this
      ensures Now(i, slot) == Result(g, user, table, old(Now(i, dest)), rule)
      ensures next == stack[|stack| - 1] && |stack| > 0 && handed == old(handed)
    {
      hide Popped, Payload;
      var args;
      args, slot := PopArguments(|g.rules[rule].rhs|, i, dest);
      calls := calls + [Call(rule, args)];
      valueTable := valueTable[slot := user.reduce(rule, args)];
      tokenTable := tokenTable[slot := g.rules[rule].lhs];
      next := Payload(table[Offset(g, stack[|stack| - 1], g.rules[rule].lhs)]);
      stack := stack + [slot, next];
    }

    /** Reduce, then move the lookahead to the slot in front of the result. */
    method ReduceAndMove(rule: nat, i: nat, dest: nat) returns (next: nat, i': nat, dest': nat)
      requires |stack| % 2 == 1 && SlotsInUse(Now(i, dest)) && CanReduce(g, Now(i, dest), rule)
      requires var low := stack[|stack| - 2 * |g.rules[rule].rhs| - 1];
               g.rules[rule].lhs < g.tokenN && Offset(g, low, g.rules[rule].lhs) < |table|
      modifies this
      ensures Now(i', dest') == Moved(Result(g, user, table, old(Now(i, dest)), rule))
      ensures next == stack[|stack| - 1] && |stack| > 0 && handed == old(handed)
    {
      hide Put, Popped, Goto, FirstSlot;
      next, dest' := Reduce(rule, i, dest);
      i' := i;
      if i != dest' {
        PutSlot(dest' + 1, tokenTable[i], valueTable[i], i, dest');
        i' := dest' + 1;
      }
    }

    /** Push state 0 and read the first lexeme into slot 0. */
    method Begin(lexeme: Lexeme)
      requires stack == [] && calls == [] && handed == [] && |tokenTable| == |valueTable|
      modifies this
      ensures IsStart(Now(0, 0), lexeme) && handed == []
    {
      stack := [0];
      PutSlot(0, lexeme.tok, lexeme.val, 0, 0);
    }

    /** Push the lookahead's slot and the next state, and read the next lexeme behind it. */
    method Shift(s: nat, i: nat, ghost dest: nat, lexeme: Lexeme)
      requires |tokenTable| == |valueTable| && i < |tokenTable|
      modifies this
      ensures Now(i + 1, dest) == Shifted(old(Now(i, dest)), s, lexeme) && handed == old(handed)
      ensures stack == old(stack) + [i, s]
    {
      hide Put;
      stack := stack + [i, s];
      PutSlot(i + 1, lexeme.tok, lexeme.val, i + 1, dest);
    }

    /** Hand the value in a slot to the destructor of its token, if it has one. */
    method RunDestructor(slot: nat)
      requires slot < |tokenTable| == |valueTable|
      modifies `valueTable, `handed
      ensures handed == old(handed) + HandSlot(g, user, tokenTable, old(valueTable), slot)
      ensures valueTable == Overwritten(g, user, zero, tokenTable, old(valueTable), slot)
      ensures if tokenTable[slot] in Destroyable(g, user)
              then tokenTable[slot] >= 0 && handed == old(handed) + [Handed(tokenTable[slot], old(valueTable[slot]))] && valueTable[slot] == zero
              else handed == old(handed) && valueTable == old(valueTable)
    {
      var tok := tokenTable[slot];
      if 0 <= tok < g.tokenN && tok in user.destructors {
        handed := handed + [Handed(tok, valueTable[slot])];
        valueTable := valueTable[slot := zero];
      }
    }

    /** On an error: hand over the lookahead unless it is a lexing error, then all stacked values. */
    method RunDestructors(invalid: int, ghost i: nat, ghost dest: nat)
      requires |stack| % 2 == 1 && SlotsInUse(Now(i, dest)) && (invalid < 0 || invalid == i)
      modifies `stack, `valueTable, `handed
      ensures stack == old(stack)[..1]
      ensures handed == old(handed) + ErrorHanded(g, user, zero, old(Now(i, dest)), invalid < 0)
      ensures old(handed) <= handed
      ensures Picks(Destroyable(g, user), Found(old(tokenTable), old(valueTable), zero, [], ExitSlots(old(Now(i, dest)), invalid < 0)),
                    handed[|old(handed)|..])
    {
      hide HandSlot, Overwritten, Destroyed, Picks, Found, ExitSlots, Destroyable;
      ErrorHandsOver(g, user, zero, Now(i, dest), invalid < 0);
      if invalid >= 0 {
        RunDestructor(invalid);
      }
      ghost var values, handed0 := valueTable, handed;
      ghost var done: seq<Handed> := [];
      while |stack| > 1
        invariant |stack| % 2 == 1 && SlotsInUse(Now(i, dest)) && stack[..1] == old(stack)[..1]
        invariant handed == handed0 + done
        invariant Destroyed(g, user, zero, tokenTable, values, old(stack)) == done + Destroyed(g, user, zero, tokenTable, valueTable, stack)
        decreases |stack|
      {
        ghost var stack1, values1 := stack, valueTable;
        SlotTop(stack, |tokenTable|);
        var slot := PopSlot();
        DestroyedTop(g, user, zero, tokenTable, values1, stack1, slot, stack);
        RunDestructor(slot);
        HandAssoc(done, HandSlot(g, user, tokenTable, values1, slot), Destroyed(g, user, zero, tokenTable, valueTable, stack));
        HandAssoc(handed0, done, HandSlot(g, user, tokenTable, values1, slot));
        done := done + HandSlot(g, user, tokenTable, values1, slot);
      }
      assert stack == old(stack)[..1];
      NothingLeft(g, user, zero, tokenTable, valueTable, stack, done);
      if invalid >= 0 {
        HandAssoc(old(handed), HandSlot(g, user, tokenTable, old(valueTable), invalid), done);
      }
      assert handed[|old(handed)|..] == ErrorHanded(g, user, zero, old(Now(i, dest)), invalid < 0);
    }

    /** The result of a run that ends in outcome o with memory d, and what it leaves behind. */
    ghost predicate Left(result: ParseResult, o: Outcome, d: Memory)
      reads this
    {
      && calls == d.calls
      && (o.Running? || o.Accepted? ==> handed == [] && Now(d.i, d.dest) == d)
      && (o.Running? <==> result == OutOfSteps)
      && (o.Accepted? <==> result.Index?)
      && (o.Accepted? ==> result == Index(d.dest))
      && (o.SyntaxError? || o.LexError? ==>
            result == Failed && 0 < |d.stack| && stack == d.stack[..1] && handed == ErrorHanded(g, user, zero, d, o.LexError?))
    }

    /** The whole loop, for at most fuel turns, from tables of any size. The run is that of the abstract
        machine and the memory is that of the run, empty rules included; an error exit hands over what the
        slots then hold. Runs that reduce no empty rule keep their slots packed, return slot 0 with the
        value of the whole tree or hand every value still held to the destructor of its own token, and use
        every value once. */
    method Parse(input: seq<Lexeme>, fuel: nat, ghost a: Automaton) returns (result: ParseResult, ghost o: Outcome, ghost d: Memory)
      requires Setting(g, a, table, input)
      requires stack == [] && calls == [] && handed == [] && |tokenTable| == |valueTable|
      modifies this
      ensures o == Run(g, table, input, fuel) && IsMemoryOf(g, user, table, input, fuel, d)
      ensures Left(result, o, d)
      ensures !o.Stuck? && o.c.pos < |input|
      ensures RulesOf(calls) == Postorders(o.c.forest)
      ensures NoEmptyAll(o.c.forest) ==> InRunOrder(g, user, zero, input, o, d)
      ensures o.SyntaxError? || o.LexError? ==>
                && Picks(Destroyable(g, user), Found(d.tokenTable, d.valueTable, zero, [], ExitSlots(d, o.LexError?)), handed)
                && (NoEmptyAll(o.c.forest) ==> Picks(Destroyable(g, user), StillHeld(g, user, o.c.forest, input[o.c.pos], o.LexError?), handed))
    {
      hide CoreAutomaton, TableSound, Inv, Driving, Cell, Steps, Turn, Reduced, Goto, Setting, Run, IsInput, Step, Has, Payload, Offset, IsStart,
        Picks, Found, ExitSlots, StillHeld, Destroyable, InRunOrder, NoEmptyAll, MemoryAt, ErrorHanded, Put, Popped, Moved, Result, CanReduce, SlotsInUse, RulesOf, Postorders;
      SettingSizes(g, a, table, input);
      Begin(input[0]);
      ghost var d0, c := Now(0, 0), Start();
      StartState(g, user, table, input, d0);
      var state, i, dest, next, steps := 0, 0, 0, 1, 0;
      var tok := input[0].tok;
      while steps < fuel
        invariant 0 <= steps <= fuel && Run(g, table, input, steps) == Running(c) && IsStart(d0, input[0])
        invariant Now(i, dest) == MemoryAt(g, user, table, input, d0, steps) && handed == []
        invariant c.pos < |input| && tok == input[c.pos].tok && next == c.pos + 1
        invariant |stack| > 0 && stack[|stack| - 1] == state
      {
        d := Now(i, dest);
        TurnReady(g, user, a, table, input, d0, steps);
        if tok < 0 {
          RunDestructors(-1, i, dest);
          result, o := Failed, LexError(c);
          EndTurn(g, user, table, input, d0, steps, fuel);
          RunFinished(g, user, zero, a, table, input, d0, fuel);
          return;
        }
        var word := table[Offset(g, state, tok)];
        CellWord(g, table, state, tok);
        if word == TOK_SYNTAX_ERROR {
          RunDestructors(i, i, dest);
          result, o := Failed, SyntaxError(c);
          EndTurn(g, user, table, input, d0, steps, fuel);
          RunFinished(g, user, zero, a, table, input, d0, fuel);
          return;
        } else if Has(word, TOK_SHIFT_MASK) {
          state := Payload(word);
          NextShift(g, user, a, table, input, d0, steps, state);
          Shift(state, i, dest, input[next]);
          i, tok, next := i + 1, input[next].tok, next + 1;
        } else if Has(word, TOK_REDUCE_MASK) {
          NextReduce(g, user, a, table, input, d0, steps, Payload(word));
          state, i, dest := ReduceAndMove(Payload(word), i, dest);
        } else if Has(word, TOK_ACCEPT_MASK) {
          result, o := Index(dest), Accepted(c);
          EndTurn(g, user, table, input, d0, steps, fuel);
          RunFinished(g, user, zero, a, table, input, d0, fuel);
          return;
        }
        c := Run(g, table, input, steps + 1).c;
        steps := steps + 1;
      }
      result, o, d := OutOfSteps, Running(c), Now(i, dest);
      RunFinished(g, user, zero, a, table, input, d0, fuel);
    }
  }

  /** The memory of a run after n turns, from tables of any size. */
  ghost predicate IsMemoryOf(g: Grammar, user: UserCode, t: seq<nat>, input: seq<Lexeme>, n: nat, d: Memory) {
    |input| > 0 && exists d0 :: IsStart(d0, input[0]) && d == MemoryAt(g, user, t, input, d0, n)
  }

  /** What a run that has reduced no empty rule keeps, to whatever exit. */
  ghost predicate InRunOrder(g: Grammar, user: UserCode, zero: Value, input: seq<Lexeme>, o: Outcome, d: Memory)
    requires !o.Stuck? && o.c.pos < |input|
  {
    && Packed(g, user, d, o.c.forest, input[o.c.pos])
    && d.calls == CallsAll(user.reduce, o.c.forest)
    && (o.Accepted? ==> |o.c.forest| == 1 && d.dest == 0 && 0 < |d.valueTable| && d.valueTable[0] == Fold(user.reduce, o.c.forest[0]))
    && (o.SyntaxError? || o.LexError? ==>
          ErrorHanded(g, user, zero, d, o.LexError?) == HandedOnError(g, user, o.c.forest, input[o.c.pos], o.LexError?))
    && Conserved(g, user, zero, input, o, d)
  }

  lemma SettingSizes(g: Grammar, a: Automaton, t: seq<nat>, input: seq<Lexeme>)
    requires Setting(g, a, t, input)
    ensures |input| > 0 && |a.trans| == |a.states| > 0 && CoreAutomaton(g, a) && IsInput(g, input) && g.WellFormed()
  {
  }

  lemma StartState(g: Grammar, user: UserCode, t: seq<nat>, input: seq<Lexeme>, d0: Memory)
    requires |input| > 0 && IsStart(d0, input[0])
    ensures Run(g, t, input, 0) == Running(Start()) && MemoryAt(g, user, t, input, d0, 0) == d0 && d0.stack == [0]
  {
  }

  lemma CellWord(g: Grammar, t: seq<nat>, s: nat, x: nat)
    requires x < g.tokenN && Offset(g, s, x) < |t|
    ensures Cell(g, t, s, x) == Decode(t[Offset(g, s, x)])
  {
  }

  /** Before a turn: the state on top of the stack is the machine's, and the cell to read is in the table. */
  lemma TurnReady(g: Grammar, user: UserCode, a: Automaton, t: seq<nat>, input: seq<Lexeme>, d0: Memory, n: nat)
    requires Setting(g, a, t, input) && IsStart(d0, input[0]) && Run(g, t, input, n).Running?
    ensures var c, d := Run(g, t, input, n).c, MemoryAt(g, user, t, input, d0, n);
            && |c.states| == |c.forest| + 1 && c.pos < |input|
            && |d.stack| % 2 == 1 && d.stack[|d.stack| - 1] == c.states[|c.forest|]
            && SlotsInUse(d) && d.i < |d.tokenTable| == |d.valueTable|
            && (input[c.pos].tok >= 0 ==>
                  && input[c.pos].tok < g.tokenN && Offset(g, c.states[|c.forest|], input[c.pos].tok) < |t|
                  && !Cell(g, t, c.states[|c.forest|], input[c.pos].tok).Garbage?)
  {
    hide CoreAutomaton, TableSound, IsStart, Inv, Run, MemoryAt, Cell;
    SettingSizes(g, a, t, input);
    RunSafe(g, a, t, input, n);
    MemoryDrives(g, user, a, t, input, d0, n);
    var c := Run(g, t, input, n).c;
    InvShape(g, a, input, c);
    InputAt(g, input, c.pos);
    if input[c.pos].tok >= 0 {
      CellInTable(g, a, t, input, c.states[|c.forest|], input[c.pos].tok);
    }
  }

  lemma EndTurn(g: Grammar, user: UserCode, t: seq<nat>, input: seq<Lexeme>, d0: Memory, n: nat, fuel: nat)
    requires Run(g, t, input, n).Running? && n < fuel
    requires var c := Run(g, t, input, n).c; |c.states| == |c.forest| + 1 && c.pos < |input|
    ensures var c, tok := Run(g, t, input, n).c, input[Run(g, t, input, n).c.pos].tok;
            var o := if tok < 0 then LexError(c)
                     else match Cell(g, t, c.states[|c.forest|], tok) case Error => SyntaxError(c) case Accept => Accepted(c) case _ => Stuck;
            o != Stuck ==> Run(g, t, input, fuel) == o && MemoryAt(g, user, t, input, d0, fuel) == MemoryAt(g, user, t, input, d0, n)
  {
    hide Cell, Reduced, Run, MemoryAt;
    RunOneMore(g, t, input, n);
    if !Run(g, t, input, n + 1).Running? {
      EndStays(g, user, t, input, d0, n + 1, fuel);
      MemoryOneMore(g, user, t, input, d0, n);
    }
  }

  lemma {:induction false} EndStays(g: Grammar, user: UserCode, t: seq<nat>, input: seq<Lexeme>, d0: Memory, n: nat, m: nat)
    requires n <= m && !Run(g, t, input, n).Running?
    ensures Run(g, t, input, m) == Run(g, t, input, n) && MemoryAt(g, user, t, input, d0, m) == MemoryAt(g, user, t, input, d0, n)
    decreases m
  {
    hide Cell, Run;
    if n < m {
      EndStays(g, user, t, input, d0, n, m - 1);
      RunOneMore(g, t, input, m - 1);
      MemoryOneMore(g, user, t, input, d0, m - 1);
    }
  }

  lemma NextShift(g: Grammar, user: UserCode, a: Automaton, t: seq<nat>, input: seq<Lexeme>, d0: Memory, n: nat, s: nat)
    requires Setting(g, a, t, input) && IsStart(d0, input[0]) && Run(g, t, input, n).Running?
    requires var c := Run(g, t, input, n).c;
             && |c.states| == |c.forest| + 1 && c.pos < |input| && input[c.pos].tok >= 0
             && Cell(g, t, c.states[|c.forest|], input[c.pos].tok) == Action.Shift(s)
    ensures var c, o := Run(g, t, input, n).c, Run(g, t, input, n + 1);
            && o.Running? && o.c.pos == c.pos + 1 < |input|
            && MemoryAt(g, user, t, input, d0, n + 1) == Shifted(MemoryAt(g, user, t, input, d0, n), s, input[c.pos + 1])
  {
    hide CoreAutomaton, TableSound, IsStart, Cell, Run, MemoryAt, Inv, Shifted;
    SettingSizes(g, a, t, input);
    RunOneMore(g, t, input, n);
    RunSafe(g, a, t, input, n + 1);
    InvShape(g, a, input, Run(g, t, input, n + 1).c);
    TurnShifts(g, user, t, input, d0, n, Run(g, t, input, n).c, s);
  }

  lemma NextReduce(g: Grammar, user: UserCode, a: Automaton, t: seq<nat>, input: seq<Lexeme>, d0: Memory, n: nat, r: nat)
    requires Setting(g, a, t, input) && IsStart(d0, input[0]) && Run(g, t, input, n).Running?
    requires var c := Run(g, t, input, n).c;
             && |c.states| == |c.forest| + 1 && c.pos < |input| && input[c.pos].tok >= 0
             && Cell(g, t, c.states[|c.forest|], input[c.pos].tok) == Action.Reduce(r)
    ensures var c, o, d := Run(g, t, input, n).c, Run(g, t, input, n + 1), MemoryAt(g, user, t, input, d0, n);
            && o.Running? && o.c.pos == c.pos
            && CanReduce(g, d, r) && MemoryAt(g, user, t, input, d0, n + 1) == Moved(Result(g, user, t, d, r))
            && g.rules[r].lhs < g.tokenN && Offset(g, d.stack[|d.stack| - 2 * |g.rules[r].rhs| - 1], g.rules[r].lhs) < |t|
  {
    hide CoreAutomaton, TableSound, IsStart, Cell, Run, MemoryAt, Inv, Moved, Result, Reduced;
    SettingSizes(g, a, t, input);
    var c, d := Run(g, t, input, n).c, MemoryAt(g, user, t, input, d0, n);
    RunSafe(g, a, t, input, n);
    MemoryDrives(g, user, a, t, input, d0, n);
    InvShape(g, a, input, c);
    InputAt(g, input, c.pos);
    CellReduce(g, a, t, input, c.states[|c.forest|], input[c.pos].tok, r);
    ReduceHandle(g, a, t, input, c, r);
    ReducedRuns(g, t, c, r);
    DrivingCanReduce(g, user, d, c, input[c.pos], r);
    StackLow(d.stack, c, |c.forest| - |g.rules[r].rhs|);
    CellInTable(g, a, t, input, c.states[|c.forest| - |g.rules[r].rhs|], g.rules[r].lhs);
    RunOneMore(g, t, input, n);
    TurnReduces(g, user, t, input, d0, n, c, r);
  }

  lemma RunFinished(g: Grammar, user: UserCode, zero: Value, a: Automaton, t: seq<nat>, input: seq<Lexeme>, d0: Memory, n: nat)
    requires Setting(g, a, t, input) && IsStart(d0, input[0])
    ensures |a.trans| == |a.states| && Good(g, a, input, Run(g, t, input, n))
    ensures var o, d := Run(g, t, input, n), MemoryAt(g, user, t, input, d0, n);
            && o.c.pos < |input| && RulesOf(d.calls) == Postorders(o.c.forest)
            && (NoEmptyAll(o.c.forest) ==> InRunOrder(g, user, zero, input, o, d))
            && Picks(Destroyable(g, user), Found(d.tokenTable, d.valueTable, zero, [], ExitSlots(d, o.LexError?)),
                     ErrorHanded(g, user, zero, d, o.LexError?))
            && (NoEmptyAll(o.c.forest) ==>
                  Picks(Destroyable(g, user), StillHeld(g, user, o.c.forest, input[o.c.pos], o.LexError?), ErrorHanded(g, user, zero, d, o.LexError?)))
  {
    hide CoreAutomaton, TableSound, IsStart, Run, MemoryAt, Inv, Packed, Conserved, HandedOnError, ErrorHanded, NoEmptyAll;
    hide Picks, Found, ExitSlots, StillHeld, Destroyable;
    SettingSizes(g, a, t, input);
    RunSafe(g, a, t, input, n);
    MemoryDrives(g, user, a, t, input, d0, n);
    var o, d := Run(g, t, input, n), MemoryAt(g, user, t, input, d0, n);
    ErrorHandsOver(g, user, zero, d, o.LexError?);
    if NoEmptyAll(o.c.forest) {
      InvShape(g, a, input, o.c);
      InputAt(g, input, o.c.pos);
      EveryValueOnce(g, user, zero, a, t, input, d0, n);
      RunOutcome(g, a, t, input, n);
      DrivingCalls(g, user, d, o.c, input[o.c.pos]);
      PackedDestroyed(g, user, zero, d, o.c.forest, input[o.c.pos], o.LexError?);
      PackedHandsOver(g, user, zero, d, o.c.forest, input[o.c.pos], o.LexError?);
      if o.Accepted? {
        AcceptedValue(g, user, d, o.c.forest, input[o.c.pos]);
      }
    }
  }

  lemma SlotPosition(s: seq<nat>, j: nat, bound: nat)
    requires |s| % 2 == 1 && |s| > 2 * j + 2 && forall k | 0 <= k < |s| / 2 :: s[2 * k + 1] < bound
    ensures s[|s| - 2 * (j + 1)] < bound
  {
    var k := |s| / 2 - j - 1;
    assert 2 * k + 1 == |s| - 2 * (j + 1);
    assert s[2 * k + 1] < bound;
  }

  lemma SlotTop(s: seq<nat>, bound: nat)
    requires |s| % 2 == 1 && |s| > 1 && forall k | 0 <= k < |s| / 2 :: s[2 * k + 1] < bound
    ensures s[|s| - 2] < bound && forall k | 0 <= k < |s| / 2 - 1 :: s[..|s| - 2][2 * k + 1] < bound
  {
    SlotPosition(s, 0, bound);
  }

  lemma HandAssoc(a: seq<Handed>, b: seq<Handed>, c: seq<Handed>)
    ensures a + b + c == a + (b + c)
  {
  }

  lemma NothingLeft(g: Grammar, user: UserCode, zero: Value, tokenTable: seq<int>, valueTable: seq<Value>, stack: seq<nat>, done: seq<Handed>)
    requires |stack| == 1
    ensures done + Destroyed(g, user, zero, tokenTable, valueTable, stack) == done
  {
  }
}
