/** What the driver's stack and tables hold after every turn of a run (src/lr.c), as a function of the
    run: the loop computes exactly this, empty rules included. */
module Memories {
  import opened Grammars
  import opened Automata
  import opened Tables
  import opened Machines
  import opened Values

  /** The stack of slots and states, the two tables, the lookahead's slot i, the slot of the last
      result, and the calls of the user's reduction code. */
  datatype Memory = Memory(stack: seq<nat>, tokenTable: seq<int>, valueTable: seq<Value>, i: nat, dest: nat, calls: seq<Call>)

  /** Write slot k of both tables; the slot behind the last one is a new one. */
  function Put(d: Memory, k: nat, tok: int, val: Value): Memory {
    if k < |d.tokenTable| && k < |d.valueTable| then d.(tokenTable := d.tokenTable[k := tok], valueTable := d.valueTable[k := val])
    else d.(tokenTable := d.tokenTable + [tok], valueTable := d.valueTable + [val])
  }

  /** Push the lookahead's slot and a state, and read the next lexeme into the slot behind. */
  function Shifted(d: Memory, s: nat, lexeme: Lexeme): Memory {
    Put(d.(stack := d.stack + [d.i, s], i := d.i + 1), d.i + 1, lexeme.tok, lexeme.val)
  }

  /** The slot that receives the result of a rule with n arguments: the first one's, or that of the
      previous result. */
  function FirstSlot(stack: seq<nat>, n: nat, dest: nat): nat
    requires |stack| >= 2 * n
  {
    if n == 0 then dest else stack[|stack| - 2 * n]
  }

  /** The values popped by n arguments, the first one deepest in the stack. */
  function Popped(valueTable: seq<Value>, stack: seq<nat>, n: nat): seq<Value>
    requires |stack| >= 2 * n
  {
    if n == 0 then []
    else
      var slot := stack[|stack| - 2 * n];
      (if slot < |valueTable| then [valueTable[slot]] else []) + Popped(valueTable, stack, n - 1)
  }

  /** There are arguments for the rule on the stack, and all slots lie in the tables. */
  predicate CanReduce(g: Grammar, d: Memory, r: nat) {
    && r < |g.rules|
    && 2 * |g.rules[r].rhs| < |d.stack|
    && FirstSlot(d.stack, |g.rules[r].rhs|, d.dest) < |d.tokenTable|
    && |d.tokenTable| == |d.valueTable|
    && d.i < |d.tokenTable|
  }

  /** Pop the arguments, call the reduction code, store the result and go to the next state. */
  function Result(g: Grammar, user: UserCode, t: seq<nat>, d: Memory, r: nat): Memory
    requires CanReduce(g, d, r)
  {
    var n, lhs := |g.rules[r].rhs|, g.rules[r].lhs;
    var low, slot, args := d.stack[..|d.stack| - 2 * n], FirstSlot(d.stack, n, d.dest), Popped(d.valueTable, d.stack, n);
    Memory(low + [slot, Goto(g, t, low[|low| - 1], lhs)],
           d.tokenTable[slot := lhs], d.valueTable[slot := user.reduce(r, args)], d.i, slot, d.calls + [Call(r, args)])
  }

  /** Move the lookahead to the slot behind the result, unless the result took its slot. */
  function Moved(d: Memory): Memory
    requires d.i < |d.tokenTable| == |d.valueTable|
  {
    if d.i == d.dest then d
    else Put(d, d.dest + 1, d.tokenTable[d.i], d.valueTable[d.i]).(i := d.dest + 1)
  }

  /** One turn of the loop, in a run that is in outcome o. */
  function Turn(g: Grammar, user: UserCode, t: seq<nat>, input: seq<Lexeme>, o: Outcome, d: Memory): Memory {
    if !o.Running? || o.c.pos + 1 > |input| || o.c.states == [] || input[o.c.pos].tok < 0 then d
    else
      match Cell(g, t, o.c.states[|o.c.states| - 1], input[o.c.pos].tok)
      case Shift(s) => if o.c.pos + 1 < |input| then Shifted(d, s, input[o.c.pos + 1]) else d
      case Reduce(r) => if CanReduce(g, d, r) then Moved(Result(g, user, t, d, r)) else d
      case _ => d
  }

  function MemoryAt(g: Grammar, user: UserCode, t: seq<nat>, input: seq<Lexeme>, d0: Memory, n: nat): Memory {
    if n == 0 then d0
    else Turn(g, user, t, input, Run(g, t, input, n - 1), MemoryAt(g, user, t, input, d0, n - 1))
  }

  lemma MemoryOneMore(g: Grammar, user: UserCode, t: seq<nat>, input: seq<Lexeme>, d0: Memory, n: nat)
    ensures MemoryAt(g, user, t, input, d0, n + 1) == Turn(g, user, t, input, Run(g, t, input, n), MemoryAt(g, user, t, input, d0, n))
  {
    hide Turn, Run;
  }

  /** Before the first turn: state 0, and the first lexeme in slot 0. */
  ghost predicate IsStart(d: Memory, la: Lexeme) {
    && d.stack == [0] && d.i == 0 && d.dest == 0 && d.calls == []
    && |d.tokenTable| == |d.valueTable| > 0 && d.tokenTable[0] == la.tok && d.valueTable[0] == la.val
  }

  // ------------------------------------------------ what holds in every run

  /** The slots and states of a stack, from its bottom: s0, slot of the first symbol, s1, ... */
  ghost predicate Interleaved(stack: seq<nat>, c: Config) {
    && |c.states| == |c.forest| + 1
    && |stack| == 2 * |c.forest| + 1
    && (forall k | 0 <= k < |c.states| :: stack[2 * k] == c.states[k])
  }

  /** All slots that are in use lie in the tables. */
  ghost predicate SlotsInUse(d: Memory) {
    && |d.tokenTable| == |d.valueTable|
    && d.i < |d.tokenTable| && d.dest < |d.tokenTable|
    && (forall k | 0 <= k < |d.stack| / 2 :: d.stack[2 * k + 1] < |d.tokenTable|)
  }

  /** Slot k holds the token and the value of the k-th tree of the stack. */
  ghost predicate SlotHolds(g: Grammar, user: UserCode, d: Memory, forest: seq<Tree>, k: nat)
    requires k < |forest|
  {
    && k < |d.tokenTable| && k < |d.valueTable|
    && d.tokenTable[k] == Root(g, forest[k])
    && d.valueTable[k] == Fold(user.reduce, forest[k])
  }

  /** The stacked slots are 0..d-1, the lookahead is in slot d, and every slot holds its value. */
  ghost predicate Packed(g: Grammar, user: UserCode, d: Memory, forest: seq<Tree>, la: Lexeme) {
    && |d.stack| == 2 * |forest| + 1
    && (forall k | 0 <= k < |forest| :: d.stack[2 * k + 1] == k)
    && (forall k | 0 <= k < |forest| :: SlotHolds(g, user, d, forest, k))
    && d.i == |forest| < |d.tokenTable| && d.i < |d.valueTable|
    && d.tokenTable[d.i] == la.tok && d.valueTable[d.i] == la.val
  }

  /** Where the last reduction put its result. */
  ghost predicate LastDest(forest: seq<Tree>, dest: nat) {
    && (forest != [] && forest[|forest| - 1].Node? ==> dest == |forest| - 1)
    && ((forall k | 0 <= k < |forest| :: forest[k].Leaf?) ==> dest == 0)
  }

  /** What holds while no empty rule has been reduced. */
  ghost predicate InOrder(g: Grammar, user: UserCode, d: Memory, forest: seq<Tree>, la: Lexeme) {
    && Packed(g, user, d, forest, la)
    && LastDest(forest, d.dest)
    && d.calls == CallsAll(user.reduce, forest)
  }

  /** The stack, the tables and the calls made so far, in configuration c. */
  ghost predicate Driving(g: Grammar, user: UserCode, d: Memory, c: Config, la: Lexeme) {
    && Interleaved(d.stack, c)
    && SlotsInUse(d)
    && RulesOf(d.calls) == Postorders(c.forest)
    && (NoEmptyAll(c.forest) ==> InOrder(g, user, d, c.forest, la))
  }

  lemma StartDrives(g: Grammar, user: UserCode, d: Memory, la: Lexeme)
    requires IsStart(d, la)
    ensures Driving(g, user, d, Start(), la)
  {
  }

  // ------------------------------------------------ one shift

  lemma PutSlots(d: Memory, k: nat, tok: int, val: Value)
    requires |d.tokenTable| == |d.valueTable| && k <= |d.tokenTable|
    ensures var d' := Put(d, k, tok, val);
            && d'.stack == d.stack && d'.i == d.i && d'.dest == d.dest && d'.calls == d.calls
            && |d.tokenTable| <= |d'.tokenTable| == |d'.valueTable| && k < |d'.tokenTable|
            && d'.tokenTable[k] == tok && d'.valueTable[k] == val
            && forall j | 0 <= j < |d.tokenTable| && j != k :: d'.tokenTable[j] == d.tokenTable[j] && d'.valueTable[j] == d.valueTable[j]
  {
  }

  /** A shift keeps all of it. */
  lemma ShiftDrives(g: Grammar, user: UserCode, d: Memory, c: Config, la: Lexeme, s: nat, lexeme: Lexeme)
    requires Driving(g, user, d, c, la) && la.tok >= 0
    ensures Driving(g, user, Shifted(d, s, lexeme), Config(c.states + [s], c.forest + [Leaf(la.tok, la.val)], c.pos + 1), lexeme)
  {
    hide Put, Packed, LastDest, RulesOf, CallsAll, Postorders, NoEmptyAll;
    var leaf := Leaf(la.tok, la.val);
    var d', c' := Shifted(d, s, lexeme), Config(c.states + [s], c.forest + [leaf], c.pos + 1);
    PutSlots(d.(stack := d.stack + [d.i, s], i := d.i + 1), d.i + 1, lexeme.tok, lexeme.val);
    LeafCalls(user, c.forest, leaf);
    ShiftInterleaved(d.stack, c, d.i, s, leaf);
    ShiftSlots(d, d', s);
    if NoEmptyAll(c'.forest) {
      NoEmptyPush(c.forest, leaf);
      ShiftPacked(g, user, d, c.forest, la, s, d', lexeme);
      LastDestShift(c.forest, leaf, d.dest);
    }
  }

  lemma LeafCalls(user: UserCode, forest: seq<Tree>, leaf: Tree)
    requires leaf.Leaf?
    ensures Postorders(forest + [leaf]) == Postorders(forest)
    ensures CallsAll(user.reduce, forest + [leaf]) == CallsAll(user.reduce, forest)
  {
    YieldsPush(forest, leaf);
    CallsPush(user.reduce, forest, leaf);
    assert Postorder(leaf) == [] && Postorders(forest) + [] == Postorders(forest);
    assert Calls(user.reduce, leaf) == [] && CallsAll(user.reduce, forest) + [] == CallsAll(user.reduce, forest);
  }

  lemma ShiftInterleaved(stack: seq<nat>, c: Config, i: nat, s: nat, leaf: Tree)
    requires Interleaved(stack, c)
    ensures Interleaved(stack + [i, s], Config(c.states + [s], c.forest + [leaf], c.pos + 1))
  {
  }

  lemma ShiftSlots(d: Memory, d': Memory, s: nat)
    requires SlotsInUse(d) && |d.stack| % 2 == 1 && d'.stack == d.stack + [d.i, s] && d'.i == d.i + 1 && d'.dest == d.dest
    requires |d.tokenTable| <= |d'.tokenTable| == |d'.valueTable| && d'.i < |d'.tokenTable|
    ensures SlotsInUse(d')
  {
    forall k | 0 <= k < |d'.stack| / 2
      ensures d'.stack[2 * k + 1] < |d'.tokenTable|
    {
      if 2 * k + 1 < |d.stack| {
        assert d.stack[2 * k + 1] < |d.tokenTable|;
      }
    }
  }

  lemma NoEmptyPush(forest: seq<Tree>, t: Tree)
    ensures NoEmptyAll(forest + [t]) <==> NoEmptyAll(forest) && NoEmpty(t)
  {
    var more := forest + [t];
    assert more[|forest|] == t;
    assert forall k | 0 <= k < |forest| :: more[k] == forest[k];
  }

  lemma ShiftPacked(g: Grammar, user: UserCode, d: Memory, forest: seq<Tree>, la: Lexeme, s: nat, d': Memory, lexeme: Lexeme)
    requires Packed(g, user, d, forest, la) && la.tok >= 0 && |d.tokenTable| == |d.valueTable|
    requires d'.stack == d.stack + [d.i, s] && d'.i == d.i + 1 && |d.tokenTable| <= |d'.tokenTable| == |d'.valueTable| && d'.i < |d'.tokenTable|
    requires d'.tokenTable[d'.i] == lexeme.tok && d'.valueTable[d'.i] == lexeme.val
    requires forall j | 0 <= j < |d.tokenTable| && j != d'.i :: d'.tokenTable[j] == d.tokenTable[j] && d'.valueTable[j] == d.valueTable[j]
    ensures Packed(g, user, d', forest + [Leaf(la.tok, la.val)], lexeme)
  {
    var forest' := forest + [Leaf(la.tok, la.val)];
    forall k | 0 <= k < |forest'|
      ensures SlotHolds(g, user, d', forest', k) && d'.stack[2 * k + 1] == k
    {
      if k < |forest| {
        assert SlotHolds(g, user, d, forest, k);
      }
    }
  }

  lemma LastDestShift(forest: seq<Tree>, leaf: Tree, dest: nat)
    requires LastDest(forest, dest) && leaf.Leaf?
    ensures LastDest(forest + [leaf], dest)
  {
    var more := forest + [leaf];
    if forall k | 0 <= k < |more| :: more[k].Leaf? {
      assert forall k | 0 <= k < |forest| :: forest[k] == more[k];
    }
  }

  // ------------------------------------------------ one reduction

  lemma MovedSlots(d: Memory)
    requires d.i < |d.tokenTable| == |d.valueTable| && d.dest < |d.tokenTable|
    ensures var d' := Moved(d);
            && d'.stack == d.stack && d'.dest == d.dest && d'.calls == d.calls
            && d'.i == (if d.i == d.dest then d.i else d.dest + 1)
            && |d.tokenTable| <= |d'.tokenTable| == |d'.valueTable| && d'.i < |d'.tokenTable|
            && d'.tokenTable[d'.i] == d.tokenTable[d.i] && d'.valueTable[d'.i] == d.valueTable[d.i]
            && forall j | 0 <= j < |d.tokenTable| && j != d'.i :: d'.tokenTable[j] == d.tokenTable[j] && d'.valueTable[j] == d.valueTable[j]
  {
    if d.i != d.dest {
      PutSlots(d, d.dest + 1, d.tokenTable[d.i], d.valueTable[d.i]);
    }
  }

  lemma StackLow(stack: seq<nat>, c: Config, m: nat)
    requires Interleaved(stack, c) && m <= |c.forest|
    ensures stack[2 * m] == c.states[m] && |stack| - 2 * (|c.forest| - m) == 2 * m + 1
  {
  }

  /** In every run there are arguments for the rule that the table reduces by. */
  lemma DrivingCanReduce(g: Grammar, user: UserCode, d: Memory, c: Config, la: Lexeme, r: nat)
    requires Driving(g, user, d, c, la) && r < |g.rules| && |g.rules[r].rhs| <= |c.forest|
    ensures CanReduce(g, d, r)
  {
    var n := |g.rules[r].rhs|;
    StackLow(d.stack, c, |c.forest| - n);
    if n > 0 {
      var k := |c.forest| - n;
      assert |d.stack| - 2 * n == 2 * k + 1;
      assert d.stack[2 * k + 1] < |d.tokenTable|;
    }
  }

  lemma ResultInterleaved(g: Grammar, t: seq<nat>, stack: seq<nat>, c: Config, c': Config, r: nat, m: nat, slot: nat, next: nat)
    requires Interleaved(stack, c) && g.IsRule(r) && m == |c.forest| - |g.rules[r].rhs| && m <= |c.forest|
    requires Reduced(g, t, c, r) == Running(c') && next == Goto(g, t, c.states[m], g.rules[r].lhs)
    ensures c'.forest == c.forest[..m] + [Node(r, c.forest[m..])]
    ensures Interleaved(stack[..2 * m + 1] + [slot, next], c')
  {
    hide Goto;
    var stack' := stack[..2 * m + 1] + [slot, next];
    assert c'.states == c.states[..m + 1] + [next];
    forall k | 0 <= k < |c'.states|
      ensures stack'[2 * k] == c'.states[k]
    {
      if k <= m {
        assert stack[2 * k] == c.states[k];
      }
    }
  }

  lemma ResultRules(c: Config, c': Config, r: nat, m: nat, calls: seq<Call>, args: seq<Value>)
    requires m <= |c.forest| && c'.forest == c.forest[..m] + [Node(r, c.forest[m..])]
    requires RulesOf(calls) == Postorders(c.forest)
    ensures RulesOf(calls + [Call(r, args)]) == Postorders(c'.forest)
  {
    assert c.forest == c.forest[..m] + c.forest[m..];
    PostordersAppend(c.forest[..m], c.forest[m..]);
    YieldsPush(c.forest[..m], Node(r, c.forest[m..]));
    assert RulesOf(calls + [Call(r, args)]) == RulesOf(calls) + [r];
  }

  lemma ResultSlots(d: Memory, d': Memory, m: nat, slot: nat, next: nat)
    requires SlotsInUse(d) && |d.stack| >= 2 * m + 1 && d'.stack == d.stack[..2 * m + 1] + [slot, next] && d'.dest == slot < |d.tokenTable|
    requires |d.tokenTable| <= |d'.tokenTable| == |d'.valueTable| && d'.i < |d'.tokenTable|
    ensures SlotsInUse(d')
  {
    forall k | 0 <= k < |d'.stack| / 2
      ensures d'.stack[2 * k + 1] < |d'.tokenTable|
    {
      if k < m {
        assert d.stack[2 * k + 1] < |d.tokenTable|;
      }
    }
  }

  /** A reduction with the move of the lookahead keeps all of it. */
  lemma ReduceDrives(g: Grammar, user: UserCode, t: seq<nat>, d: Memory, c: Config, c': Config, la: Lexeme, r: nat)
    requires Driving(g, user, d, c, la) && g.IsRule(r) && |g.rules[r].rhs| <= |c.forest|
    requires Reduced(g, t, c, r) == Running(c')
    ensures CanReduce(g, d, r) && Driving(g, user, Moved(Result(g, user, t, d, r)), c', la)
  {
    hide Reduced, Goto, Moved, InOrder, Postorders, RulesOf, Popped;
    DrivingCanReduce(g, user, d, c, la, r);
    var m, d1 := |c.forest| - |g.rules[r].rhs|, Result(g, user, t, d, r);
    var d2 := Moved(d1);
    StackLow(d.stack, c, m);
    MovedSlots(d1);
    ResultInterleaved(g, t, d.stack, c, c', r, m, d1.dest, Goto(g, t, c.states[m], g.rules[r].lhs));
    ResultRules(c, c', r, m, d.calls, Popped(d.valueTable, d.stack, |g.rules[r].rhs|));
    ResultSlots(d, d2, m, d1.dest, Goto(g, t, c.states[m], g.rules[r].lhs));
    NoEmptyReduce(c.forest, m, r);
    if NoEmptyAll(c'.forest) {
      ReduceInOrder(g, user, t, d, c.forest, la, r, m);
    }
  }

  lemma NoEmptyReduce(forest: seq<Tree>, m: nat, r: nat)
    requires m <= |forest|
    ensures NoEmptyAll(forest[..m] + [Node(r, forest[m..])]) <==> NoEmptyAll(forest) && m < |forest|
  {
    var low, kids := forest[..m], forest[m..];
    assert forest == low + kids;
    NoEmptySplit(low, kids);
    NoEmptyPush(low, Node(r, kids));
  }

  lemma NoEmptySplit(a: seq<Tree>, b: seq<Tree>)
    ensures NoEmptyAll(a + b) <==> NoEmptyAll(a) && NoEmptyAll(b)
  {
    hide NoEmpty;
    if NoEmptyAll(a + b) {
      assert forall k | 0 <= k < |a| :: (a + b)[k] == a[k];
      assert forall k | 0 <= k < |b| :: (a + b)[|a| + k] == b[k];
    }
  }

  /** Without empty rules the arguments are the folds of the popped trees, and the result goes to the
      first one's slot. */
  lemma ReduceInOrder(g: Grammar, user: UserCode, t: seq<nat>, d: Memory, forest: seq<Tree>, la: Lexeme, r: nat, m: nat)
    requires InOrder(g, user, d, forest, la) && g.IsRule(r) && m == |forest| - |g.rules[r].rhs| && m < |forest|
    requires CanReduce(g, d, r)
    ensures InOrder(g, user, Moved(Result(g, user, t, d, r)), forest[..m] + [Node(r, forest[m..])], la)
  {
    hide Popped, CallsAll, Folds, Moved, Packed, Goto;
    PackedArguments(g, user, d, forest, la, m);
    MovedSlots(Result(g, user, t, d, r));
    ResultPacked(g, user, t, d, forest, la, r, m);
    ReduceCalls(user.reduce, forest, m, r);
  }

  lemma PackedArguments(g: Grammar, user: UserCode, d: Memory, forest: seq<Tree>, la: Lexeme, m: nat)
    requires Packed(g, user, d, forest, la) && m < |forest|
    ensures |d.stack| == 2 * |forest| + 1 && FirstSlot(d.stack, |forest| - m, d.dest) == m
    ensures Popped(d.valueTable, d.stack, |forest| - m) == Folds(user.reduce, forest[m..])
  {
    var n := |forest| - m;
    assert |d.stack| - 2 * n == 2 * m + 1;
    PackedPopped(g, user, d, forest, la, n);
  }

  lemma PackedSlot(g: Grammar, user: UserCode, d: Memory, forest: seq<Tree>, la: Lexeme, k: nat)
    requires Packed(g, user, d, forest, la) && k < |forest|
    ensures |d.stack| == 2 * |forest| + 1 && d.stack[2 * k + 1] == k
    ensures k < |d.valueTable| && d.valueTable[k] == Fold(user.reduce, forest[k])
  {
    hide Fold;
    assert SlotHolds(g, user, d, forest, k);
  }

  lemma FoldsCons(reduce: (nat, seq<Value>) -> Value, ts: seq<Tree>, k: nat)
    requires k < |ts|
    ensures Folds(reduce, ts[k..]) == [Fold(reduce, ts[k])] + Folds(reduce, ts[k + 1..])
  {
    hide Fold, Folds;
  }

  lemma {:induction false} PackedPopped(g: Grammar, user: UserCode, d: Memory, forest: seq<Tree>, la: Lexeme, n: nat)
    requires Packed(g, user, d, forest, la) && n <= |forest|
    ensures |d.stack| >= 2 * n
    ensures Popped(d.valueTable, d.stack, n) == Folds(user.reduce, forest[|forest| - n..])
    decreases n
  {
    hide Packed, Fold, Folds;
    PackedSize(g, user, d, forest, la);
    if n > 0 {
      var k := |forest| - n;
      PackedPopped(g, user, d, forest, la, n - 1);
      PackedSlot(g, user, d, forest, la, k);
      FoldsCons(user.reduce, forest, k);
      assert |d.stack| - 2 * n == 2 * k + 1;
    }
  }

  lemma PackedSize(g: Grammar, user: UserCode, d: Memory, forest: seq<Tree>, la: Lexeme)
    requires Packed(g, user, d, forest, la)
    ensures |d.stack| == 2 * |forest| + 1
  {
  }

  lemma ResultPacked(g: Grammar, user: UserCode, t: seq<nat>, d: Memory, forest: seq<Tree>, la: Lexeme, r: nat, m: nat)
    requires Packed(g, user, d, forest, la) && g.IsRule(r) && m == |forest| - |g.rules[r].rhs| && m < |forest| && CanReduce(g, d, r)
    requires FirstSlot(d.stack, |forest| - m, d.dest) == m
    requires Popped(d.valueTable, d.stack, |forest| - m) == Folds(user.reduce, forest[m..])
    ensures Packed(g, user, Moved(Result(g, user, t, d, r)), forest[..m] + [Node(r, forest[m..])], la)
    ensures LastDest(forest[..m] + [Node(r, forest[m..])], m)
  {
    hide Popped, Goto, Moved, Folds, FirstSlot;
    var forest', d1 := forest[..m] + [Node(r, forest[m..])], Result(g, user, t, d, r);
    MovedSlots(d1);
    var d2 := Moved(d1);
    forall k | 0 <= k < |forest'|
      ensures SlotHolds(g, user, d2, forest', k) && d2.stack[2 * k + 1] == k
    {
      if k < m {
        assert SlotHolds(g, user, d, forest, k);
        assert d.stack[2 * k + 1] == k;
      }
    }
    assert !forest'[m].Leaf?;
  }

  lemma ReduceCalls(reduce: (nat, seq<Value>) -> Value, forest: seq<Tree>, m: nat, r: nat)
    requires m <= |forest|
    ensures CallsAll(reduce, forest[..m] + [Node(r, forest[m..])]) == CallsAll(reduce, forest) + [Call(r, Folds(reduce, forest[m..]))]
  {
    hide Folds, CallsAll;
    var low, kids := forest[..m], forest[m..];
    assert forest == low + kids;
    CallsAppend(reduce, low, kids);
    CallsPush(reduce, low, Node(r, kids));
    assert Calls(reduce, Node(r, kids)) == CallsAll(reduce, kids) + [Call(r, Folds(reduce, kids))];
    CallAssoc(CallsAll(reduce, low), CallsAll(reduce, kids), [Call(r, Folds(reduce, kids))]);
  }

  // ------------------------------------------------ whole runs

  lemma TurnDrives(g: Grammar, user: UserCode, a: Automaton, t: seq<nat>, input: seq<Lexeme>, o: Outcome, d: Memory)
    requires Setting(g, a, t, input) && |a.trans| == |a.states| && Good(g, a, input, o) && Driving(g, user, d, o.c, input[o.c.pos])
    ensures var o' := if o.Running? then Step(g, t, input, o.c) else o;
            && !o'.Stuck? && o'.c.pos < |input|
            && Driving(g, user, Turn(g, user, t, input, o, d), o'.c, input[o'.c.pos])
  {
    hide CoreAutomaton, TableSound, Driving, Cell, Reduced, Shifted, Moved, Result, CanReduce;
    if o.Running? {
      var c, la := o.c, input[o.c.pos];
      StepKeeps(g, a, t, input, c);
      InputAt(g, input, c.pos);
      InvShape(g, a, input, c);
      if la.tok >= 0 {
        match Cell(g, t, c.states[|c.forest|], la.tok)
        case Shift(s) =>
          var c' := Step(g, t, input, c).c;
          InvShape(g, a, input, c');
          ShiftDrives(g, user, d, c, la, s, input[c.pos + 1]);
        case Reduce(r) =>
          CellReduce(g, a, t, input, c.states[|c.forest|], input[c.pos].tok, r);
          ReduceHandle(g, a, t, input, c, r);
          ReducedRuns(g, t, c, r);
          ReduceDrives(g, user, t, d, c, Reduced(g, t, c, r).c, la, r);
        case _ =>
      }
    }
  }

  /** In every run, empty rules included, the driver's memory is that of its configuration. */
  lemma {:induction false} MemoryDrives(g: Grammar, user: UserCode, a: Automaton, t: seq<nat>, input: seq<Lexeme>, d0: Memory, n: nat)
    requires Setting(g, a, t, input) && IsStart(d0, input[0])
    ensures var o := Run(g, t, input, n);
            && !o.Stuck? && o.c.pos < |input|
            && Driving(g, user, MemoryAt(g, user, t, input, d0, n), o.c, input[o.c.pos])
    decreases n
  {
    hide CoreAutomaton, TableSound, Driving, Step, Turn, Inv, IsStart;
    SameSize(g, a);
    if n == 0 {
      StartDrives(g, user, d0, input[0]);
    } else {
      MemoryDrives(g, user, a, t, input, d0, n - 1);
      RunSafe(g, a, t, input, n - 1);
      TurnDrives(g, user, a, t, input, Run(g, t, input, n - 1), MemoryAt(g, user, t, input, d0, n - 1));
      RunOneMore(g, t, input, n - 1);
    }
  }

  /** The memory after a turn that shifts, and after one that reduces. */
  lemma TurnShifts(g: Grammar, user: UserCode, t: seq<nat>, input: seq<Lexeme>, d0: Memory, n: nat, c: Config, s: nat)
    requires Run(g, t, input, n) == Running(c) && c.states != [] && c.pos + 1 < |input| && input[c.pos].tok >= 0
    requires Cell(g, t, c.states[|c.states| - 1], input[c.pos].tok) == Shift(s)
    ensures MemoryAt(g, user, t, input, d0, n + 1) == Shifted(MemoryAt(g, user, t, input, d0, n), s, input[c.pos + 1])
  {
    hide Cell, Run, Shifted;
  }

  lemma TurnReduces(g: Grammar, user: UserCode, t: seq<nat>, input: seq<Lexeme>, d0: Memory, n: nat, c: Config, r: nat)
    requires Run(g, t, input, n) == Running(c) && c.states != [] && c.pos < |input| && input[c.pos].tok >= 0
    requires Cell(g, t, c.states[|c.states| - 1], input[c.pos].tok) == Reduce(r) && CanReduce(g, MemoryAt(g, user, t, input, d0, n), r)
    ensures MemoryAt(g, user, t, input, d0, n + 1) == Moved(Result(g, user, t, MemoryAt(g, user, t, input, d0, n), r))
  {
    hide Cell, Run, Moved, Result, CanReduce;
  }

  /** What a shift leaves: the lookahead's slot on the stack, and the next lexeme in the slot behind it. */
  lemma ShiftedSlots(d: Memory, s: nat, lexeme: Lexeme)
    ensures var d' := Shifted(d, s, lexeme);
            d'.stack == d.stack + [d.i, s] && d'.i == d.i + 1 && d'.dest == d.dest && d'.calls == d.calls
    ensures |d.tokenTable| == |d.valueTable| && d.i < |d.tokenTable| ==>
              var d' := Shifted(d, s, lexeme);
              && |d.tokenTable| <= |d'.tokenTable| == |d'.valueTable| && d'.i < |d'.tokenTable|
              && d'.tokenTable[d'.i] == lexeme.tok && d'.valueTable[d'.i] == lexeme.val
              && forall j | 0 <= j < |d.tokenTable| && j != d'.i :: d'.tokenTable[j] == d.tokenTable[j] && d'.valueTable[j] == d.valueTable[j]
  {
  }

  /** What a reduction leaves, empty or not: its result with the rule's symbol in the slot of the first argument, or
      of the previous result if the rule is empty; that slot and the next state on the stack; and the lookahead behind
      the result, unless the result has taken its slot. */
  lemma ReducedSlots(g: Grammar, user: UserCode, t: seq<nat>, d: Memory, r: nat)
    requires CanReduce(g, d, r)
    ensures var n := |g.rules[r].rhs|;
            && |d.stack| > 2 * n && (n > 0 ==> FirstSlot(d.stack, n, d.dest) == d.stack[|d.stack| - 2 * n])
            && (n == 0 ==> FirstSlot(d.stack, n, d.dest) == d.dest)
    ensures var n := |g.rules[r].rhs|;
            var d', slot, low := Moved(Result(g, user, t, d, r)), FirstSlot(d.stack, n, d.dest), d.stack[..|d.stack| - 2 * n];
            && d'.stack == low + [slot, Goto(g, t, low[|low| - 1], g.rules[r].lhs)]
            && d'.dest == slot && d'.i == (if d.i == slot then d.i else slot + 1)
            && d'.calls == d.calls + [Call(r, Popped(d.valueTable, d.stack, n))]
            && |d'.tokenTable| == |d'.valueTable| > d'.i && |d'.tokenTable| >= |d.tokenTable| > slot
            && d'.tokenTable[slot] == g.rules[r].lhs && d'.valueTable[slot] == user.reduce(r, Popped(d.valueTable, d.stack, n))
            && (d.i != slot ==> d'.tokenTable[d'.i] == d.tokenTable[d.i] && d'.valueTable[d'.i] == d.valueTable[d.i])
            && forall j | 0 <= j < |d.tokenTable| && j != slot && j != d'.i ::
                 d'.tokenTable[j] == d.tokenTable[j] && d'.valueTable[j] == d.valueTable[j]
  {
    hide Popped, Goto;
    MovedSlots(Result(g, user, t, d, r));
  }

  /** The arguments of a reduction, in the order of the rule, are what the popped slots hold. */
  lemma {:induction false} PoppedSlots(valueTable: seq<Value>, stack: seq<nat>, n: nat)
    requires |stack| >= 2 * n && forall k | 0 <= k < n :: stack[|stack| - 2 * n + 2 * k] < |valueTable|
    ensures |Popped(valueTable, stack, n)| == n
    ensures forall k | 0 <= k < n :: Popped(valueTable, stack, n)[k] == valueTable[stack[|stack| - 2 * n + 2 * k]]
    decreases n
  {
    if n > 0 {
      forall k | 0 <= k < n - 1
        ensures stack[|stack| - 2 * (n - 1) + 2 * k] < |valueTable|
      {
        assert |stack| - 2 * (n - 1) + 2 * k == |stack| - 2 * n + 2 * (k + 1);
      }
      PoppedSlots(valueTable, stack, n - 1);
      assert stack[|stack| - 2 * n + 2 * 0] < |valueTable|;
      var rest := Popped(valueTable, stack, n - 1);
      assert Popped(valueTable, stack, n) == [valueTable[stack[|stack| - 2 * n]]] + rest;
      forall k | 0 < k < n
        ensures rest[k - 1] == valueTable[stack[|stack| - 2 * n + 2 * k]]
      {
        assert |stack| - 2 * (n - 1) + 2 * (k - 1) == |stack| - 2 * n + 2 * k;
      }
    }
  }

  // ------------------------------------------------ destructors

  /** What handing the value of a slot to the destructor of its token adds. */
  function HandSlot(g: Grammar, user: UserCode, tokenTable: seq<int>, valueTable: seq<Value>, slot: nat): seq<Handed> {
    if slot < |tokenTable| && slot < |valueTable| && 0 <= tokenTable[slot] < g.tokenN then HandOne(user, tokenTable[slot], valueTable[slot])
    else []
  }

  /** A destroyed value is overwritten. */
  function Overwritten(g: Grammar, user: UserCode, zero: Value, tokenTable: seq<int>, valueTable: seq<Value>, slot: nat): (vs: seq<Value>)
    ensures |vs| == |valueTable| && forall k | 0 <= k < |vs| && k != slot :: vs[k] == valueTable[k]
  {
    if HandSlot(g, user, tokenTable, valueTable, slot) == [] || slot >= |valueTable| then valueTable else valueTable[slot := zero]
  }

  /** What emptying the stack from the top down hands over. */
  function Destroyed(g: Grammar, user: UserCode, zero: Value, tokenTable: seq<int>, valueTable: seq<Value>, stack: seq<nat>): seq<Handed>
    decreases |stack|
  {
    if |stack| < 3 then []
    else
      var slot := stack[|stack| - 2];
      HandSlot(g, user, tokenTable, valueTable, slot)
      + Destroyed(g, user, zero, tokenTable, Overwritten(g, user, zero, tokenTable, valueTable, slot), stack[..|stack| - 2])
  }

  /** What an error exit hands over: the lookahead unless it is the error, then the stack. */
  function ErrorHanded(g: Grammar, user: UserCode, zero: Value, d: Memory, lexing: bool): seq<Handed> {
    if lexing then Destroyed(g, user, zero, d.tokenTable, d.valueTable, d.stack)
    else
      HandSlot(g, user, d.tokenTable, d.valueTable, d.i)
      + Destroyed(g, user, zero, d.tokenTable, Overwritten(g, user, zero, d.tokenTable, d.valueTable, d.i), d.stack)
  }

  /** The same for the trees and the lookahead the slots stand for. */
  function HandedOnError(g: Grammar, user: UserCode, forest: seq<Tree>, la: Lexeme, lexing: bool): seq<Handed> {
    (if lexing || la.tok < 0 then [] else HandOne(user, la.tok, la.val)) + HandAll(g, user, forest)
  }

  lemma {:induction false} StackDestroyed(g: Grammar, user: UserCode, zero: Value, d: Memory, values: seq<Value>, forest: seq<Tree>, la: Lexeme, m: nat)
    requires g.WellFormed() && ValidForest(g, forest) && Packed(g, user, d, forest, la) && m <= |forest|
    requires m <= |values| == |d.valueTable| && forall k | 0 <= k < m :: values[k] == d.valueTable[k]
    ensures Destroyed(g, user, zero, d.tokenTable, values, d.stack[..2 * m + 1]) == HandAll(g, user, forest[..m])
    decreases m
  {
    hide Destroyed, HandAll, Packed, HandSlot, Overwritten;
    if m == 0 {
      NothingDestroyed(g, user, zero, d, values, forest, la);
    } else {
      StackDestroyed(g, user, zero, d, Overwritten(g, user, zero, d.tokenTable, values, m - 1), forest, la, m - 1);
      PackedTop(g, user, d, values, forest, la, m);
      DestroyedTop(g, user, zero, d.tokenTable, values, d.stack[..2 * m + 1], m - 1, d.stack[..2 * m - 1]);
      HandAllTop(g, user, forest, m);
    }
  }

  lemma NothingDestroyed(g: Grammar, user: UserCode, zero: Value, d: Memory, values: seq<Value>, forest: seq<Tree>, la: Lexeme)
    requires Packed(g, user, d, forest, la)
    ensures Destroyed(g, user, zero, d.tokenTable, values, d.stack[..1]) == HandAll(g, user, forest[..0])
  {
  }

  lemma DestroyedTop(g: Grammar, user: UserCode, zero: Value, tokenTable: seq<int>, values: seq<Value>, stack: seq<nat>, slot: nat, below: seq<nat>)
    requires |stack| >= 3 && stack[|stack| - 2] == slot && stack[..|stack| - 2] == below
    ensures Destroyed(g, user, zero, tokenTable, values, stack)
         == HandSlot(g, user, tokenTable, values, slot) + Destroyed(g, user, zero, tokenTable, Overwritten(g, user, zero, tokenTable, values, slot), below)
  {
    hide HandSlot, Overwritten;
  }

  lemma PackedTop(g: Grammar, user: UserCode, d: Memory, values: seq<Value>, forest: seq<Tree>, la: Lexeme, m: nat)
    requires g.WellFormed() && ValidForest(g, forest) && Packed(g, user, d, forest, la) && 0 < m <= |forest|
    requires |values| == |d.valueTable| && values[m - 1] == d.valueTable[m - 1]
    ensures |d.stack| > 2 * m && d.stack[..2 * m + 1][2 * m - 1] == m - 1 && d.stack[..2 * m + 1][..2 * m - 1] == d.stack[..2 * m - 1]
    ensures HandSlot(g, user, d.tokenTable, values, m - 1) == HandOne(user, Root(g, forest[m - 1]), Fold(user.reduce, forest[m - 1]))
  {
    hide Fold, HandOne;
    assert d.stack[2 * (m - 1) + 1] == m - 1;
    assert SlotHolds(g, user, d, forest, m - 1);
    assert Valid(g, forest[m - 1]);
    RootInRange(g, forest[m - 1]);
  }

  lemma HandAllTop(g: Grammar, user: UserCode, forest: seq<Tree>, m: nat)
    requires 0 < m <= |forest|
    ensures HandAll(g, user, forest[..m]) == HandOne(user, Root(g, forest[m - 1]), Fold(user.reduce, forest[m - 1])) + HandAll(g, user, forest[..m - 1])
  {
    hide Fold, HandOne;
    assert forest[..m][..m - 1] == forest[..m - 1];
  }

  lemma RootInRange(g: Grammar, t: Tree)
    requires g.WellFormed() && Valid(g, t)
    ensures Root(g, t) < g.tokenN
  {
  }

  /** In a packed memory every value still held goes once to the destructor of its own token. */
  lemma PackedDestroyed(g: Grammar, user: UserCode, zero: Value, d: Memory, forest: seq<Tree>, la: Lexeme, lexing: bool)
    requires g.WellFormed() && ValidForest(g, forest) && Packed(g, user, d, forest, la) && la.tok < g.tokenN && |d.tokenTable| == |d.valueTable|
    ensures ErrorHanded(g, user, zero, d, lexing) == HandedOnError(g, user, forest, la, lexing)
  {
    hide HandOne, Destroyed, HandAll;
    var values := if lexing then d.valueTable else Overwritten(g, user, zero, d.tokenTable, d.valueTable, d.i);
    StackDestroyed(g, user, zero, d, values, forest, la, |forest|);
    assert d.stack[..2 * |forest| + 1] == d.stack && forest[..|forest|] == forest;
  }
}
