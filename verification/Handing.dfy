/** What an error exit hands to the user's destructors, slot by slot and value by value (src/lr.c 158-202). */
module Handings {
  import opened Grammars
  import opened Values
  import opened Memories

  /** The tokens whose values have a destructor. */
  ghost function Destroyable(g: Grammar, user: UserCode): set<nat> {
    set t: nat | t in user.destructors && t < g.tokenN
  }

  /** hs are exactly those of the tokens and values whose token is one of the given ones, in their order. */
  ghost predicate Picks(tokens: set<nat>, all: seq<(int, Value)>, hs: seq<Handed>) {
    exists at: seq<nat> :: PicksAt(tokens, all, hs, at)
  }

  ghost predicate PicksAt(tokens: set<nat>, all: seq<(int, Value)>, hs: seq<Handed>, at: seq<nat>) {
    Rising(at) && Names(all, hs, at) && Chosen(tokens, all, at)
  }

  ghost predicate Rising(at: seq<nat>) {
    forall j, k | 0 <= j < k < |at| :: at[j] < at[k]
  }

  ghost predicate Names(all: seq<(int, Value)>, hs: seq<Handed>, at: seq<nat>) {
    && |at| == |hs|
    && forall k | 0 <= k < |at| :: at[k] < |all| && hs[k].tok == all[at[k]].0 && hs[k].val == all[at[k]].1
  }

  ghost predicate Chosen(tokens: set<nat>, all: seq<(int, Value)>, at: seq<nat>) {
    forall i: nat | i < |all| :: i in at <==> all[i].0 in tokens
  }

  lemma PicksNone(tokens: set<nat>)
    ensures Picks(tokens, [], [])
  {
    assert PicksAt(tokens, [], [], []);
  }

  function Behind(at: seq<nat>): seq<nat> {
    seq(|at|, k requires 0 <= k < |at| => at[k] + 1)
  }

  lemma BehindHas(at: seq<nat>, i: nat)
    ensures i + 1 in Behind(at) <==> i in at
    ensures 0 !in Behind(at)
  {
    var b := Behind(at);
    if i in at {
      var k :| 0 <= k < |at| && at[k] == i;
      assert b[k] == i + 1;
    }
  }

  lemma BehindNames(head: (int, Value), all: seq<(int, Value)>, hs: seq<Handed>, at: seq<nat>)
    requires Rising(at) && Names(all, hs, at)
    ensures Rising(Behind(at)) && Names([head] + all, hs, Behind(at))
  {
    var more, at' := [head] + all, Behind(at);
    forall k | 0 <= k < |at'|
      ensures at'[k] == at[k] + 1 && at[k] < |all| && more[at[k] + 1] == all[at[k]]
    {
    }
  }

  lemma BehindChosen(tokens: set<nat>, head: (int, Value), all: seq<(int, Value)>, at: seq<nat>)
    requires Chosen(tokens, all, at)
    ensures if head.0 in tokens then Chosen(tokens, [head] + all, [0] + Behind(at)) else Chosen(tokens, [head] + all, Behind(at))
  {
    hide Behind;
    var more := [head] + all;
    forall i: nat | i < |more|
      ensures i == 0 || (i in Behind(at) <==> more[i].0 in tokens)
      ensures 0 !in Behind(at)
    {
      BehindHas(at, if i > 0 then i - 1 else 0);
      if i > 0 {
        assert more[i] == all[i - 1];
      }
    }
  }

  lemma PicksSkip(tokens: set<nat>, head: (int, Value), all: seq<(int, Value)>, hs: seq<Handed>)
    requires head.0 !in tokens && Picks(tokens, all, hs)
    ensures Picks(tokens, [head] + all, hs)
  {
    hide Behind, Rising, Names, Chosen;
    var at: seq<nat> :| PicksAt(tokens, all, hs, at);
    BehindNames(head, all, hs, at);
    BehindChosen(tokens, head, all, at);
    assert PicksAt(tokens, [head] + all, hs, Behind(at));
  }

  lemma PicksTake(tokens: set<nat>, tok: nat, val: Value, all: seq<(int, Value)>, hs: seq<Handed>)
    requires tok in tokens && Picks(tokens, all, hs)
    ensures Picks(tokens, [(tok as int, val)] + all, [Handed(tok, val)] + hs)
  {
    hide Behind, Rising, Names, Chosen;
    var at: seq<nat> :| PicksAt(tokens, all, hs, at);
    var head := (tok as int, val);
    BehindNames(head, all, hs, at);
    BehindChosen(tokens, head, all, at);
    FirstNamed(tok, val, all, hs, Behind(at)) by { BehindRises(at); }
    assert PicksAt(tokens, [head] + all, [Handed(tok, val)] + hs, [0] + Behind(at));
  }

  lemma BehindRises(at: seq<nat>)
    ensures forall k | 0 <= k < |Behind(at)| :: Behind(at)[k] > 0
  {
  }

  lemma FirstNamed(tok: nat, val: Value, all: seq<(int, Value)>, hs: seq<Handed>, at: seq<nat>)
    requires Rising(at) && Names([(tok as int, val)] + all, hs, at) && forall k | 0 <= k < |at| :: at[k] > 0
    ensures Rising([0] + at) && Names([(tok as int, val)] + all, [Handed(tok, val)] + hs, [0] + at)
  {
    var at', hs' := [0] + at, [Handed(tok, val)] + hs;
    forall k | 0 <= k < |at'|
      ensures at'[k] == (if k == 0 then 0 else at[k - 1]) && (k > 0 ==> k - 1 < |hs| && hs'[k] == hs[k - 1])
    {
    }
  }

  // ------------------------------------------------ slot by slot, in every run

  /** The slots of a stack from the top down. */
  function SlotsDown(stack: seq<nat>): seq<nat> {
    seq(|stack| / 2, k requires 0 <= k < |stack| / 2 => stack[|stack| - 2 - 2 * k])
  }

  /** The slots that an error exit looks at: the lookahead's, unless it is the error, and then the stack's. */
  function ExitSlots(d: Memory, lexing: bool): seq<nat> {
    (if lexing then [] else [d.i]) + SlotsDown(d.stack)
  }

  /** What a slot holds when it is reached: only zero, if it has been looked at before. */
  function FoundAt(tokenTable: seq<int>, valueTable: seq<Value>, zero: Value, earlier: seq<nat>, slot: nat): (int, Value) {
    if slot < |tokenTable| && slot < |valueTable| then (tokenTable[slot], if slot in earlier then zero else valueTable[slot])
    else (-1, zero)
  }

  function Found(tokenTable: seq<int>, valueTable: seq<Value>, zero: Value, earlier: seq<nat>, slots: seq<nat>): seq<(int, Value)> {
    seq(|slots|, k requires 0 <= k < |slots| => FoundAt(tokenTable, valueTable, zero, earlier + slots[..k], slots[k]))
  }

  lemma FoundCons(tokenTable: seq<int>, valueTable: seq<Value>, zero: Value, earlier: seq<nat>, slot: nat, rest: seq<nat>)
    ensures Found(tokenTable, valueTable, zero, earlier, [slot] + rest)
         == [FoundAt(tokenTable, valueTable, zero, earlier, slot)] + Found(tokenTable, valueTable, zero, earlier + [slot], rest)
  {
    hide FoundAt;
    var all := [slot] + rest;
    assert earlier + all[..0] == earlier;
    forall k | 0 < k < |all|
      ensures earlier + all[..k] == earlier + [slot] + rest[..k - 1] && all[k] == rest[k - 1]
    {
      assert all[..k] == [slot] + rest[..k - 1];
    }
  }

  lemma SlotsDownCons(stack: seq<nat>)
    requires |stack| >= 3
    ensures SlotsDown(stack) == [stack[|stack| - 2]] + SlotsDown(stack[..|stack| - 2])
  {
  }

  /** The value table once the earlier slots have been destroyed. */
  ghost predicate After(tokens: set<nat>, tokenTable: seq<int>, valueTable: seq<Value>, zero: Value, earlier: seq<nat>, now: seq<Value>) {
    && |tokenTable| == |valueTable| == |now|
    && forall k: nat | k < |now| && tokenTable[k] in tokens :: now[k] == if k in earlier then zero else valueTable[k]
  }

  lemma HandedSlot(g: Grammar, user: UserCode, zero: Value, tokenTable: seq<int>, valueTable: seq<Value>, earlier: seq<nat>, now: seq<Value>, slot: nat)
    requires After(Destroyable(g, user), tokenTable, valueTable, zero, earlier, now) && slot < |tokenTable|
    ensures var hs, found := HandSlot(g, user, tokenTable, now, slot), FoundAt(tokenTable, valueTable, zero, earlier, slot);
            if found.0 in Destroyable(g, user) then found.0 >= 0 && hs == [Handed(found.0, found.1)] else hs == []
    ensures After(Destroyable(g, user), tokenTable, valueTable, zero, earlier + [slot], Overwritten(g, user, zero, tokenTable, now, slot))
  {
  }

  lemma {:induction false} DestroyedPicks(g: Grammar, user: UserCode, zero: Value, tokenTable: seq<int>, valueTable: seq<Value>,
                                          earlier: seq<nat>, now: seq<Value>, stack: seq<nat>)
    requires After(Destroyable(g, user), tokenTable, valueTable, zero, earlier, now)
    requires |stack| % 2 == 1 && forall k | 0 <= k < |stack| / 2 :: stack[2 * k + 1] < |tokenTable|
    ensures Picks(Destroyable(g, user), Found(tokenTable, valueTable, zero, earlier, SlotsDown(stack)),
                  Destroyed(g, user, zero, tokenTable, now, stack))
    decreases |stack|
  {
    hide After, FoundAt, Found, HandSlot, Overwritten, Picks, Destroyable, SlotsDown, Destroyed;
    if |stack| < 3 {
      EmptyStack(g, user, zero, tokenTable, valueTable, earlier, now, stack);
      PicksNone(Destroyable(g, user));
    } else {
      var below := stack[..|stack| - 2];
      var slot := stack[2 * (|stack| / 2 - 1) + 1];
      assert slot == stack[|stack| - 2];
      SlotsDownCons(stack);
      FoundCons(tokenTable, valueTable, zero, earlier, slot, SlotsDown(below));
      HandedSlot(g, user, zero, tokenTable, valueTable, earlier, now, slot);
      var now' := Overwritten(g, user, zero, tokenTable, now, slot);
      DestroyedPicks(g, user, zero, tokenTable, valueTable, earlier + [slot], now', below);
      DestroyedTop(g, user, zero, tokenTable, now, stack, slot, below);
      var found := FoundAt(tokenTable, valueTable, zero, earlier, slot);
      PicksNext(Destroyable(g, user), found, HandSlot(g, user, tokenTable, now, slot),
                Found(tokenTable, valueTable, zero, earlier + [slot], SlotsDown(below)), Destroyed(g, user, zero, tokenTable, now', below));
    }
  }

  lemma PicksNext(tokens: set<nat>, head: (int, Value), one: seq<Handed>, all: seq<(int, Value)>, hs: seq<Handed>)
    requires if head.0 in tokens then head.0 >= 0 && one == [Handed(head.0, head.1)] else one == []
    requires Picks(tokens, all, hs)
    ensures Picks(tokens, [head] + all, one + hs)
  {
    hide Picks;
    if head.0 in tokens {
      PicksTake(tokens, head.0, head.1, all, hs);
      assert head == (head.0, head.1);
    } else {
      PicksSkip(tokens, head, all, hs);
      assert one + hs == hs;
    }
  }

  lemma EmptyStack(g: Grammar, user: UserCode, zero: Value, tokenTable: seq<int>, valueTable: seq<Value>, earlier: seq<nat>, now: seq<Value>, stack: seq<nat>)
    requires |stack| == 1
    ensures Found(tokenTable, valueTable, zero, earlier, SlotsDown(stack)) == []
    ensures Destroyed(g, user, zero, tokenTable, now, stack) == []
  {
  }

  /** In every run an error exit hands over, in this order, what the lookahead's slot and then the stacked slots
      from the top down hold, for every token that has a destructor: a value once, and only zero when a slot is
      met again. */
  lemma ErrorHandsOver(g: Grammar, user: UserCode, zero: Value, d: Memory, lexing: bool)
    requires SlotsInUse(d) && |d.stack| % 2 == 1
    ensures Picks(Destroyable(g, user), Found(d.tokenTable, d.valueTable, zero, [], ExitSlots(d, lexing)), ErrorHanded(g, user, zero, d, lexing))
  {
    hide FoundAt, Found, HandSlot, Overwritten, Picks, Destroyable, SlotsDown, Destroyed;
    FirstAfter(g, user, zero, d);
    if lexing {
      DestroyedPicks(g, user, zero, d.tokenTable, d.valueTable, [], d.valueTable, d.stack);
      assert ExitSlots(d, lexing) == SlotsDown(d.stack);
    } else {
      HandedSlot(g, user, zero, d.tokenTable, d.valueTable, [], d.valueTable, d.i);
      var now := Overwritten(g, user, zero, d.tokenTable, d.valueTable, d.i);
      assert [] + [d.i] == [d.i];
      DestroyedPicks(g, user, zero, d.tokenTable, d.valueTable, [d.i], now, d.stack);
      FoundCons(d.tokenTable, d.valueTable, zero, [], d.i, SlotsDown(d.stack));
      PicksNext(Destroyable(g, user), FoundAt(d.tokenTable, d.valueTable, zero, [], d.i), HandSlot(g, user, d.tokenTable, d.valueTable, d.i),
                Found(d.tokenTable, d.valueTable, zero, [d.i], SlotsDown(d.stack)), Destroyed(g, user, zero, d.tokenTable, now, d.stack));
    }
  }

  lemma FirstAfter(g: Grammar, user: UserCode, zero: Value, d: Memory)
    requires |d.tokenTable| == |d.valueTable|
    ensures After(Destroyable(g, user), d.tokenTable, d.valueTable, zero, [], d.valueTable)
  {
  }

  // ------------------------------------------------ value by value, without empty reductions

  /** The tokens and values that a configuration still holds: the lookahead's, unless it is the error, and then
      those of the stacked trees from the top down. */
  function StillHeld(g: Grammar, user: UserCode, forest: seq<Tree>, la: Lexeme, lexing: bool): seq<(int, Value)> {
    (if lexing then [] else [(la.tok, la.val)])
    + seq(|forest|, k requires 0 <= k < |forest| =>
        (Root(g, forest[|forest| - 1 - k]) as int, Fold(user.reduce, forest[|forest| - 1 - k])))
  }

  lemma PackedSlots(g: Grammar, user: UserCode, d: Memory, forest: seq<Tree>, la: Lexeme, lexing: bool)
    requires Packed(g, user, d, forest, la)
    ensures ExitSlots(d, lexing) == (if lexing then [] else [|forest|]) + seq(|forest|, k requires 0 <= k < |forest| => |forest| - 1 - k)
  {
    hide SlotHolds;
    var n := |forest|;
    forall k | 0 <= k < n
      ensures d.stack[|d.stack| - 2 - 2 * k] == n - 1 - k
    {
      assert d.stack[2 * (n - 1 - k) + 1] == n - 1 - k;
    }
  }

  lemma PackedFound(g: Grammar, user: UserCode, zero: Value, d: Memory, forest: seq<Tree>, la: Lexeme, lexing: bool)
    requires Packed(g, user, d, forest, la)
    ensures Found(d.tokenTable, d.valueTable, zero, [], ExitSlots(d, lexing)) == StillHeld(g, user, forest, la, lexing)
  {
    hide Packed, Fold, ExitSlots;
    PackedSlots(g, user, d, forest, la, lexing);
    var slots, n, m := ExitSlots(d, lexing), |forest|, if lexing then 0 else 1;
    forall k | 0 <= k < |slots|
      ensures FoundAt(d.tokenTable, d.valueTable, zero, [] + slots[..k], slots[k]) == StillHeld(g, user, forest, la, lexing)[k]
    {
      assert slots[k] == n + m - 1 - k;
      assert forall j | 0 <= j < k :: slots[j] == n + m - 1 - j;
      PackedFoundAt(g, user, d, forest, la, slots[k]);
    }
  }

  lemma PackedFoundAt(g: Grammar, user: UserCode, d: Memory, forest: seq<Tree>, la: Lexeme, slot: nat)
    requires Packed(g, user, d, forest, la) && slot <= |forest|
    ensures slot < |d.tokenTable| && slot < |d.valueTable|
    ensures d.tokenTable[slot] == if slot == |forest| then la.tok else Root(g, forest[slot])
    ensures d.valueTable[slot] == if slot == |forest| then la.val else Fold(user.reduce, forest[slot])
  {
    hide Fold;
    if slot < |forest| {
      assert SlotHolds(g, user, d, forest, slot);
    }
  }

  /** Without empty reductions an error exit hands each value still held to the destructor of its own token, if
      there is one: the lookahead first, and then the stacked trees from the top down. */
  lemma PackedHandsOver(g: Grammar, user: UserCode, zero: Value, d: Memory, forest: seq<Tree>, la: Lexeme, lexing: bool)
    requires Packed(g, user, d, forest, la) && SlotsInUse(d)
    ensures Picks(Destroyable(g, user), StillHeld(g, user, forest, la, lexing), ErrorHanded(g, user, zero, d, lexing))
  {
    hide Found, Picks, Destroyable, StillHeld, ErrorHanded, SlotsInUse;
    PackedSize(g, user, d, forest, la);
    ErrorHandsOver(g, user, zero, d, lexing);
    PackedFound(g, user, zero, d, forest, la, lexing);
  }

  function Pairs(hs: seq<Handed>): seq<(int, Value)> {
    seq(|hs|, k requires 0 <= k < |hs| => (hs[k].tok as int, hs[k].val))
  }

  /** As a multiset: each token and value as often as it is held, if the token has a destructor. */
  lemma {:induction false} PicksBalance(tokens: set<nat>, all: seq<(int, Value)>, hs: seq<Handed>, p: (int, Value))
    requires Picks(tokens, all, hs)
    ensures multiset(Pairs(hs))[p] == if p.0 in tokens then multiset(all)[p] else 0
    decreases |all|
  {
    hide Picks;
    if all == [] {
      PicksFew(tokens, all, hs);
    } else {
      PicksHead(tokens, all, hs);
      assert all == [all[0]] + all[1..];
      if all[0].0 in tokens {
        PicksBalance(tokens, all[1..], hs[1..], p);
        assert Pairs(hs) == [all[0]] + Pairs(hs[1..]);
      } else {
        PicksBalance(tokens, all[1..], hs, p);
      }
    }
  }

  lemma PicksFew(tokens: set<nat>, all: seq<(int, Value)>, hs: seq<Handed>)
    requires Picks(tokens, all, hs)
    ensures hs != [] ==> all != []
  {
    var at: seq<nat> :| PicksAt(tokens, all, hs, at);
    if hs != [] {
      assert at[0] < |all|;
    }
  }

  lemma PicksHead(tokens: set<nat>, all: seq<(int, Value)>, hs: seq<Handed>)
    requires Picks(tokens, all, hs) && all != []
    ensures all[0].0 in tokens ==> hs != [] && hs[0].tok == all[0].0 && hs[0].val == all[0].1 && Picks(tokens, all[1..], hs[1..])
    ensures all[0].0 !in tokens ==> Picks(tokens, all[1..], hs)
  {
    hide Rising, Names, Chosen;
    var at: seq<nat> :| PicksAt(tokens, all, hs, at);
    if all[0].0 in tokens {
      FirstIsZero(tokens, all, at);
      RestNamed(all, hs, at);
      RestChosen(tokens, all, at);
      AheadNames(all, hs[1..], at[1..]);
      AheadChosen(tokens, all, at[1..]);
      assert PicksAt(tokens, all[1..], hs[1..], InFront(at[1..]));
    } else {
      NoneIsZero(tokens, all, at);
      ChosenBehind(tokens, all, at);
      AheadNames(all, hs, at);
      AheadChosen(tokens, all, at);
      assert PicksAt(tokens, all[1..], hs, InFront(at));
    }
  }

  lemma ChosenBehind(tokens: set<nat>, all: seq<(int, Value)>, at: seq<nat>)
    requires Chosen(tokens, all, at)
    ensures forall i: nat | 0 < i < |all| :: i in at <==> all[i].0 in tokens
  {
  }

  ghost predicate Positive(at: seq<nat>) {
    forall k | 0 <= k < |at| :: at[k] > 0
  }

  function InFront(at: seq<nat>): seq<nat> {
    seq(|at|, k requires 0 <= k < |at| => if at[k] > 0 then at[k] - 1 else 0)
  }

  lemma FirstIsZero(tokens: set<nat>, all: seq<(int, Value)>, at: seq<nat>)
    requires Rising(at) && Chosen(tokens, all, at) && all != [] && all[0].0 in tokens
    ensures at != [] && at[0] == 0 && Positive(at[1..])
  {
    assert 0 in at;
    var k: nat :| k < |at| && at[k] == 0;
    ZeroIsFirst(at, k);
  }

  lemma ZeroIsFirst(at: seq<nat>, k: nat)
    requires Rising(at) && k < |at| && at[k] == 0
    ensures k == 0 && Positive(at[1..])
  {
    forall j | 0 < j < |at|
      ensures at[j] > at[0]
    {
    }
  }

  lemma NoneIsZero(tokens: set<nat>, all: seq<(int, Value)>, at: seq<nat>)
    requires Chosen(tokens, all, at) && all != [] && all[0].0 !in tokens
    ensures Positive(at)
  {
    assert 0 !in at;
    forall k | 0 <= k < |at|
      ensures at[k] > 0
    {
      assert at[k] in at;
    }
  }

  lemma RestNamed(all: seq<(int, Value)>, hs: seq<Handed>, at: seq<nat>)
    requires Rising(at) && Names(all, hs, at) && at != [] && at[0] == 0
    ensures hs != [] && hs[0].tok == all[0].0 && hs[0].val == all[0].1 && Rising(at[1..]) && Names(all, hs[1..], at[1..])
  {
  }

  lemma RestChosen(tokens: set<nat>, all: seq<(int, Value)>, at: seq<nat>)
    requires Chosen(tokens, all, at) && at != [] && at[0] == 0
    ensures forall i: nat | 0 < i < |all| :: i in at[1..] <==> all[i].0 in tokens
  {
    forall i: nat | 0 < i < |all|
      ensures i in at[1..] <==> i in at
    {
      assert at == [0] + at[1..];
    }
  }

  lemma AheadNames(all: seq<(int, Value)>, hs: seq<Handed>, at: seq<nat>)
    requires Rising(at) && Names(all, hs, at) && Positive(at) && all != []
    ensures Rising(InFront(at)) && Names(all[1..], hs, InFront(at))
  {
    var less := InFront(at);
    forall k | 0 <= k < |less|
      ensures less[k] == at[k] - 1 && at[k] < |all| && all[1..][less[k]] == all[at[k]]
    {
    }
  }

  lemma AheadChosen(tokens: set<nat>, all: seq<(int, Value)>, at: seq<nat>)
    requires Positive(at) && all != [] && forall i: nat | 0 < i < |all| :: i in at <==> all[i].0 in tokens
    ensures Chosen(tokens, all[1..], InFront(at))
  {
    hide InFront;
    forall i: nat | i < |all[1..]|
      ensures i in InFront(at) <==> all[1..][i].0 in tokens
    {
      InFrontHas(at, i);
      assert all[1..][i] == all[i + 1];
    }
  }

  lemma InFrontHas(at: seq<nat>, i: nat)
    requires Positive(at)
    ensures i in InFront(at) <==> i + 1 in at
  {
    var less := InFront(at);
    if i + 1 in at {
      var k: nat :| k < |at| && at[k] == i + 1;
      assert less[k] == i;
    }
    if i in less {
      var k: nat :| k < |less| && less[k] == i;
      assert at[k] == i + 1;
    }
  }
}
