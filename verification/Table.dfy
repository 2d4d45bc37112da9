/** Packed table words and what a table must hold for a state graph (include/neoast.h 68-94,
    src/lr.c 26-33, src/parsergen/derivation.cc 195-279). */
module Tables {
  import opened Grammars
  import opened Closures
  import opened Automata

  const TOK_ACCEPT_MASK: nat := 0x2000_0000
  const TOK_SHIFT_MASK: nat := 0x4000_0000
  const TOK_REDUCE_MASK: nat := 0x8000_0000
  const TOK_SYNTAX_ERROR: nat := 0

  /** Payloads fit below the mask bits. */
  const CAPACITY: nat := 0x2000_0000

  /** Whether the bit of a mask is set in a word. */
  predicate Has(w: nat, mask: nat)
    requires mask > 0
  {
    (w / mask) % 2 == 1
  }

  /** The word's TOK_MASK bits. */
  function Payload(w: nat): nat {
    w % CAPACITY
  }

  /** The bitwise or of one mask and a payload; their bits are disjoint. */
  function Pack(mask: nat, payload: nat): nat
    requires payload < CAPACITY
  {
    mask + payload
  }

  datatype Action = Error | Shift(state: nat) | Reduce(rule: nat) | Accept | Garbage

  /** The order in which the driver tests a word. */
  function Decode(w: nat): Action {
    if w == TOK_SYNTAX_ERROR then Error
    else if Has(w, TOK_SHIFT_MASK) then Shift(Payload(w))
    else if Has(w, TOK_REDUCE_MASK) then Reduce(Payload(w))
    else if Has(w, TOK_ACCEPT_MASK) then Accept
    else Garbage
  }

  lemma DecodeShift(w: nat)
    requires Decode(w).Shift?
    ensures Payload(w) == Decode(w).state
  {
  }

  /** The move fits in a word. */
  predicate Packs(act: Action) {
    !act.Garbage? && (act.Shift? ==> act.state < CAPACITY) && (act.Reduce? ==> act.rule < CAPACITY)
  }

  function Encode(act: Action): nat
    requires Packs(act)
  {
    match act
    case Error => TOK_SYNTAX_ERROR
    case Shift(t) => Pack(TOK_SHIFT_MASK, t)
    case Reduce(r) => Pack(TOK_REDUCE_MASK, r)
    case Accept => TOK_ACCEPT_MASK
  }

  /** Packing loses nothing, and the mask tests tell the three moves apart. */
  lemma DecodeEncode(act: Action)
    requires Packs(act)
    ensures Decode(Encode(act)) == act
    ensures Encode(act) == match act
              case Shift(t) => 0x4000_0000 + t
              case Reduce(r) => 0x8000_0000 + r
              case Accept => 0x2000_0000
              case _ => 0
    ensures !act.Error? ==> Encode(act) != TOK_SYNTAX_ERROR
    ensures Has(Encode(act), TOK_SHIFT_MASK) <==> act.Shift?
    ensures Has(Encode(act), TOK_REDUCE_MASK) <==> act.Reduce?
    ensures Payload(Encode(act)) == match act case Shift(t) => t case Reduce(r) => r case _ => 0
    ensures Encode(act) < 0x1_0000_0000
  {
    match act
    case Shift(t) => ShiftMasks(t);
    case Reduce(r) => ReduceMasks(r);
    case _ =>
  }

  lemma ShiftMasks(t: nat)
    requires t < CAPACITY
    ensures var w := Pack(TOK_SHIFT_MASK, t);
            0 < w < 0x1_0000_0000 && Has(w, TOK_SHIFT_MASK) && !Has(w, TOK_REDUCE_MASK) && Payload(w) == t
  {
    var w := Pack(TOK_SHIFT_MASK, t);
    assert w / TOK_SHIFT_MASK == 1 && w / TOK_REDUCE_MASK == 0 && w / CAPACITY == 2;
  }

  lemma ReduceMasks(r: nat)
    requires r < CAPACITY
    ensures var w := Pack(TOK_REDUCE_MASK, r);
            0 < w < 0x1_0000_0000 && !Has(w, TOK_SHIFT_MASK) && Has(w, TOK_REDUCE_MASK) && Payload(w) == r
  {
    var w := Pack(TOK_REDUCE_MASK, r);
    assert w / TOK_SHIFT_MASK == 2 && w / TOK_REDUCE_MASK == 1 && w / CAPACITY == 4;
  }

  // ------------------------------------------------ rows and columns

  function Offset(g: Grammar, s: nat, x: nat): nat {
    s * g.tokenN + x
  }

  lemma {:induction false} RowStep(a: nat, b: nat, n: nat)
    requires a < b
    ensures a * n + n <= b * n
    decreases b - a
  {
    assert b * n == (b - 1) * n + n;
    if a < b - 1 {
      RowStep(a, b - 1, n);
    }
  }

  /** Rows never overlap. */
  lemma OffsetInjective(g: Grammar, s: nat, x: nat, s2: nat, x2: nat)
    requires x < g.tokenN && x2 < g.tokenN && Offset(g, s, x) == Offset(g, s2, x2)
    ensures s == s2 && x == x2
  {
    if s < s2 {
      RowStep(s, s2, g.tokenN);
    } else if s2 < s {
      RowStep(s2, s, g.tokenN);
    }
  }

  lemma OffsetInTable(g: Grammar, n: nat, s: nat, x: nat)
    requires s < n && x < g.tokenN
    ensures Offset(g, s, x) < n * g.tokenN
  {
    RowStep(s, n, g.tokenN);
  }

  /** A table of n rows. */
  ghost predicate IsTable(g: Grammar, n: nat, t: seq<nat>) {
    |t| == n * g.tokenN
  }

  function Cell(g: Grammar, t: seq<nat>, s: nat, x: nat): Action {
    if x < g.tokenN && Offset(g, s, x) < |t| then Decode(t[Offset(g, s, x)]) else Garbage
  }

  // ------------------------------------------------ what the items of a state ask for

  /** The final item of rule r is in the state with x among its lookaheads. */
  predicate Reduces(g: Grammar, m: ItemSet, r: nat, x: nat) {
    && r < |g.rules|
    && Item(r, |g.rules[r].rhs|) in m
    && x in m[Item(r, |g.rules[r].rhs|)]
  }

  ghost predicate Candidate(g: Grammar, m: ItemSet, trans: map<nat, nat>, x: nat, act: Action) {
    match act
    case Shift(t) => x in trans && trans[x] == t
    case Reduce(r) => r > 0 && Reduces(g, m, r, x)
    case Accept => Reduces(g, m, 0, x)
    case _ => false
  }

  /** Every cell holds a move that the items of its state ask for, if there is one. */
  ghost predicate TableSound(g: Grammar, a: Automaton, t: seq<nat>)
    requires |a.states| == |a.trans|
  {
    && IsTable(g, |a.states|, t)
    && (forall s, x | 0 <= s < |a.states| && 0 <= x < g.tokenN :: CellSound(g, a.states[s], a.trans[s], x, Cell(g, t, s, x)))
  }

  ghost predicate CellSound(g: Grammar, m: ItemSet, trans: map<nat, nat>, x: nat, act: Action) {
    if act == Error then forall other :: !Candidate(g, m, trans, x, other)
    else Candidate(g, m, trans, x, act)
  }

  /** No cell was asked for two moves, so that all moves asked for are in the table. */
  ghost predicate TableComplete(g: Grammar, a: Automaton, t: seq<nat>)
    requires |a.states| == |a.trans|
  {
    forall s, x, act | 0 <= s < |a.states| && 0 <= x < g.tokenN && Candidate(g, a.states[s], a.trans[s], x, act) ::
      Cell(g, t, s, x) == act
  }
}
