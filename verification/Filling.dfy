/** Filling one row of the table (src/parsergen/derivation.cc 195-279). */
module Fillings {
  import opened Grammars
  import opened Closures
  import opened Tables

  datatype Precedence = NONE | LEFT | RIGHT

  /** The precedence table, or null. */
  datatype PrecedenceTable = Null | Table(entries: seq<Precedence>) {

    /** The entry for x says p. */
    predicate Says(x: nat, p: Precedence) {
      Table? && x < |entries| && entries[x] == p
    }

    /** No entry says what to do with x. */
    predicate Undecided(x: nat) {
      Null? || x >= |entries| || entries[x] == NONE
    }

    function At(x: nat): (p: Precedence)
      ensures p == NONE <==> Undecided(x)
      ensures p == LEFT <==> Says(x, LEFT)
      ensures p == RIGHT <==> Says(x, RIGHT)
    {
      if Table? && x < |entries| then entries[x] else NONE
    }
  }

  function ActionOf(it: Item): Action {
    if it.rule == 0 then Accept else Reduce(it.rule)
  }

  // ------------------------------------------------ placing one reduction in a cell

  predicate MeetsReduce(word: nat) {
    word != TOK_SYNTAX_ERROR && Has(word, TOK_REDUCE_MASK)
  }

  predicate MeetsShift(word: nat) {
    word != TOK_SYNTAX_ERROR && !Has(word, TOK_REDUCE_MASK) && Has(word, TOK_SHIFT_MASK)
  }

  function Placed(word: nat, it: Item, p: Precedence): nat
    requires it.rule < CAPACITY
  {
    if MeetsShift(word) && p == RIGHT then word else Encode(ActionOf(it))
  }

  predicate CountsShiftReduce(word: nat, p: Precedence) {
    MeetsShift(word) && p == NONE
  }

  // ------------------------------------------------ what a row holds so far

  /** done are the pairs of a final item and a lookahead that have been placed. */
  type Pairs = set<(Item, nat)>

  ghost predicate AnyAt(done: Pairs, x: nat) {
    exists it: Item :: (it, x) in done
  }

  /** The word is a move asked for, and there is a word if any move was asked for. */
  ghost predicate CellAsked(trans: map<nat, nat>, done: Pairs, x: nat, word: nat)
    requires forall y | y in trans :: trans[y] < CAPACITY
    requires forall i, y | (i, y) in done :: i.rule < CAPACITY
  {
    if word == TOK_SYNTAX_ERROR then x !in trans && !AnyAt(done, x)
    else (x in trans && word == Encode(Shift(trans[x]))) || exists it: Item :: (it, x) in done && word == Encode(ActionOf(it))
  }

  /** Without a counted conflict the word is fixed by the pairs and the precedence alone: RIGHT
      keeps the shift, LEFT takes the reduction, and a reduction displaces an acceptance. */
  ghost predicate CellFixed(trans: map<nat, nat>, prec: PrecedenceTable, done: Pairs, x: nat, word: nat)
    requires forall y | y in trans :: trans[y] < CAPACITY
    requires forall i, y | (i, y) in done :: i.rule < CAPACITY
  {
    && (x in trans && AnyAt(done, x) ==> !prec.Undecided(x))
    && (x in trans && (prec.Says(x, RIGHT) || !AnyAt(done, x)) ==> word == Encode(Shift(trans[x])))
    && (forall it: Item | (it, x) in done && !(x in trans && prec.Says(x, RIGHT)) ::
          if it.rule != 0 then word == Encode(Reduce(it.rule))
          else word == Encode(Accept) || exists other: Item :: (other, x) in done && other.rule != 0)
  }

  ghost predicate Fits(trans: map<nat, nat>, done: Pairs) {
    && (forall y | y in trans :: trans[y] < CAPACITY)
    && (forall i, y | (i, y) in done :: i.rule < CAPACITY)
  }

  lemma PlaceAsked(trans: map<nat, nat>, prec: PrecedenceTable, done: Pairs, it: Item, x: nat, word: nat)
    requires Fits(trans, done) && it.rule < CAPACITY && CellAsked(trans, done, x, word)
    ensures CellAsked(trans, done + {(it, x)}, x, Placed(word, it, prec.At(x)))
  {
    DecodeEncode(ActionOf(it));
    var more := done + {(it, x)};
    assert (it, x) in more;
    if word != TOK_SYNTAX_ERROR && !(x in trans && word == Encode(Shift(trans[x]))) {
      var i: Item :| (i, x) in done && word == Encode(ActionOf(i));
      assert (i, x) in more;
    }
  }

  /** A word that was asked for tells by its masks which kind of move it is. */
  lemma AskedMasks(trans: map<nat, nat>, done: Pairs, x: nat, word: nat)
    requires Fits(trans, done) && CellAsked(trans, done, x, word)
    ensures MeetsShift(word) ==> x in trans && word == Encode(Shift(trans[x]))
    ensures x in trans && word == Encode(Shift(trans[x])) ==> MeetsShift(word)
    ensures forall i: Item | (i, x) in done && i.rule != 0 && word == Encode(ActionOf(i)) :: MeetsReduce(word)
  {
    if x in trans {
      DecodeEncode(Shift(trans[x]));
    }
    if word != TOK_SYNTAX_ERROR && !(x in trans && word == Encode(Shift(trans[x]))) {
      var i: Item :| (i, x) in done && word == Encode(ActionOf(i));
      DecodeEncode(ActionOf(i));
    }
    forall i: Item | (i, x) in done && i.rule != 0 && word == Encode(ActionOf(i))
      ensures MeetsReduce(word)
    {
      DecodeEncode(ActionOf(i));
    }
  }

  lemma PlaceFixed(trans: map<nat, nat>, prec: PrecedenceTable, done: Pairs, it: Item, x: nat, word: nat)
    requires Fits(trans, done) && it.rule < CAPACITY && CellAsked(trans, done, x, word)
    requires CellFixed(trans, prec, done, x, word) && !MeetsReduce(word) && !CountsShiftReduce(word, prec.At(x))
    ensures CellFixed(trans, prec, done + {(it, x)}, x, Placed(word, it, prec.At(x)))
  {
    hide CellAsked, Encode, MeetsReduce, MeetsShift;
    AskedMasks(trans, done, x, word);
    var more := done + {(it, x)};
    assert (it, x) in more;
    var word' := Placed(word, it, prec.At(x));
    if !(x in trans && prec.Says(x, RIGHT)) {
      forall i: Item | (i, x) in more
        ensures if i.rule != 0 then word' == Encode(Reduce(i.rule))
                else word' == Encode(Accept) || exists other: Item :: (other, x) in more && other.rule != 0
      {
        PlaceFixedItem(trans, prec, done, it, x, word, i);
      }
    }
  }

  lemma PlaceFixedItem(trans: map<nat, nat>, prec: PrecedenceTable, done: Pairs, it: Item, x: nat, word: nat, i: Item)
    requires Fits(trans, done) && it.rule < CAPACITY && CellAsked(trans, done, x, word)
    requires CellFixed(trans, prec, done, x, word) && !MeetsReduce(word) && !CountsShiftReduce(word, prec.At(x))
    requires !(x in trans && prec.Says(x, RIGHT)) && (i, x) in done + {(it, x)}
    ensures var word' := Placed(word, it, prec.At(x));
            if i.rule != 0 then word' == Encode(Reduce(i.rule))
            else word' == Encode(Accept) || exists other: Item :: (other, x) in done + {(it, x)} && other.rule != 0
  {
    hide CellAsked, Encode, MeetsReduce, MeetsShift;
    AskedMasks(trans, done, x, word);
    assert (it, x) in done + {(it, x)};
    if i != it && i.rule == 0 && it.rule == 0 && word != Encode(Accept) {
      var other: Item :| (other, x) in done && other.rule != 0;
      assert (other, x) in done + {(it, x)};
    }
  }

  /** The whole row: every cell asked for, and fixed if clean. */
  ghost predicate RowSoFar(g: Grammar, trans: map<nat, nat>, prec: PrecedenceTable, done: Pairs, row: seq<nat>, clean: bool)
    requires Fits(trans, done)
  {
    && |row| == g.tokenN
    && (forall x | 0 <= x < g.tokenN :: CellAsked(trans, done, x, row[x]))
    && (clean ==> forall x | 0 <= x < g.tokenN :: CellFixed(trans, prec, done, x, row[x]))
  }

  /** A token that can be shifted and reduced on, without a precedence to decide. */
  ghost predicate Clash(trans: map<nat, nat>, prec: PrecedenceTable, done: Pairs) {
    exists x: nat :: x in trans && AnyAt(done, x) && prec.Undecided(x)
  }

  /** RIGHT keeps the token's shift against every reduction. */
  predicate Kept(trans: map<nat, nat>, prec: PrecedenceTable, x: nat) {
    x in trans && prec.Says(x, RIGHT)
  }

  /** A token on which a rule is to be reduced and another final item asks for a move as well. */
  ghost predicate Contested(trans: map<nat, nat>, prec: PrecedenceTable, done: Pairs) {
    exists i: Item, k: Item, x: nat :: ContestedBy(trans, prec, done, i, k, x)
  }

  ghost predicate ContestedBy(trans: map<nat, nat>, prec: PrecedenceTable, done: Pairs, i: Item, k: Item, x: nat) {
    i != k && (i, x) in done && (k, x) in done && i.rule != 0 && !Kept(trans, prec, x)
  }

  /** A token on which two rules are to be reduced, neither of them the augment rule. */
  ghost predicate Doubled(trans: map<nat, nat>, prec: PrecedenceTable, done: Pairs) {
    exists i: Item, k: Item, x: nat :: ContestedBy(trans, prec, done, i, k, x) && k.rule != 0
  }

  /** A kept shift stays, and until a conflict is counted a reduction placed on x can be told from the word. */
  ghost predicate CellTold(trans: map<nat, nat>, prec: PrecedenceTable, done: Pairs, x: nat, word: nat, counted: bool) {
    && (Kept(trans, prec, x) ==> MeetsShift(word))
    && (counted || Kept(trans, prec, x) || forall it: Item | (it, x) in done && it.rule != 0 :: MeetsReduce(word))
  }

  /** A reduce/reduce conflict has been counted only where there is a contest, and if two rules meet. */
  ghost predicate RowCounted(g: Grammar, trans: map<nat, nat>, prec: PrecedenceTable, done: Pairs, row: seq<nat>, counted: bool) {
    && |row| == g.tokenN
    && (forall x | 0 <= x < g.tokenN :: CellTold(trans, prec, done, x, row[x], counted))
    && (counted ==> Contested(trans, prec, done))
    && (Doubled(trans, prec, done) ==> counted)
  }

  /** Nothing of an item has been placed yet from column n on. */
  ghost predicate Untouched(done: Pairs, it: Item, n: nat) {
    forall x | x >= n :: (it, x) !in done
  }

  lemma ContestedMore(trans: map<nat, nat>, prec: PrecedenceTable, done: Pairs, more: Pairs)
    requires done <= more && Contested(trans, prec, done)
    ensures Contested(trans, prec, more)
  {
    var i, k, x :| ContestedBy(trans, prec, done, i, k, x);
    assert ContestedBy(trans, prec, more, i, k, x);
  }

  /** A word with the reduce mask was asked for by another item. */
  lemma MeetsContested(trans: map<nat, nat>, prec: PrecedenceTable, done: Pairs, it: Item, x: nat, word: nat)
    requires Fits(trans, done) && CellAsked(trans, done, x, word) && MeetsReduce(word) && (it, x) !in done
    requires Kept(trans, prec, x) ==> MeetsShift(word)
    ensures Contested(trans, prec, done + {(it, x)})
  {
    if x in trans {
      DecodeEncode(Shift(trans[x]));
    }
    var i: Item :| (i, x) in done && word == Encode(ActionOf(i));
    DecodeEncode(ActionOf(i));
    assert ContestedBy(trans, prec, done + {(it, x)}, i, it, x);
  }

  /** Two rules meet only at a word that tells of the first. */
  lemma DoubledMeets(trans: map<nat, nat>, prec: PrecedenceTable, done: Pairs, it: Item, x: nat, word: nat)
    requires CellTold(trans, prec, done, x, word, false) && Doubled(trans, prec, done + {(it, x)})
    ensures MeetsReduce(word) || Doubled(trans, prec, done)
  {
    hide MeetsReduce, MeetsShift;
    var more := done + {(it, x)};
    var i: Item, k: Item, y: nat :| ContestedBy(trans, prec, more, i, k, y) && k.rule != 0;
    if (i, y) in done && (k, y) in done {
      assert ContestedBy(trans, prec, done, i, k, y);
    } else {
      assert y == x && ((i, x) in done || (k, x) in done);
    }
  }

  lemma PlaceTold(trans: map<nat, nat>, prec: PrecedenceTable, done: Pairs, it: Item, x: nat, word: nat, counted: bool)
    requires Fits(trans, done) && it.rule < CAPACITY && CellAsked(trans, done, x, word) && CellTold(trans, prec, done, x, word, counted)
    ensures CellTold(trans, prec, done + {(it, x)}, x, Placed(word, it, prec.At(x)), counted || MeetsReduce(word))
  {
    hide CellAsked, Encode, Has;
    AskedMasks(trans, done, x, word);
    DecodeEncode(ActionOf(it));
  }

  lemma OtherTold(trans: map<nat, nat>, prec: PrecedenceTable, done: Pairs, it: Item, x: nat, y: nat, word: nat, counted: bool, counted': bool)
    requires x != y && CellTold(trans, prec, done, y, word, counted) && (counted ==> counted')
    ensures CellTold(trans, prec, done + {(it, x)}, y, word, counted')
  {
    hide MeetsReduce, MeetsShift;
  }

  lemma CountPlace(g: Grammar, trans: map<nat, nat>, prec: PrecedenceTable, done: Pairs, row: seq<nat>, counted: bool, it: Item, x: nat)
    requires Fits(trans, done) && it.rule < CAPACITY && x < g.tokenN && (it, x) !in done
    requires |row| == g.tokenN && CellAsked(trans, done, x, row[x]) && RowCounted(g, trans, prec, done, row, counted)
    ensures RowCounted(g, trans, prec, done + {(it, x)}, row[x := Placed(row[x], it, prec.At(x))], counted || MeetsReduce(row[x]))
  {
    hide CellAsked, CellTold, Placed, MeetsReduce, Contested, Doubled, Fits;
    var counted' := counted || MeetsReduce(row[x]);
    var more, row' := done + {(it, x)}, row[x := Placed(row[x], it, prec.At(x))];
    assert CellTold(trans, prec, done, x, row[x], counted);
    forall y | 0 <= y < g.tokenN
      ensures CellTold(trans, prec, more, y, row'[y], counted')
    {
      if y == x {
        PlaceTold(trans, prec, done, it, x, row[x], counted);
      } else {
        OtherTold(trans, prec, done, it, x, y, row[y], counted, counted');
      }
    }
    if counted {
      ContestedMore(trans, prec, done, more);
    } else if counted' {
      KeptTold(trans, prec, done, x, row[x], counted);
      MeetsContested(trans, prec, done, it, x, row[x]);
    } else if Doubled(trans, prec, more) {
      DoubledMeets(trans, prec, done, it, x, row[x]);
    }
  }

  lemma KeptTold(trans: map<nat, nat>, prec: PrecedenceTable, done: Pairs, x: nat, word: nat, counted: bool)
    requires CellTold(trans, prec, done, x, word, counted)
    ensures Kept(trans, prec, x) ==> MeetsShift(word)
  {
  }

  lemma OtherCell(trans: map<nat, nat>, prec: PrecedenceTable, done: Pairs, it: Item, x: nat, y: nat, word: nat)
    requires Fits(trans, done) && it.rule < CAPACITY && x != y
    ensures Fits(trans, done + {(it, x)})
    ensures CellAsked(trans, done, y, word) ==> CellAsked(trans, done + {(it, x)}, y, word)
    ensures CellFixed(trans, prec, done, y, word) ==> CellFixed(trans, prec, done + {(it, x)}, y, word)
  {
    var more := done + {(it, x)};
    assert forall i: Item :: (i, y) in more <==> (i, y) in done;
    assert AnyAt(more, y) <==> AnyAt(done, y);
  }

  lemma RowPlace(g: Grammar, trans: map<nat, nat>, prec: PrecedenceTable, done: Pairs, row: seq<nat>, clean: bool, it: Item, x: nat)
    requires Fits(trans, done) && RowSoFar(g, trans, prec, done, row, clean) && it.rule < CAPACITY && x < g.tokenN
    ensures Fits(trans, done + {(it, x)})
    ensures RowSoFar(g, trans, prec, done + {(it, x)}, row[x := Placed(row[x], it, prec.At(x))],
                     clean && !MeetsReduce(row[x]) && !CountsShiftReduce(row[x], prec.At(x)))
  {
    hide CellAsked, CellFixed, Placed, MeetsReduce, CountsShiftReduce;
    var clean' := clean && !MeetsReduce(row[x]) && !CountsShiftReduce(row[x], prec.At(x));
    var row' := row[x := Placed(row[x], it, prec.At(x))];
    forall y | 0 <= y < g.tokenN
      ensures CellAsked(trans, done + {(it, x)}, y, row'[y])
      ensures clean' ==> CellFixed(trans, prec, done + {(it, x)}, y, row'[y])
    {
      if y == x {
        PlaceAsked(trans, prec, done, it, x, row[x]);
        if clean' {
          PlaceFixed(trans, prec, done, it, x, row[x]);
        }
      } else {
        OtherCell(trans, prec, done, it, x, y, row[y]);
      }
    }
  }

  /** A counted shift/reduce conflict is a clash, and the first reduction to meet a shift is counted. */
  lemma ClashStep(trans: map<nat, nat>, prec: PrecedenceTable, done: Pairs, word: nat, it: Item, x: nat)
    requires Fits(trans, done) && it.rule < CAPACITY && CellAsked(trans, done, x, word)
    ensures Clash(trans, prec, done) ==> Clash(trans, prec, done + {(it, x)})
    ensures CountsShiftReduce(word, prec.At(x)) ==> Clash(trans, prec, done + {(it, x)})
    ensures Clash(trans, prec, done + {(it, x)}) ==> Clash(trans, prec, done) || CountsShiftReduce(word, prec.At(x))
  {
    hide CellAsked;
    AskedMasks(trans, done, x, word);
    var more := done + {(it, x)};
    assert (it, x) in more;
    assert AnyAt(more, x);
    if Clash(trans, prec, done) {
      var y: nat :| y in trans && AnyAt(done, y) && prec.Undecided(y);
      var i: Item :| (i, y) in done;
      assert (i, y) in more;
      assert AnyAt(more, y);
    }
    if Clash(trans, prec, more) {
      var y: nat :| y in trans && AnyAt(more, y) && prec.Undecided(y);
      var i: Item :| (i, y) in more;
      if (i, y) in done {
        assert AnyAt(done, y);
      } else if !AnyAt(done, x) {
        ClashCounted(trans, prec, done, word, x);
      }
    }
  }

  lemma ClashCounted(trans: map<nat, nat>, prec: PrecedenceTable, done: Pairs, word: nat, x: nat)
    requires Fits(trans, done) && CellAsked(trans, done, x, word)
    ensures x in trans && !AnyAt(done, x) && prec.Undecided(x) ==> CountsShiftReduce(word, prec.At(x))
  {
    if x in trans && !AnyAt(done, x) {
      AskedMasks(trans, done, x, word);
      assert word == Encode(Shift(trans[x]));
    }
  }

  // ------------------------------------------------ filling the row in place

  /** The cells of the row that starts at base. */
  function Row(g: Grammar, table: array<nat>, base: nat): seq<nat>
    requires base + g.tokenN <= table.Length
    reads table
  {
    table[base..base + g.tokenN]
  }

  /** Nothing outside the row has changed. */
  twostate predicate OnlyRow(g: Grammar, table: array<nat>, base: nat)
    reads table
  {
    forall k | 0 <= k < table.Length && !(base <= k < base + g.tokenN) :: table[k] == old(table[k])
  }

  /** The word of a column before any reduction is placed. */
  ghost function ShiftWord(trans: map<nat, nat>, x: nat): nat
    requires Fits(trans, {})
  {
    if x in trans then Encode(Shift(trans[x])) else TOK_SYNTAX_ERROR
  }

  /** Syntax errors everywhere, then a shift for each transition. */
  method FillShifts(g: Grammar, trans: map<nat, nat>, table: array<nat>, base: nat)
    requires base + g.tokenN <= table.Length && Fits(trans, {}) && forall x | x in trans :: x < g.tokenN
    modifies table
    ensures OnlyRow(g, table, base)
    ensures forall k | base <= k < base + g.tokenN :: table[k] == ShiftWord(trans, k - base)
  {
    for x := 0 to g.tokenN
      invariant OnlyRow(g, table, base)
      invariant forall k | base <= k < base + x :: table[k] == TOK_SYNTAX_ERROR
    {
      table[base + x] := TOK_SYNTAX_ERROR;
    }
    var todo := trans.Keys;
    while todo != {}
      invariant todo <= trans.Keys && OnlyRow(g, table, base)
      invariant forall k | base <= k < base + g.tokenN ::
                  table[k] == if k - base in todo then TOK_SYNTAX_ERROR else ShiftWord(trans, k - base)
    {
      var x :| x in todo;
      todo := todo - {x};
      table[base + x] := Pack(TOK_SHIFT_MASK, trans[x]);
    }
  }

  lemma ShiftsSoFar(g: Grammar, trans: map<nat, nat>, prec: PrecedenceTable, row: seq<nat>)
    requires Fits(trans, {}) && |row| == g.tokenN
    requires forall x | 0 <= x < g.tokenN :: row[x] == ShiftWord(trans, x)
    ensures RowSoFar(g, trans, prec, {}, row, true)
    ensures !Clash(trans, prec, {}) && RowCounted(g, trans, prec, {}, row, false)
  {
    forall x | 0 <= x < g.tokenN
      ensures CellAsked(trans, {}, x, row[x]) && CellFixed(trans, prec, {}, x, row[x]) && CellTold(trans, prec, {}, x, row[x], false)
    {
      if x in trans {
        DecodeEncode(Shift(trans[x]));
      }
    }
  }

  /** Place one reduction, counting the conflict if the cell is already filled. */
  method PlaceOne(g: Grammar, ghost trans: map<nat, nat>, prec: PrecedenceTable, ghost done: Pairs, it: Item, x: nat,
                  table: array<nat>, base: nat, rrIn: nat, srIn: nat, ghost rr0: nat) returns (rr: nat, sr: nat)
    requires base + g.tokenN <= table.Length && Fits(trans, done) && it.rule < CAPACITY && x < g.tokenN
    requires RowSoFar(g, trans, prec, done, Row(g, table, base), rrIn == srIn == 0) && (it, x) !in done
    requires rr0 <= rrIn && RowCounted(g, trans, prec, done, Row(g, table, base), rrIn > rr0)
    modifies table
    ensures Row(g, table, base) == old(Row(g, table, base))[x := Placed(old(table[base + x]), it, prec.At(x))]
    ensures rr == rrIn + if MeetsReduce(old(table[base + x])) then 1 else 0
    ensures sr == srIn + if CountsShiftReduce(old(table[base + x]), prec.At(x)) then 1 else 0
    ensures !(MeetsShift(old(table[base + x])) && prec.Says(x, RIGHT)) ==> table[base + x] == Encode(ActionOf(it))
    ensures MeetsShift(old(table[base + x])) ==>
              && (prec.Says(x, RIGHT) ==> table[base + x] == old(table[base + x]) && sr == srIn)
              && (prec.Says(x, LEFT) ==> table[base + x] == Encode(ActionOf(it)) && sr == srIn)
              && (prec.Undecided(x) ==> table[base + x] == Encode(ActionOf(it)) && sr == srIn + 1)
    ensures OnlyRow(g, table, base) && Fits(trans, done + {(it, x)})
    ensures RowSoFar(g, trans, prec, done + {(it, x)}, Row(g, table, base), rr == sr == 0)
    ensures rrIn <= rr && srIn <= sr && RowCounted(g, trans, prec, done + {(it, x)}, Row(g, table, base), rr > rr0)
    ensures Clash(trans, prec, done + {(it, x)}) <==> Clash(trans, prec, done) || sr > srIn
  {
    hide CellAsked, CellFixed, Clash, Fits, RowCounted;
    ghost var row := Row(g, table, base);
    var word := table[base + x];
    assert word == row[x];
    rr, sr := rrIn, srIn;
    RowPlace(g, trans, prec, done, row, rrIn == srIn == 0, it, x);
    ClashStep(trans, prec, done, word, it, x);
    CountPlace(g, trans, prec, done, row, rrIn > rr0, it, x);
    var placed := true;
    if word != TOK_SYNTAX_ERROR {
      if Has(word, TOK_REDUCE_MASK) {
        rr := rr + 1;
      } else if Has(word, TOK_SHIFT_MASK) {
        match prec.At(x)
        case LEFT =>
        case RIGHT => placed := false;
        case NONE => sr := sr + 1;
      }
    }
    if placed {
      table[base + x] := if it.rule == 0 then TOK_ACCEPT_MASK else Pack(TOK_REDUCE_MASK, it.rule);
    }
    assert Row(g, table, base) == row[x := Placed(word, it, prec.At(x))];
  }

  /** The lookaheads of one item below n, as pairs. */
  ghost function PairsBelow(it: Item, la: set<nat>, n: nat): Pairs {
    set x | x in la && x < n :: (it, x)
  }

  /** Place the reduction of one final item on each of its lookaheads, in column order. */
  method PlaceItem(g: Grammar, ghost trans: map<nat, nat>, prec: PrecedenceTable, ghost done: Pairs, it: Item, la: set<nat>,
                   table: array<nat>, base: nat, rrIn: nat, srIn: nat, ghost rr0: nat) returns (rr: nat, sr: nat)
    requires base + g.tokenN <= table.Length && Fits(trans, done) && it.rule < CAPACITY && g.actionN <= g.tokenN && la <= Actions(g)
    requires RowSoFar(g, trans, prec, done, Row(g, table, base), rrIn == srIn == 0) && Untouched(done, it, 0)
    requires rr0 <= rrIn && RowCounted(g, trans, prec, done, Row(g, table, base), rrIn > rr0)
    modifies table
    ensures OnlyRow(g, table, base) && Fits(trans, done + PairsBelow(it, la, g.actionN))
    ensures RowSoFar(g, trans, prec, done + PairsBelow(it, la, g.actionN), Row(g, table, base), rr == sr == 0)
    ensures rrIn <= rr && srIn <= sr && RowCounted(g, trans, prec, done + PairsBelow(it, la, g.actionN), Row(g, table, base), rr > rr0)
    ensures Clash(trans, prec, done + PairsBelow(it, la, g.actionN)) <==> Clash(trans, prec, done) || sr > srIn
  {
    hide RowSoFar, Clash, Fits, RowCounted;
    rr, sr := rrIn, srIn;
    ghost var now := done;
    assert done + PairsBelow(it, la, 0) == done;
    for x := 0 to g.actionN
      invariant now == done + PairsBelow(it, la, x)
      invariant OnlyRow(g, table, base) && Fits(trans, now)
      invariant RowSoFar(g, trans, prec, now, Row(g, table, base), rr == sr == 0)
      invariant Untouched(now, it, x) && rrIn <= rr && srIn <= sr && RowCounted(g, trans, prec, now, Row(g, table, base), rr > rr0)
      invariant Clash(trans, prec, now) <==> Clash(trans, prec, done) || sr > srIn
    {
      if x in la {
        rr, sr := PlaceOne(g, trans, prec, now, it, x, table, base, rr, sr, rr0);
        now := now + {(it, x)};
      }
      assert PairsBelow(it, la, x + 1) == PairsBelow(it, la, x) + (if x in la then {(it, x)} else {});
    }
  }

  /** The final items of some of a state's items with their lookaheads. */
  ghost function FinalPairs(g: Grammar, m: ItemSet, some: set<Item>): Pairs {
    set it, x | it in m && it in some && IsFinal(g, it) && x in m[it] :: (it, x)
  }

  /** Fill the row of a state: shifts, then a reduction for every final item, in any order. */
  method FillTable(g: Grammar, m: ItemSet, trans: map<nat, nat>, prec: PrecedenceTable, table: array<nat>, base: nat, rrIn: nat, srIn: nat)
    returns (rr: nat, sr: nat)
    requires base + g.tokenN <= table.Length && g.actionN <= g.tokenN && Bounded(g, m) && |g.rules| <= CAPACITY
    requires Fits(trans, {}) && forall x | x in trans :: x < g.tokenN
    modifies table
    ensures OnlyRow(g, table, base) && Fits(trans, FinalPairs(g, m, m.Keys))
    ensures RowSoFar(g, trans, prec, FinalPairs(g, m, m.Keys), Row(g, table, base), rr == sr == 0)
    ensures rrIn <= rr && srIn <= sr
    ensures rr > rrIn ==> Contested(trans, prec, FinalPairs(g, m, m.Keys))
    ensures Doubled(trans, prec, FinalPairs(g, m, m.Keys)) ==> rr > rrIn
    ensures Clash(trans, prec, FinalPairs(g, m, m.Keys)) <==> sr > srIn
  {
    hide RowSoFar, Clash, Fits, RowCounted;
    rr, sr := rrIn, srIn;
    FillShifts(g, trans, table, base);
    ShiftsSoFar(g, trans, prec, Row(g, table, base));
    RowWeaken(g, trans, prec, {}, Row(g, table, base), rr == sr == 0);
    var todo := m.Keys;
    ghost var seen: set<Item>, done: Pairs := {}, {};
    while todo != {}
      invariant todo !! seen && todo + seen == m.Keys && done == FinalPairs(g, m, seen)
      invariant OnlyRow(g, table, base) && Fits(trans, done)
      invariant RowSoFar(g, trans, prec, done, Row(g, table, base), rr == sr == 0)
      invariant rrIn <= rr && srIn <= sr && RowCounted(g, trans, prec, done, Row(g, table, base), rr > rrIn)
      invariant Clash(trans, prec, done) <==> sr > srIn
    {
      var it :| it in todo;
      MorePairs(g, m, seen, it);
      todo, seen := todo - {it}, seen + {it};
      if IsFinal(g, it) {
        rr, sr := PlaceItem(g, trans, prec, done, it, m[it], table, base, rr, sr, rrIn);
        done := done + PairsBelow(it, m[it], g.actionN);
      }
    }
    assert seen == m.Keys;
    CountedRow(g, trans, prec, done, Row(g, table, base), rr > rrIn);
  }

  lemma CountedRow(g: Grammar, trans: map<nat, nat>, prec: PrecedenceTable, done: Pairs, row: seq<nat>, counted: bool)
    requires RowCounted(g, trans, prec, done, row, counted)
    ensures counted ==> Contested(trans, prec, done)
    ensures Doubled(trans, prec, done) ==> counted
  {
    hide CellTold;
  }

  lemma RowWeaken(g: Grammar, trans: map<nat, nat>, prec: PrecedenceTable, done: Pairs, row: seq<nat>, clean: bool)
    requires Fits(trans, done) && RowSoFar(g, trans, prec, done, row, true)
    ensures RowSoFar(g, trans, prec, done, row, clean)
  {
  }

  lemma MorePairs(g: Grammar, m: ItemSet, some: set<Item>, it: Item)
    requires it in m && Bounded(g, m)
    ensures FinalPairs(g, m, some + {it})
         == FinalPairs(g, m, some) + if IsFinal(g, it) then PairsBelow(it, m[it], g.actionN) else {}
  {
  }
}
