/** What filled rows mean for the table as a whole. */
module Rows {
  import opened Grammars
  import opened Closures
  import opened Automata
  import opened Tables
  import opened Machines
  import opened Parsing
  import opened Canonical
  import opened Follows
  import opened Fillings

  /** Row j of the table has been filled from state j. */
  ghost predicate RowDone(g: Grammar, a: Automaton, prec: PrecedenceTable, t: seq<nat>, j: nat, clean: bool)
    requires |a.trans| == |a.states|
  {
    && j < |a.states|
    && Offset(g, j, 0) + g.tokenN <= |t|
    && Fits(a.trans[j], FinalPairs(g, a.states[j], a.states[j].Keys))
    && RowSoFar(g, a.trans[j], prec, FinalPairs(g, a.states[j], a.states[j].Keys),
                t[Offset(g, j, 0)..Offset(g, j, 0) + g.tokenN], clean)
  }

  ghost predicate RowsDone(g: Grammar, a: Automaton, prec: PrecedenceTable, t: seq<nat>, n: nat, clean: bool)
    requires |a.trans| == |a.states|
  {
    forall j | 0 <= j < n :: RowDone(g, a, prec, t, j, clean)
  }

  /** The state's moves on a token clash: it can be shifted and reduced on, with no precedence. */
  ghost predicate StateClash(g: Grammar, a: Automaton, prec: PrecedenceTable, j: nat)
    requires |a.trans| == |a.states|
  {
    j < |a.states| && Clash(a.trans[j], prec, FinalPairs(g, a.states[j], a.states[j].Keys))
  }

  ghost predicate ClashBelow(g: Grammar, a: Automaton, prec: PrecedenceTable, n: nat)
    requires |a.trans| == |a.states|
  {
    exists j: nat :: j < n && StateClash(g, a, prec, j)
  }

  lemma RowKept(g: Grammar, a: Automaton, prec: PrecedenceTable, t: seq<nat>, t': seq<nat>, j: nat, n: nat, clean: bool, clean': bool)
    requires |a.trans| == |a.states| && RowDone(g, a, prec, t, j, clean) && j < n
    requires |t'| == |t| && forall k | 0 <= k < Offset(g, n, 0) && k < |t| :: t'[k] == t[k]
    requires clean' ==> clean
    ensures RowDone(g, a, prec, t', j, clean')
  {
    RowStep(j, n, g.tokenN);
    var lo := Offset(g, j, 0);
    assert t'[lo..lo + g.tokenN] == t[lo..lo + g.tokenN];
  }

  // ------------------------------------------------ cells

  lemma PairCandidate(g: Grammar, m: ItemSet, trans: map<nat, nat>, it: Item, x: nat)
    requires Bounded(g, m) && (it, x) in FinalPairs(g, m, m.Keys)
    ensures Candidate(g, m, trans, x, ActionOf(it)) && it.rule < |g.rules|
  {
  }

  lemma CandidatePair(g: Grammar, m: ItemSet, r: nat, x: nat)
    requires Reduces(g, m, r, x)
    ensures (Item(r, |g.rules[r].rhs|), x) in FinalPairs(g, m, m.Keys)
  {
    assert IsFinal(g, Item(r, |g.rules[r].rhs|));
  }

  /** A filled cell holds a move its state asks for. */
  lemma AskedSound(g: Grammar, m: ItemSet, trans: map<nat, nat>, x: nat, word: nat)
    requires Bounded(g, m) && Fits(trans, FinalPairs(g, m, m.Keys))
    requires CellAsked(trans, FinalPairs(g, m, m.Keys), x, word)
    ensures CellSound(g, m, trans, x, Decode(word))
  {
    hide FinalPairs, Decode;
    var done := FinalPairs(g, m, m.Keys);
    DecodeEncode(Error);
    if word == TOK_SYNTAX_ERROR {
      forall other
        ensures !Candidate(g, m, trans, x, other)
      {
        NoCandidate(g, m, trans, x, other);
      }
    } else if x in trans && word == Encode(Shift(trans[x])) {
      DecodeEncode(Shift(trans[x]));
    } else {
      var it: Item :| (it, x) in done && word == Encode(ActionOf(it));
      DecodeEncode(ActionOf(it));
      PairCandidate(g, m, trans, it, x);
    }
  }

  lemma NoCandidate(g: Grammar, m: ItemSet, trans: map<nat, nat>, x: nat, act: Action)
    requires x !in trans && !AnyAt(FinalPairs(g, m, m.Keys), x)
    ensures !Candidate(g, m, trans, x, act)
  {
    hide FinalPairs;
    match act
    case Reduce(r) =>
      if Reduces(g, m, r, x) {
        CandidatePair(g, m, r, x);
      }
    case Accept =>
      if Reduces(g, m, 0, x) {
        CandidatePair(g, m, 0, x);
      }
    case _ =>
  }

  /** What a conflict-free cell holds: RIGHT keeps a shift that meets a reduction and LEFT gives it
      up, a reduction is there unless RIGHT kept the shift, and an acceptance is there unless it
      met a reduction. */
  ghost predicate CellPicked(g: Grammar, m: ItemSet, trans: map<nat, nat>, prec: PrecedenceTable, x: nat, act: Action) {
    && (forall r: nat | r > 0 && Reduces(g, m, r, x) :: if x in trans && prec.Says(x, RIGHT) then act == Shift(trans[x]) else act == Reduce(r))
    && (x in trans && prec.Says(x, LEFT) && act == Shift(trans[x]) ==> forall r: nat :: !Reduces(g, m, r, x))
    && (x in trans && prec.Undecided(x) ==> act == Shift(trans[x]) && forall r: nat :: !Reduces(g, m, r, x))
    && (x in trans && (forall r: nat :: !Reduces(g, m, r, x)) ==> act == Shift(trans[x]))
    && (Reduces(g, m, 0, x) && !(x in trans && prec.Says(x, RIGHT)) && (forall r: nat | r > 0 :: !Reduces(g, m, r, x)) ==> act == Accept)
  }

  lemma FixedPicked(g: Grammar, m: ItemSet, trans: map<nat, nat>, prec: PrecedenceTable, x: nat, word: nat)
    requires Bounded(g, m) && Fits(trans, FinalPairs(g, m, m.Keys))
    requires CellFixed(trans, prec, FinalPairs(g, m, m.Keys), x, word)
    ensures CellPicked(g, m, trans, prec, x, Decode(word))
  {
    hide Decode, Encode, FinalPairs;
    var done := FinalPairs(g, m, m.Keys);
    if x in trans {
      DecodeEncode(Shift(trans[x]));
    }
    if AnyAt(done, x) {
      var it: Item :| (it, x) in done;
      PairCandidate(g, m, trans, it, x);
      DecodeEncode(ActionOf(it));
    }
    forall r: nat | Reduces(g, m, r, x)
      ensures AnyAt(done, x)
      ensures r > 0 && !(x in trans && prec.Says(x, RIGHT)) ==> Decode(word) == Reduce(r)
      ensures r == 0 && !(x in trans && prec.Says(x, RIGHT)) ==> Decode(word) == Accept || exists q: nat :: q > 0 && Reduces(g, m, q, x)
    {
      FixedReduces(g, m, trans, prec, x, word, r);
    }
  }

  lemma FixedReduces(g: Grammar, m: ItemSet, trans: map<nat, nat>, prec: PrecedenceTable, x: nat, word: nat, r: nat)
    requires Bounded(g, m) && Fits(trans, FinalPairs(g, m, m.Keys)) && Reduces(g, m, r, x)
    requires CellFixed(trans, prec, FinalPairs(g, m, m.Keys), x, word)
    ensures AnyAt(FinalPairs(g, m, m.Keys), x)
    ensures r > 0 && !(x in trans && prec.Says(x, RIGHT)) ==> Decode(word) == Reduce(r)
    ensures r == 0 && !(x in trans && prec.Says(x, RIGHT)) ==> Decode(word) == Accept || exists q: nat :: q > 0 && Reduces(g, m, q, x)
  {
    hide Decode, Encode, FinalPairs;
    var done := FinalPairs(g, m, m.Keys);
    CandidatePair(g, m, r, x);
    var it := Item(r, |g.rules[r].rhs|);
    assert (it, x) in done;
    DecodeEncode(ActionOf(it));
    if r == 0 && !(x in trans && prec.Says(x, RIGHT)) && word != Encode(Accept) {
      var other: Item :| (other, x) in done && other.rule != 0;
      PairCandidate(g, m, trans, other, x);
    }
  }

  // ------------------------------------------------ the whole table

  ghost predicate TablePicked(g: Grammar, a: Automaton, prec: PrecedenceTable, t: seq<nat>)
    requires |a.states| == |a.trans|
  {
    forall s, x | 0 <= s < |a.states| && 0 <= x < g.tokenN :: CellPicked(g, a.states[s], a.trans[s], prec, x, Cell(g, t, s, x))
  }

  /** A rule of the state is reduced on a token for which another final item asks as well. */
  ghost predicate StateContest(g: Grammar, a: Automaton, prec: PrecedenceTable, j: nat)
    requires |a.trans| == |a.states|
  {
    j < |a.states| && Contested(a.trans[j], prec, FinalPairs(g, a.states[j], a.states[j].Keys))
  }

  ghost predicate ContestBelow(g: Grammar, a: Automaton, prec: PrecedenceTable, n: nat)
    requires |a.trans| == |a.states|
  {
    exists j: nat :: j < n && StateContest(g, a, prec, j)
  }

  /** Two rules of the state, neither the augment rule, are reduced on one token. */
  ghost predicate StateDoubled(g: Grammar, a: Automaton, prec: PrecedenceTable, j: nat)
    requires |a.trans| == |a.states|
  {
    j < |a.states| && Doubled(a.trans[j], prec, FinalPairs(g, a.states[j], a.states[j].Keys))
  }

  ghost predicate DoubledBelow(g: Grammar, a: Automaton, prec: PrecedenceTable, n: nat)
    requires |a.trans| == |a.states|
  {
    exists j: nat :: j < n && StateDoubled(g, a, prec, j)
  }

  /** A state in which two rules are reduced on the same token; rule 0 is acceptance. */
  ghost predicate ReduceReduce(g: Grammar, a: Automaton, s: nat, x: nat) {
    s < |a.states| && exists r: nat, r2: nat :: r != r2 && Reduces(g, a.states[s], r, x) && Reduces(g, a.states[s], r2, x)
  }

  lemma CellOfRow(g: Grammar, t: seq<nat>, s: nat, x: nat)
    requires x < g.tokenN && Offset(g, s, 0) + g.tokenN <= |t|
    ensures Cell(g, t, s, x) == Decode(t[Offset(g, s, 0)..Offset(g, s, 0) + g.tokenN][x])
  {
    hide Decode;
    assert Offset(g, s, x) == Offset(g, s, 0) + x;
  }

  /** Filled rows make a sound table; a clean fill makes every cell the one the items and the
      precedence determine. */
  lemma RowsSound(g: Grammar, a: Automaton, prec: PrecedenceTable, t: seq<nat>, clean: bool)
    requires CoreAutomaton(g, a) && RowsDone(g, a, prec, t, |a.states|, clean) && IsTable(g, |a.states|, t)
    ensures TableSound(g, a, t)
    ensures clean ==> TablePicked(g, a, prec, t)
  {
    hide CoreClosure, Cell;
    forall s, x | 0 <= s < |a.states| && 0 <= x < g.tokenN
      ensures CellSound(g, a.states[s], a.trans[s], x, Cell(g, t, s, x))
      ensures clean ==> CellPicked(g, a.states[s], a.trans[s], prec, x, Cell(g, t, s, x))
    {
      CellSounds(g, a, prec, t, clean, s, x);
    }
  }

  lemma SoFarAt(g: Grammar, trans: map<nat, nat>, prec: PrecedenceTable, done: Pairs, row: seq<nat>, clean: bool, x: nat)
    requires Fits(trans, done) && RowSoFar(g, trans, prec, done, row, clean) && x < g.tokenN
    ensures |row| == g.tokenN && CellAsked(trans, done, x, row[x])
    ensures clean ==> CellFixed(trans, prec, done, x, row[x])
  {
    hide CellAsked, CellFixed, Fits;
    var word := row[x];
  }

  lemma CellSounds(g: Grammar, a: Automaton, prec: PrecedenceTable, t: seq<nat>, clean: bool, s: nat, x: nat)
    requires CoreAutomaton(g, a) && s < |a.states| && x < g.tokenN && RowDone(g, a, prec, t, s, clean)
    ensures CellSound(g, a.states[s], a.trans[s], x, Cell(g, t, s, x))
    ensures clean ==> CellPicked(g, a.states[s], a.trans[s], prec, x, Cell(g, t, s, x))
  {
    hide CoreClosure, Cell, Decode, CellAsked, CellFixed, CellSound, CellPicked, FinalPairs, Fits, RowSoFar, Bounded;
    assert Bounded(g, a.states[s]);
    CellOfRow(g, t, s, x);
    var row := t[Offset(g, s, 0)..Offset(g, s, 0) + g.tokenN];
    SoFarAt(g, a.trans[s], prec, FinalPairs(g, a.states[s], a.states[s].Keys), row, clean, x);
    AskedSound(g, a.states[s], a.trans[s], x, row[x]);
    if clean {
      FixedPicked(g, a.states[s], a.trans[s], prec, x, row[x]);
    }
  }

  /** Under null precedence a clean table holds every move asked for exactly when no state both
      accepts and reduces on a token. */
  lemma PickedComplete(g: Grammar, a: Automaton, t: seq<nat>)
    requires g.WellFormed() && CoreAutomaton(g, a) && |a.states| == |a.trans| && TablePicked(g, a, Null, t)
    ensures TableComplete(g, a, t) <==> NoAcceptReduce(g, a)
  {
    hide Cell, CoreAutomaton, TablePicked, TableComplete, Reduces;
    if NoAcceptReduce(g, a) {
      PickedHoldsAll(g, a, t);
    }
    if TableComplete(g, a, t) {
      forall s, r: nat, x: nat | 0 <= s < |a.states| && Reduces(g, a.states[s], 0, x) && Reduces(g, a.states[s], r, x)
        ensures r == 0
      {
        CompleteHoldsOne(g, a, t, s, r, x);
      }
    }
  }

  lemma PickedHoldsAll(g: Grammar, a: Automaton, t: seq<nat>)
    requires |a.states| == |a.trans| && TablePicked(g, a, Null, t) && NoAcceptReduce(g, a)
    ensures TableComplete(g, a, t)
  {
    hide Cell;
    forall s, x, act | 0 <= s < |a.states| && 0 <= x < g.tokenN && Candidate(g, a.states[s], a.trans[s], x, act)
      ensures Cell(g, t, s, x) == act
    {
      assert CellPicked(g, a.states[s], a.trans[s], Null, x, Cell(g, t, s, x));
    }
  }

  lemma CompleteHoldsOne(g: Grammar, a: Automaton, t: seq<nat>, s: nat, r: nat, x: nat)
    requires g.WellFormed() && CoreAutomaton(g, a) && |a.states| == |a.trans| && TableComplete(g, a, t) && s < |a.states|
    requires Reduces(g, a.states[s], 0, x) && Reduces(g, a.states[s], r, x)
    ensures r == 0
  {
    hide Cell, CoreAutomaton, TableComplete, Reduces;
    HeldMove(g, a, t, s, 0, x);
    HeldMove(g, a, t, s, r, x);
  }

  lemma HeldMove(g: Grammar, a: Automaton, t: seq<nat>, s: nat, r: nat, x: nat)
    requires g.WellFormed() && CoreAutomaton(g, a) && |a.states| == |a.trans| && TableComplete(g, a, t) && s < |a.states|
    requires Reduces(g, a.states[s], r, x)
    ensures Cell(g, t, s, x) == if r == 0 then Accept else Reduce(r)
  {
    hide Cell, CoreClosure;
    assert Bounded(g, a.states[s]);
    assert Candidate(g, a.states[s], a.trans[s], x, if r == 0 then Accept else Reduce(r));
  }

  lemma ClashShiftReduce(g: Grammar, a: Automaton, j: nat)
    requires CoreAutomaton(g, a) && StateClash(g, a, Null, j)
    ensures exists x: nat :: ShiftReduce(g, a, j, x)
  {
    hide CoreAutomaton, FinalPairs, Reduces, Bounded;
    RowsBounded(g, a, j);
    var done := FinalPairs(g, a.states[j], a.states[j].Keys);
    var x: nat :| x in a.trans[j] && AnyAt(done, x) && Null.Undecided(x);
    var it: Item :| (it, x) in done;
    PairReduces(g, a.states[j], it, x);
    assert ShiftReduce(g, a, j, x);
  }

  lemma RowsBounded(g: Grammar, a: Automaton, j: nat)
    requires CoreAutomaton(g, a)
    ensures |a.trans| == |a.states| && (j < |a.states| ==> Bounded(g, a.states[j]))
  {
    hide CoreClosure;
  }

  lemma ShiftReduceClash(g: Grammar, a: Automaton, s: nat, x: nat)
    requires |a.trans| == |a.states| && ShiftReduce(g, a, s, x)
    ensures StateClash(g, a, Null, s)
  {
    hide FinalPairs;
    var r: nat :| Reduces(g, a.states[s], r, x);
    CandidatePair(g, a.states[s], r, x);
    assert AnyAt(FinalPairs(g, a.states[s], a.states[s].Keys), x);
    assert Null.Undecided(x);
  }

  /** Under null precedence the clashes are the shift/reduce conflicts. */
  lemma ClashIsShiftReduce(g: Grammar, a: Automaton)
    requires CoreAutomaton(g, a)
    ensures ClashBelow(g, a, Null, |a.states|) <==> exists s: nat, x: nat :: ShiftReduce(g, a, s, x)
  {
    hide CoreAutomaton, StateClash, ShiftReduce;
    SameSize(g, a);
    if ClashBelow(g, a, Null, |a.states|) {
      var j: nat :| j < |a.states| && StateClash(g, a, Null, j);
      ClashShiftReduce(g, a, j);
    }
    if s: nat, x: nat :| ShiftReduce(g, a, s, x) {
      ShiftReduceClash(g, a, s, x);
      ShiftReduceState(g, a, s, x);
    }
  }

  lemma ContestReduceReduce(g: Grammar, a: Automaton, prec: PrecedenceTable, j: nat)
    requires CoreAutomaton(g, a) && StateContest(g, a, prec, j)
    ensures exists x: nat :: ReduceReduce(g, a, j, x)
  {
    hide CoreClosure, FinalPairs;
    var done := FinalPairs(g, a.states[j], a.states[j].Keys);
    var i, k, x :| ContestedBy(a.trans[j], prec, done, i, k, x);
    assert Bounded(g, a.states[j]);
    PairReduces(g, a.states[j], i, x);
    PairReduces(g, a.states[j], k, x);
    assert i.rule != k.rule;
    assert ReduceReduce(g, a, j, x);
  }

  lemma PairReduces(g: Grammar, m: ItemSet, it: Item, x: nat)
    requires Bounded(g, m) && (it, x) in FinalPairs(g, m, m.Keys)
    ensures it.rule < |g.rules| && it.dot == |g.rules[it.rule].rhs| && Reduces(g, m, it.rule, x)
  {
    assert it == Item(it.rule, |g.rules[it.rule].rhs|);
  }

  /** A counted reduce/reduce conflict is one between two rules of one state. */
  lemma ContestIsReduceReduce(g: Grammar, a: Automaton, prec: PrecedenceTable)
    requires CoreAutomaton(g, a) && ContestBelow(g, a, prec, |a.states|)
    ensures exists s: nat, x: nat :: ReduceReduce(g, a, s, x)
  {
    hide CoreAutomaton, StateContest, ReduceReduce;
    SameSize(g, a);
    var j: nat :| j < |a.states| && StateContest(g, a, prec, j);
    ContestReduceReduce(g, a, prec, j);
  }

  /** Under null precedence every state that reduces by two rules other than the augment rule is counted. */
  lemma ReduceReduceDoubled(g: Grammar, a: Automaton, s: nat, r: nat, r2: nat, x: nat)
    requires |a.trans| == |a.states| && s < |a.states| && r != r2 && r > 0 && r2 > 0
    requires Reduces(g, a.states[s], r, x) && Reduces(g, a.states[s], r2, x)
    ensures DoubledBelow(g, a, Null, |a.states|)
  {
    hide FinalPairs;
    CandidatePair(g, a.states[s], r, x);
    CandidatePair(g, a.states[s], r2, x);
    var done := FinalPairs(g, a.states[s], a.states[s].Keys);
    assert Null.Undecided(x);
    assert ContestedBy(a.trans[s], Null, done, Item(r, |g.rules[r].rhs|), Item(r2, |g.rules[r2].rhs|), x);
    assert StateDoubled(g, a, Null, s);
  }

  /** Without a state that accepts and reduces on one token, the counted ones are exactly those of the graph. */
  lemma ReduceReduceCounted(g: Grammar, a: Automaton)
    requires CoreAutomaton(g, a) && NoAcceptReduce(g, a)
    ensures |a.trans| == |a.states|
    ensures DoubledBelow(g, a, Null, |a.states|) <==> exists s: nat, x: nat :: ReduceReduce(g, a, s, x)
    ensures DoubledBelow(g, a, Null, |a.states|) <==> ContestBelow(g, a, Null, |a.states|)
  {
    hide CoreAutomaton, StateDoubled, Doubled, Contested, Reduces;
    SameSize(g, a);
    if DoubledBelow(g, a, Null, |a.states|) {
      var j: nat :| j < |a.states| && StateDoubled(g, a, Null, j);
      DoubledContest(g, a, Null, j);
    }
    if ContestBelow(g, a, Null, |a.states|) {
      ContestIsReduceReduce(g, a, Null);
    }
    if s: nat, x: nat :| ReduceReduce(g, a, s, x) {
      var r: nat, r2: nat :| r != r2 && Reduces(g, a.states[s], r, x) && Reduces(g, a.states[s], r2, x);
      ReduceReduceDoubled(g, a, s, r, r2, x);
    }
  }

  lemma DoubledContest(g: Grammar, a: Automaton, prec: PrecedenceTable, j: nat)
    requires |a.trans| == |a.states| && StateDoubled(g, a, prec, j)
    ensures StateContest(g, a, prec, j)
  {
    hide FinalPairs;
  }

  /** The order of the items cannot be seen in a clean table: two of them for one graph and one precedence
      agree in every cell. */
  lemma CleanAgrees(g: Grammar, a: Automaton, prec: PrecedenceTable, t1: seq<nat>, t2: seq<nat>, s: nat, x: nat)
    requires g.WellFormed() && CoreAutomaton(g, a) && EofOnly(a) && |a.states| == |a.trans|
    requires TableSound(g, a, t1) && TablePicked(g, a, prec, t1) && TableSound(g, a, t2) && TablePicked(g, a, prec, t2)
    requires s < |a.states| && x < g.tokenN
    ensures Cell(g, t1, s, x) == Cell(g, t2, s, x)
  {
    hide Cell, CoreAutomaton, CellSound, CellPicked, EofOnly;
    var m, trans := a.states[s], a.trans[s];
    assert CellSound(g, m, trans, x, Cell(g, t1, s, x)) && CellPicked(g, m, trans, prec, x, Cell(g, t1, s, x));
    assert CellSound(g, m, trans, x, Cell(g, t2, s, x)) && CellPicked(g, m, trans, prec, x, Cell(g, t2, s, x));
    AcceptOnEnd(g, a, s, x);
    OneCell(g, m, trans, prec, x, Cell(g, t1, s, x), Cell(g, t2, s, x));
  }

  lemma AcceptOnEnd(g: Grammar, a: Automaton, s: nat, x: nat)
    requires g.WellFormed() && CoreAutomaton(g, a) && EofOnly(a) && |a.states| == |a.trans| && s < |a.states|
    ensures Reduces(g, a.states[s], 0, x) ==> x !in a.trans[s]
  {
    hide CoreAutomaton;
    if x in a.trans[s] {
      TransitionSymbol(g, a, s, x);
    }
  }

  lemma OneCell(g: Grammar, m: ItemSet, trans: map<nat, nat>, prec: PrecedenceTable, x: nat, act1: Action, act2: Action)
    requires CellSound(g, m, trans, x, act1) && CellPicked(g, m, trans, prec, x, act1)
    requires CellSound(g, m, trans, x, act2) && CellPicked(g, m, trans, prec, x, act2)
    requires Reduces(g, m, 0, x) ==> x !in trans
    ensures act1 == act2
  {
    hide Reduces;
    if x in trans {
      assert Candidate(g, m, trans, x, Shift(trans[x]));
    }
    if r: nat :| Reduces(g, m, r, x) {
      assert Candidate(g, m, trans, x, if r == 0 then Accept else Reduce(r));
    }
  }

  // ------------------------------------------------ precedence, told from the entries

  /** Wherever a state has a transition on x and a rule to reduce on x, the entry for x has decided:
      LEFT reduces and RIGHT shifts. */
  ghost predicate Obeys(g: Grammar, a: Automaton, prec: PrecedenceTable, t: seq<nat>)
    requires |a.states| == |a.trans|
  {
    forall s, x, r: nat | 0 <= s < |a.states| && x in a.trans[s] && r > 0 && Reduces(g, a.states[s], r, x) ::
      && prec.Table? && x < |prec.entries|
      && match prec.entries[x]
         case LEFT => Cell(g, t, s, x) == Reduce(r)
         case RIGHT => Cell(g, t, s, x) == Shift(a.trans[s][x])
         case NONE => false
  }

  lemma PickedObeys(g: Grammar, a: Automaton, prec: PrecedenceTable, t: seq<nat>)
    requires g.WellFormed() && CoreAutomaton(g, a) && |a.states| == |a.trans| && TablePicked(g, a, prec, t)
    ensures Obeys(g, a, prec, t)
  {
    hide CoreAutomaton, Cell, Reduces;
    forall s, x, r: nat | 0 <= s < |a.states| && x in a.trans[s] && r > 0 && Reduces(g, a.states[s], r, x)
      ensures prec.Table? && x < |prec.entries|
      ensures match prec.entries[x]
              case LEFT => Cell(g, t, s, x) == Reduce(r)
              case RIGHT => Cell(g, t, s, x) == Shift(a.trans[s][x])
              case NONE => false
    {
      TransitionSymbol(g, a, s, x);
      assert CellPicked(g, a.states[s], a.trans[s], prec, x, Cell(g, t, s, x));
    }
  }

  /** The state can be shifted and reduced on x, and no entry decides. */
  ghost predicate UndecidedClash(g: Grammar, a: Automaton, prec: PrecedenceTable, s: nat, x: nat)
    requires |a.states| == |a.trans|
  {
    s < |a.states| && x in a.trans[s] && prec.Undecided(x) && exists r: nat :: Reduces(g, a.states[s], r, x)
  }

  /** Two rules are reduced on x, and no shift is kept there by an entry RIGHT. */
  ghost predicate RuleContest(g: Grammar, a: Automaton, prec: PrecedenceTable, s: nat, x: nat, r: nat, r2: nat)
    requires |a.states| == |a.trans|
  {
    && s < |a.states| && r != r2 && Reduces(g, a.states[s], r, x) && Reduces(g, a.states[s], r2, x)
    && !(x in a.trans[s] && prec.Table? && x < |prec.entries| && prec.entries[x] == RIGHT)
  }

  /** Some state has two moves for one token, and no entry says which. */
  ghost predicate ConflictUnder(g: Grammar, a: Automaton, prec: PrecedenceTable)
    requires |a.states| == |a.trans|
  {
    || (exists s: nat, x: nat :: UndecidedClash(g, a, prec, s, x))
    || (exists s: nat, x: nat, r: nat, r2: nat :: RuleContest(g, a, prec, s, x, r, r2))
  }

  lemma ClashUndecided(g: Grammar, a: Automaton, prec: PrecedenceTable, j: nat)
    requires CoreAutomaton(g, a) && StateClash(g, a, prec, j)
    ensures exists x: nat :: UndecidedClash(g, a, prec, j, x)
  {
    hide CoreAutomaton, FinalPairs, Reduces, Bounded;
    RowsBounded(g, a, j);
    var done := FinalPairs(g, a.states[j], a.states[j].Keys);
    var x: nat :| x in a.trans[j] && AnyAt(done, x) && prec.Undecided(x);
    var it: Item :| (it, x) in done;
    PairReduces(g, a.states[j], it, x);
    assert UndecidedClash(g, a, prec, j, x);
  }

  lemma UndecidedCounted(g: Grammar, a: Automaton, prec: PrecedenceTable, s: nat, x: nat)
    requires |a.states| == |a.trans| && UndecidedClash(g, a, prec, s, x)
    ensures ClashBelow(g, a, prec, |a.states|)
  {
    hide FinalPairs;
    var r: nat :| Reduces(g, a.states[s], r, x);
    CandidatePair(g, a.states[s], r, x);
    assert AnyAt(FinalPairs(g, a.states[s], a.states[s].Keys), x);
    assert StateClash(g, a, prec, s);
  }

  lemma ContestRules(g: Grammar, a: Automaton, prec: PrecedenceTable, j: nat)
    requires CoreAutomaton(g, a) && StateContest(g, a, prec, j)
    ensures exists x: nat, r: nat, r2: nat :: RuleContest(g, a, prec, j, x, r, r2)
  {
    hide CoreAutomaton, FinalPairs, Reduces, Bounded;
    RowsBounded(g, a, j);
    var done := FinalPairs(g, a.states[j], a.states[j].Keys);
    var i, k, x :| ContestedBy(a.trans[j], prec, done, i, k, x);
    PairReduces(g, a.states[j], i, x);
    PairReduces(g, a.states[j], k, x);
    assert RuleContest(g, a, prec, j, x, i.rule, k.rule);
  }

  lemma RulesCounted(g: Grammar, a: Automaton, prec: PrecedenceTable, s: nat, x: nat, r: nat, r2: nat)
    requires |a.states| == |a.trans| && RuleContest(g, a, prec, s, x, r, r2) && r > 0 && r2 > 0
    ensures DoubledBelow(g, a, prec, |a.states|)
  {
    hide FinalPairs;
    CandidatePair(g, a.states[s], r, x);
    CandidatePair(g, a.states[s], r2, x);
    var done := FinalPairs(g, a.states[s], a.states[s].Keys);
    assert ContestedBy(a.trans[s], prec, done, Item(r, |g.rules[r].rhs|), Item(r2, |g.rules[r2].rhs|), x);
    assert StateDoubled(g, a, prec, s);
  }

  /** What the counters say of the graph, for every precedence table: a count means a conflict that no entry
      decides, and such conflicts are counted, but for acceptance against a reduction. */
  lemma CountersTell(g: Grammar, a: Automaton, prec: PrecedenceTable, rr: nat, sr: nat)
    requires CoreAutomaton(g, a) && |a.states| == |a.trans|
    requires sr > 0 <==> ClashBelow(g, a, prec, |a.states|)
    requires rr > 0 ==> ContestBelow(g, a, prec, |a.states|)
    requires DoubledBelow(g, a, prec, |a.states|) ==> rr > 0
    ensures rr > 0 || sr > 0 ==> ConflictUnder(g, a, prec)
    ensures forall s: nat, x: nat | UndecidedClash(g, a, prec, s, x) :: sr > 0
    ensures forall s: nat, x: nat, r: nat, r2: nat | RuleContest(g, a, prec, s, x, r, r2) && r > 0 && r2 > 0 :: rr > 0
    ensures NoAcceptReduce(g, a) ==> (rr > 0 || sr > 0 <==> ConflictUnder(g, a, prec))
  {
    hide CoreAutomaton, StateClash, StateContest, StateDoubled, DoubledBelow, UndecidedClash, Reduces;
    if ClashBelow(g, a, prec, |a.states|) {
      var j: nat :| j < |a.states| && StateClash(g, a, prec, j);
      ClashUndecided(g, a, prec, j);
    }
    if ContestBelow(g, a, prec, |a.states|) {
      var j: nat :| j < |a.states| && StateContest(g, a, prec, j);
      ContestRules(g, a, prec, j);
    }
    forall s: nat, x: nat | UndecidedClash(g, a, prec, s, x)
      ensures sr > 0
    {
      UndecidedCounted(g, a, prec, s, x);
    }
    forall s: nat, x: nat, r: nat, r2: nat | RuleContest(g, a, prec, s, x, r, r2) && r > 0 && r2 > 0
      ensures rr > 0
    {
      RulesCounted(g, a, prec, s, x, r, r2);
    }
  }

  /** A table without conflicts under null precedence has no state that shifts and reduces on the
      same token, nor one that reduces by two rules other than the augment rule. */
  lemma CleanHasNone(g: Grammar, a: Automaton, t: seq<nat>, s: nat, x: nat)
    requires |a.states| == |a.trans| && TablePicked(g, a, Null, t) && x < g.tokenN
    ensures !ShiftReduce(g, a, s, x)
    ensures forall r: nat, r2: nat | s < |a.states| && r > 0 && r2 > 0 && Reduces(g, a.states[s], r, x) && Reduces(g, a.states[s], r2, x) ::
              r == r2
  {
    hide Cell;
    if s < |a.states| {
      assert CellPicked(g, a.states[s], a.trans[s], Null, x, Cell(g, t, s, x));
    }
  }

  lemma ShiftReduceState(g: Grammar, a: Automaton, s: nat, x: nat)
    requires |a.trans| == |a.states| && ShiftReduce(g, a, s, x)
    ensures s < |a.states|
  {
  }
}
