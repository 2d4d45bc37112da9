/** The canonical collection as an object (src/parsergen/canonical_collection.cc). States are
    known by their position in the order of creation, where the source has pointers to them. */
module Collections {
  import opened Graphs
  import opened Grammars
  import opened Closures
  import opened Visits
  import opened Firsts
  import opened FirstProofs
  import opened Automata
  import opened Tables
  import opened Canonical
  import opened Machines
  import opened Universes
  import opened Explorations
  import opened Mergings
  import opened Follows
  import opened Fillings
  import opened Rows

  datatype ParserType = LALR_1 | CLR_1

  class CanonicalCollection {
    const g: Grammar
    const f: FirstInfo

    /** The items, transitions, id and merged states of each state. */
    var items: seq<ItemSet>
    var dfa: seq<map<nat, nat>>
    var ids: seq<nat>
    var merged: seq<seq<nat>>

    /** The states in use, by id. */
    var idToState: map<nat, nat>
    var stateN: nat

    function Graph(): Automaton
      reads this
    {
      Automaton(items, dfa)
    }

    /** Before any merging, a state's id is its position. */
    ghost predicate Numbered()
      reads this
    {
      && stateN == |items| == |dfa| == |ids| == |merged|
      && (forall s | 0 <= s < stateN :: ids[s] == s && merged[s] == [])
      && idToState.Keys == Range(0, stateN)
      && (forall s | s in idToState :: idToState[s] == s)
    }

    constructor (g: Grammar)
      requires g.WellFormed()
      ensures this.g == g && items == [] && Numbered()
      ensures Computed(g, f)
    {
      hide WasExplained;
      var first := new FirstTable(g);
      ghost var order :| IsOrder(g, order) && first.Now() == VisitAll(g, Initial(g), order);
      this.g, this.f := g, FirstInfo(first.firstOfs, first.hasEmpty);
      items, dfa, ids, merged, idToState, stateN := [], [], [], [], map[], 0;
    }

    /** Close a kernel; return the state it equals, or register it as a new state. */
    method AddState(kernel: ItemSet) returns (s: nat)
      requires g.WellFormed() && f.WellFormed(g) && IsKernel(g, kernel) && Numbered()
      modifies this
      ensures Numbered()
      ensures s < |items| && LeastClosure(g, f, kernel, items[s])
      ensures Looked(g, old(Graph()), Graph(), s, items[s])
    {
      hide LeastClosure;
      var closed := ApplyClosure(g, f, kernel);
      if closed in items {
        s :| 0 <= s < |items| && items[s] == closed;
      } else {
        s := stateN;
        items, dfa, ids, merged := items + [closed], dfa + [map[]], ids + [s], merged + [[]];
        idToState := idToState[s := s];
        stateN := stateN + 1;
      }
    }

    lemma NumberedSizes()
      requires Numbered()
      ensures |items| == |dfa|
    {
    }

    /** Add the state for one symbol after a dot, and the transition to it. */
    method ConnectOne(s: nat, x: nat, kernel: ItemSet, ghost a0: Automaton, ghost done: set<nat>)
      requires g.WellFormed() && f.WellFormed(g) && Numbered()
      requires Connecting(g, f, a0, Graph(), s, done) && s < |items| && x !in done
      requires kernel == Advance(g, items[s], x) && IsKernel(g, kernel)
      modifies this
      ensures Numbered() && |items| >= |old(items)| && items[s] == old(items[s])
      ensures Connecting(g, f, a0, Graph(), s, done + {x})
    {
      hide LeastClosure, Connecting, IsKernel;
      ghost var a := Graph();
      var t := AddState(kernel);
      ghost var a1 := Graph();
      LookedSizes(g, a, a1, t, items[t]);
      var row: map<nat, nat> := dfa[s][x := t];
      dfa := dfa[s := row];
      assert Graph() == WithEdge(a1, s, x, t);
      ConnectStep(g, f, a0, a, a1, s, done, x, t, items[t]);
    }

    /** Fill in the transitions of one state, adding the states they need. */
    method Connect(s: nat)
      requires g.WellFormed() && f.WellFormed(g) && Numbered()
      requires SoFar(g, f, Graph()) && s < |items| && dfa[s] == map[]
      modifies this
      ensures Numbered()
      ensures SoFar(g, f, Graph()) && Extends(old(Graph()), Graph()) && Explored(g, f, Graph(), s)
      ensures forall k | |old(items)| <= k < |items| :: TargetOf(Graph(), s, k)
    {
      hide LeastClosure, SoFar, Connecting, IsKernel, Bounded, TargetOf, Explored, Extends, Numbered, Advance, NextSymbols;
      ghost var a0 := Graph();
      NumberedSizes();
      StartConnecting(g, f, a0, s);
      SoFarBounded(g, f, a0, s);
      var kernels := AdvancedItems(g, items[s]);
      var todo := kernels.Keys;
      ghost var done: set<nat> := {};
      while todo != {}
        invariant Numbered() && |items| == |dfa| && s < |items| && items[s] == a0.states[s]
        invariant todo !! done && todo + done == kernels.Keys
        invariant Connecting(g, f, a0, Graph(), s, done)
      {
        var x :| x in todo;
        todo := todo - {x};
        AdvanceIsKernel(g, items[s], x);
        ConnectOne(s, x, kernels[x], a0, done);
        NumberedSizes();
        done := done + {x};
      }
      assert done == kernels.Keys;
      Connected(g, f, a0, Graph(), s);
      ConnectingTargets(g, f, a0, Graph(), s, done);
    }

    /** Resolve a state and everything it leads to that is new. It ends because there are finitely
        many states over a grammar, and every call fills in one more. */
    method ResolveState(s: nat)
      requires g.WellFormed() && f.WellFormed(g) && Numbered()
      requires SoFar(g, f, Graph()) && s < |items|
      modifies this
      ensures Numbered()
      ensures SoFar(g, f, Graph()) && Extends(old(Graph()), Graph()) && Explored(g, f, Graph(), s)
      ensures forall k | |old(items)| <= k < |items| :: Explored(g, f, Graph(), k)
      decreases Universe(g) - Filled(Graph())
    {
      hide SoFar, Explored, Extends, Visiting, TargetOf, Filled;
      ghost var a0 := Graph();
      if dfa[s] != map[] {
        FilledIsExplored(g, f, a0, s);
        ExtendsRefl(a0);
        return;
      }
      Connect(s);
      ghost var a1 := Graph();
      ExtendsSizes(a0, a1);
      VisitingStart(g, f, a1, s, |a0.states|);
      ExtendsRefl(a1);
      var todo := dfa[s].Keys;
      while todo != {}
        invariant Numbered() && SoFar(g, f, Graph()) && Extends(a1, Graph()) && s < |a1.states|
        invariant todo <= a1.trans[s].Keys
        invariant Visiting(g, f, a1, Graph(), s, todo, |a0.states|)
        decreases todo
      {
        var x :| x in todo;
        TargetInRange(g, f, a1, s, x);
        ExtendsRow(a1, Graph(), s);
        ghost var a := Graph();
        RemainingDecreases(g, f, a0, a1, a, s);
        ResolveState(dfa[s][x]);
        VisitingStep(g, f, a1, a, Graph(), s, todo, x, |a0.states|);
        ExtendsTrans(a1, a, Graph());
        todo := todo - {x};
      }
      VisitingDone(g, f, a1, Graph(), s, |a0.states|);
      ExtendsTrans(a0, a1, Graph());
      ExploredExtends(g, f, a1, Graph(), s);
    }

    /** The CLR(1) part of resolve: the whole state graph from the augment item. */
    method ResolveGraph()
      requires g.WellFormed() && f.WellFormed(g) && Numbered() && items == []
      modifies this
      ensures Numbered() && IsCanonical(g, f, Graph())
    {
      hide IsCanonical, LeastClosure, Explored, Extends, Reached;
      StartIsKernel(g);
      var s := AddState(START_KERNEL);
      FirstSoFar(g, f, Graph());
      ResolveState(s);
      AllExplored(g, f, Graph());
    }

    // ---------------------------------------------- merging by core

    /** Everything that holds between two merges: a0 is the graph before any merge. */
    ghost predicate Merging(a0: Automaton, top: seq<nat>, desc: seq<set<nat>>, seen: set<nat>)
      reads this
    {
      && Standing(a0, top, desc)
      && Groups(a0, top, seen)
    }

    ghost predicate Standing(a0: Automaton, top: seq<nat>, desc: seq<set<nat>>)
      reads this
    {
      && |a0.states| == |a0.trans| == |items| == |ids| == |merged| == |top| == |desc|
      && dfa == a0.trans
      && Tops(|a0.states|, top)
      && Ids(top, ids, idToState, stateN)
      && Unions(a0, top, items)
      && MergeTree(top, merged, desc)
    }

    /** Give a state and all states merged under it an id. */
    method SetId(s: nat, id: nat, ghost top: seq<nat>, ghost desc: seq<set<nat>>)
      requires MergeTree(top, merged, desc) && |ids| == |top| && s < |top|
      modifies this`ids
      ensures ids == Renumber(old(ids), desc[s], id)
      decreases desc[s]
    {
      assert Branch(top, merged, desc, s);
      ids := ids[s := id];
      for j := 0 to |merged[s]|
        invariant |ids| == |top|
        invariant forall k | 0 <= k < |ids| :: ids[k] == if k == s || UnderSome(merged[s][..j], desc, k) then id else old(ids[k])
      {
        assert merged[s][..j + 1] == merged[s][..j] + [merged[s][j]];
        SetId(merged[s][j], id, top, desc);
      }
      assert merged[s][..|merged[s]|] == merged[s];
      BranchMembers(top, merged, desc, s);
    }

    /** Merge the lookaheads of one state into another with the same core. */
    method LalrMerge(keep: nat, other: nat)
      requires keep < |items| == |merged| && other < |items| && keep != other && items[keep].Keys == items[other].Keys
      modifies this`items, this`merged
      ensures items == old(items)[keep := MergedItems(old(items[keep]), old(items[other]))]
      ensures merged == old(merged)[keep := old(merged[keep]) + [other]]
    {
      var todo := items[other].Keys;
      var ours := items[keep];
      while todo != {}
        invariant todo <= items[other].Keys == ours.Keys
        invariant forall it | it in ours :: ours[it] == items[keep][it] + if it in todo then {} else items[other][it]
      {
        var it :| it in todo;
        todo := todo - {it};
        ours := ours[it := ours[it] + items[other][it]];
      }
      assert ours == MergedItems(items[keep], items[other]);
      items := items[keep := ours];
      merged := merged[keep := merged[keep] + [other]];
    }

    /** Merge one standing state into another of lower id and equal core; the state with the last
        id moves into the freed one. */
    method Absorb(keep: nat, merge: nat, ghost a0: Automaton, ghost top: seq<nat>, ghost desc: seq<set<nat>>)
      requires Standing(a0, top, desc) && Mergeable(top, ids, keep, merge) && a0.Core(keep) == a0.Core(merge)
      modifies `items, `merged, `ids, `idToState, `stateN
      ensures Standing(a0, NewTop(top, keep, merge), NewDesc(desc, keep, merge))
    {
      hide Ids, Unions, MergeTree, Tops, NewTop, NewDesc, NewIds, Renumber, MergedItems;
      MergeSizes(a0, top, items, merged, desc, keep, merge);
      TopsMerge(|a0.states|, top, keep, merge);
      UnionsMerge(a0, top, items, keep, merge);
      TreeMerge(top, merged, desc, keep, merge);
      IdsMerge(|a0.states|, top, ids, idToState, stateN, merged, desc, keep, merge);
      LalrMerge(keep, merge);

      ghost var top', desc' := NewTop(top, keep, merge), NewDesc(desc, keep, merge);
      ghost var ids0, map0 := ids, idToState;
      stateN := stateN - 1;
      var last := idToState[stateN];
      if ids[merge] != stateN {
        idToState := idToState[ids[merge] := last];
        SetId(last, ids[merge], top', desc');
      }
      idToState := idToState - {stateN};
      ghost var mid := ids;
      SetId(keep, ids[keep], top', desc');
      NewIdsAre(ids0, desc, keep, merge, last, mid);
    }

    /** Merge the groups of two states of equal core, keeping the lower id. */
    method MergePair(rep: nat, s: nat, ghost a0: Automaton, ghost top: seq<nat>, ghost desc: seq<set<nat>>, ghost seen: set<nat>)
      returns (ghost top': seq<nat>, ghost desc': seq<set<nat>>)
      requires Merging(a0, top, desc, seen)
      requires rep < |a0.states| && s < |a0.states| && rep in seen && s !in seen && a0.Core(rep) == a0.Core(s)
      modifies `items, `merged, `ids, `idToState, `stateN
      ensures Merging(a0, top', desc', seen + {s})
    {
      hide Ids, Groups, Unions, MergeTree, Tops;
      StandingPair(a0, top, ids, idToState, stateN, seen, rep, s);
      var keep, merge;
      if ids[rep] < ids[s] {
        keep, merge := rep, s;
      } else {
        keep, merge := s, rep;
      }
      keep, merge := idToState[ids[keep]], idToState[ids[merge]];
      GroupsMerge(a0, top, seen, rep, s, keep, merge);
      Absorb(keep, merge, a0, top, desc);
      top', desc' := NewTop(top, keep, merge), NewDesc(desc, keep, merge);
    }

    /** Look one state up by its core: merge it with the one already there, or enter it. */
    method MergeOne(s: nat, lookup: set<nat>, ghost a0: Automaton, ghost top: seq<nat>, ghost desc: seq<set<nat>>, ghost seen: set<nat>)
      returns (entered: set<nat>, ghost top': seq<nat>, ghost desc': seq<set<nat>>)
      requires Merging(a0, top, desc, seen) && Looking(a0, lookup, seen) && s < |a0.states| && s !in seen
      modifies `items, `merged, `ids, `idToState, `stateN
      ensures Merging(a0, top', desc', seen + {s}) && Looking(a0, entered, seen + {s})
    {
      hide Ids, Groups, Unions, MergeTree, Tops;
      CoresKept(a0, top, items);
      var found, rep := Find(lookup, s);
      if found {
        assert rep in seen && a0.Core(rep) == a0.Core(s);
        top', desc' := MergePair(rep, s, a0, top, desc, seen);
        entered := lookup;
        LookingKnown(a0, lookup, seen, rep, s);
      } else {
        NoneSeen(a0, lookup, seen, s);
        GroupsNew(a0, top, seen, s);
        top', desc', entered := top, desc, lookup + {s};
        LookingNew(a0, lookup, seen, s);
      }
    }

    /** Merge all states of equal core, in any order. */
    method MergeStates() returns (ghost c: seq<nat>)
      requires g.WellFormed() && Numbered() && IsCanonical(g, f, Graph())
      modifies `items, `merged, `ids, `idToState, `stateN
      ensures c == ids && InUse()
      ensures IsQuotient(g, old(Graph()), View(), c)
    {
      hide Merging, IsCanonical, IsQuotient, CoreAutomaton, Looking, Numbered, InUse;
      ghost var a0 := Graph();
      CanonicalCore(g, f, a0);
      ghost var top, desc := StartMerging();
      ghost var seen: set<nat> := {};
      var lookup: set<nat> := {};
      LookingStart(a0);
      var todo := Range(0, |items|);
      ghost var all := todo;
      while todo != {}
        invariant Merging(a0, top, desc, seen) && Looking(a0, lookup, seen)
        invariant todo !! seen && todo + seen == all
        decreases todo
      {
        var s :| s in todo;
        assert s in todo + seen;
        todo := todo - {s};
        lookup, top, desc := MergeOne(s, lookup, a0, top, desc, seen);
        seen := seen + {s};
      }
      assert seen == all;
      FinishMerging(a0, top, desc, seen);
      c := ids;
    }

    lemma StartMerging() returns (top: seq<nat>, desc: seq<set<nat>>)
      requires Numbered() && CoreAutomaton(g, Graph())
      ensures Merging(Graph(), top, desc, {}) && |items| == |Graph().states|
    {
      hide Ids, Groups, Unions, MergeTree, Tops, CoreAutomaton;
      var a0 := Graph();
      SameSize(g, a0);
      top, desc := Identity(|a0.states|), Singletons(|a0.states|);
      MergingStart(a0, ids, idToState, merged);
    }

    lemma FinishMerging(a0: Automaton, top: seq<nat>, desc: seq<set<nat>>, seen: set<nat>)
      requires CoreAutomaton(g, a0) && Merging(a0, top, desc, seen) && seen == Range(0, |a0.states|)
      ensures InUse() && IsQuotient(g, a0, View(), ids)
    {
      hide Ids, Groups, Unions, MergeTree, Tops, CoreAutomaton, IsQuotient, Compacted;
      assert forall p | 0 <= p < |top| :: p in seen;
      MergingDone(g, a0, top, items, ids, idToState, stateN, seen);
    }

    /** The state in the lookup set with the same LR(0) items, if any. */
    method Find(lookup: set<nat>, s: nat) returns (found: bool, rep: nat)
      requires s < |items| && forall p | p in lookup :: p < |items|
      ensures found ==> rep in lookup && items[rep].Keys == items[s].Keys
      ensures !found ==> forall p | p in lookup :: items[p].Keys != items[s].Keys
    {
      var todo := lookup;
      found, rep := false, 0;
      while todo != {} && !found
        invariant todo <= lookup
        invariant found ==> rep in lookup && items[rep].Keys == items[s].Keys
        invariant !found ==> forall p | p in lookup && p !in todo :: items[p].Keys != items[s].Keys
        decreases todo
      {
        var p :| p in todo;
        todo := todo - {p};
        found := LalrEqual(items[p], items[s]);
        rep := p;
      }
    }

    /** Resolve the state graph and, for LALR(1), merge its states by core. */
    method Resolve(parserType: ParserType)
      requires g.WellFormed() && f.WellFormed(g) && Numbered() && items == []
      modifies this
      ensures InUse() && Collected(g, f, View())
      ensures if parserType == CLR_1 then IsCanonical(g, f, View()) else IsMerged(g, f, View())
    {
      hide IsCanonical, IsQuotient;
      ResolveGraph();
      ghost var a0 := Graph();
      if parserType == CLR_1 {
        CanonicalCore(g, f, a0);
        CompactedIdentity(g, a0, ids, idToState);
        return;
      }
      ghost var c := MergeStates();
    }

    /** Fill the whole table, one row after the other; the result is 0 if nothing conflicted. */
    method Generate(table: array<nat>, prec: PrecedenceTable) returns (error: nat, ghost rr: nat, ghost sr: nat)
      requires g.WellFormed() && InUse() && CoreAutomaton(g, View())
      requires stateN <= CAPACITY && |g.rules| <= CAPACITY && table.Length == stateN * g.tokenN
      modifies table
      ensures TableSound(g, View(), table[..])
      ensures error == 0 <==> rr == sr == 0
      ensures error == 0 ==> TablePicked(g, View(), prec, table[..])
      ensures sr > 0 <==> ClashBelow(g, View(), prec, stateN)
      ensures rr > 0 ==> ContestBelow(g, View(), prec, stateN)
      ensures DoubledBelow(g, View(), prec, stateN) ==> rr > 0
      ensures |View().states| == |View().trans| == stateN
      ensures error == 0 ==> Obeys(g, View(), prec, table[..])
      ensures error != 0 ==> ConflictUnder(g, View(), prec)
      ensures forall s: nat, x: nat | UndecidedClash(g, View(), prec, s, x) :: error != 0
      ensures NoAcceptReduce(g, View()) ==> (error != 0 <==> ConflictUnder(g, View(), prec))
    {
      hide CoreAutomaton, RowDone, RowsDone, RowSoFar, ClashBelow, StateClash, Clash, Fits, TableSound, TablePicked, FinalPairs, Bounded, Compacted, IdRow,
        Contested, ContestBelow, Doubled, DoubledBelow, StateDoubled, StateContest, Obeys, ConflictUnder,
        UndecidedClash, NoAcceptReduce;
      ghost var a := View();
      ViewSize();
      NoRows(g, a, prec, table[..]);
      var base := 0;
      var rrN, srN := 0, 0;
      for id := 0 to stateN
        invariant base == Offset(g, id, 0)
        invariant RowsDone(g, a, prec, table[..], id, rrN == srN == 0)
        invariant srN > 0 <==> ClashBelow(g, a, prec, id)
        invariant rrN > 0 ==> ContestBelow(g, a, prec, id)
        invariant DoubledBelow(g, a, prec, id) ==> rrN > 0
      {
        ghost var t0 := table[..];
        ghost var clean0 := rrN == srN == 0;
        var s := idToState[id];
        RowReady(g, a, id);
        ViewAt(id);
        RowStep(id, stateN, g.tokenN);
        ghost var srBefore := srN;
        rrN, srN := FillTable(g, items[s], IdRow(dfa[s], ids), prec, table, base, rrN, srN);
        RowNew(g, a, prec, table[..], id, rrN == srN == 0);
        RowsNext(g, a, prec, t0, table[..], id, clean0, rrN == srN == 0);
        ClashNext(g, a, prec, id);
        ContestNext(g, a, prec, id);
        DoubledNext(g, a, prec, id);
        base := base + g.tokenN;
      }
      RowsSound(g, a, prec, table[..], rrN == srN == 0);
      error := if rrN != 0 || srN != 0 then 1 else 0;
      rr, sr := rrN, srN;
      CountersTell(g, a, prec, rr, sr);
      if error == 0 {
        PickedObeys(g, a, prec, table[..]);
      }
    }

    lemma ViewSize()
      requires InUse()
      ensures |View().states| == |View().trans| == stateN
    {
    }

    lemma ViewAt(id: nat)
      requires InUse() && id < stateN
      ensures |View().states| == |View().trans| == stateN
      ensures View().states[id] == items[idToState[id]] && View().trans[id] == IdRow(dfa[idToState[id]], ids)
    {
      hide IdRow;
    }

    /** Every id in use names a state. */
    ghost predicate InUse()
      reads this
    {
      forall i | 0 <= i < stateN :: i in idToState && idToState[i] < |items| && idToState[i] < |dfa|
    }

    /** The states in use, numbered by id. */
    ghost function View(): Automaton
      requires InUse()
      reads this
    {
      Compacted(items, dfa, ids, idToState, stateN)
    }
  }

  lemma RowReady(g: Grammar, a: Automaton, id: nat)
    requires g.WellFormed() && CoreAutomaton(g, a) && id < |a.states| <= CAPACITY
    ensures |a.trans| == |a.states| && Bounded(g, a.states[id]) && Fits(a.trans[id], {})
    ensures forall x | x in a.trans[id] :: x < g.tokenN
  {
    hide CoreClosure;
    forall x | x in a.trans[id]
      ensures x < g.tokenN && a.trans[id][x] < CAPACITY
    {
      TransitionSymbol(g, a, id, x);
      assert Edge(g, a, id, x);
    }
  }

  lemma RowNew(g: Grammar, a: Automaton, prec: PrecedenceTable, t: seq<nat>, id: nat, clean: bool)
    requires |a.trans| == |a.states| && id < |a.states| && Offset(g, id, 0) + g.tokenN <= |t|
    requires Fits(a.trans[id], FinalPairs(g, a.states[id], a.states[id].Keys))
    requires RowSoFar(g, a.trans[id], prec, FinalPairs(g, a.states[id], a.states[id].Keys),
                      t[Offset(g, id, 0)..Offset(g, id, 0) + g.tokenN], clean)
    ensures RowDone(g, a, prec, t, id, clean)
  {
  }

  lemma NoRows(g: Grammar, a: Automaton, prec: PrecedenceTable, t: seq<nat>)
    requires |a.trans| == |a.states|
    ensures RowsDone(g, a, prec, t, 0, true) && !ClashBelow(g, a, prec, 0) && !DoubledBelow(g, a, prec, 0)
  {
  }

  lemma RowsNext(g: Grammar, a: Automaton, prec: PrecedenceTable, t: seq<nat>, t': seq<nat>, id: nat, clean: bool, clean': bool)
    requires |a.trans| == |a.states| && RowsDone(g, a, prec, t, id, clean) && RowDone(g, a, prec, t', id, clean')
    requires |t'| == |t| && forall k | 0 <= k < Offset(g, id, 0) && k < |t| :: t'[k] == t[k]
    requires clean' ==> clean
    ensures RowsDone(g, a, prec, t', id + 1, clean')
  {
    hide RowDone;
    forall j | 0 <= j < id + 1
      ensures RowDone(g, a, prec, t', j, clean')
    {
      if j < id {
        RowKept(g, a, prec, t, t', j, id, clean, clean');
      }
    }
  }

  lemma ClashNext(g: Grammar, a: Automaton, prec: PrecedenceTable, id: nat)
    requires |a.trans| == |a.states| && id < |a.states|
    ensures ClashBelow(g, a, prec, id + 1) <==>
            ClashBelow(g, a, prec, id) || Clash(a.trans[id], prec, FinalPairs(g, a.states[id], a.states[id].Keys))
  {
    hide Clash;
    if ClashBelow(g, a, prec, id) {
      var j: nat :| j < id && StateClash(g, a, prec, j);
      assert j < id + 1;
    }
    if Clash(a.trans[id], prec, FinalPairs(g, a.states[id], a.states[id].Keys)) {
      assert StateClash(g, a, prec, id);
    }
  }

  lemma ContestNext(g: Grammar, a: Automaton, prec: PrecedenceTable, id: nat)
    requires |a.trans| == |a.states| && id < |a.states|
    ensures ContestBelow(g, a, prec, id) || Contested(a.trans[id], prec, FinalPairs(g, a.states[id], a.states[id].Keys)) ==>
              ContestBelow(g, a, prec, id + 1)
  {
    hide Contested;
    if ContestBelow(g, a, prec, id) {
      var j: nat :| j < id && StateContest(g, a, prec, j);
      assert j < id + 1;
    } else if Contested(a.trans[id], prec, FinalPairs(g, a.states[id], a.states[id].Keys)) {
      assert StateContest(g, a, prec, id);
    }
  }

  lemma DoubledNext(g: Grammar, a: Automaton, prec: PrecedenceTable, id: nat)
    requires |a.trans| == |a.states| && id < |a.states|
    ensures DoubledBelow(g, a, prec, id + 1) ==>
              DoubledBelow(g, a, prec, id) || Doubled(a.trans[id], prec, FinalPairs(g, a.states[id], a.states[id].Keys))
  {
    hide Doubled;
    if DoubledBelow(g, a, prec, id + 1) {
      var j: nat :| j < id + 1 && StateDoubled(g, a, prec, j);
      assert j == id || j < id;
    }
  }

  lemma CompactedIdentity(g: Grammar, a: Automaton, ids: seq<nat>, idToState: map<nat, nat>)
    requires CoreAutomaton(g, a) && |ids| == |a.states|
    requires forall s | 0 <= s < |ids| :: ids[s] == s
    requires idToState.Keys == Range(0, |ids|) && forall s | s in idToState :: idToState[s] == s
    ensures |a.trans| == |a.states|
    ensures Compacted(a.states, a.trans, ids, idToState, |ids|) == a
  {
    hide CoreAutomaton, IdRow;
    SameSize(g, a);
    var b := Compacted(a.states, a.trans, ids, idToState, |ids|);
    forall s | 0 <= s < |ids|
      ensures b.trans[s] == a.trans[s]
    {
      RowIdentity(g, a, ids, s);
    }
    assert b.trans == a.trans && b.states == a.states;
  }

  lemma RowIdentity(g: Grammar, a: Automaton, ids: seq<nat>, s: nat)
    requires CoreAutomaton(g, a) && |ids| == |a.states| && s < |a.states|
    requires forall k | 0 <= k < |ids| :: ids[k] == k
    ensures IdRow(a.trans[s], ids) == a.trans[s]
  {
    hide CoreAutomaton;
    SameSize(g, a);
    var row := a.trans[s];
    TargetsBelow(g, a, s);
    assert IdRow(row, ids).Keys == row.Keys;
    forall x | x in row
      ensures IdRow(row, ids)[x] == row[x]
    {
    }
  }

  lemma TargetsBelow(g: Grammar, a: Automaton, s: nat)
    requires CoreAutomaton(g, a) && s < |a.states|
    ensures forall x | x in a.trans[s] :: a.trans[s][x] < |a.states|
  {
    hide CoreClosure, Bounded;
    forall x | x in a.trans[s]
      ensures a.trans[s][x] < |a.states|
    {
      assert Edge(g, a, s, x);
    }
  }

  ghost predicate Represented(a: Automaton, lookup: set<nat>, s: nat)
    requires s < |a.states|
  {
    exists p: nat :: p in lookup && p < |a.states| && a.Core(p) == a.Core(s)
  }

  /** The lookup set has one state for each core seen. */
  ghost predicate Looking(a: Automaton, lookup: set<nat>, seen: set<nat>) {
    && lookup <= seen
    && forall s | s in seen :: s < |a.states| && Represented(a, lookup, s)
  }

  lemma LookingStart(a: Automaton)
    ensures Looking(a, {}, {})
  {
  }

  lemma RepresentedBy(a: Automaton, lookup: set<nat>, rep: nat, s: nat)
    requires rep in lookup && rep < |a.states| && s < |a.states| && a.Core(rep) == a.Core(s)
    ensures Represented(a, lookup, s)
  {
  }

  lemma LookingKnown(a: Automaton, lookup: set<nat>, seen: set<nat>, rep: nat, s: nat)
    requires Looking(a, lookup, seen) && rep in lookup && s < |a.states| && a.Core(rep) == a.Core(s)
    ensures Looking(a, lookup, seen + {s})
  {
    hide Represented;
    assert rep in seen;
    RepresentedBy(a, lookup, rep, s);
  }

  lemma LookingNew(a: Automaton, lookup: set<nat>, seen: set<nat>, s: nat)
    requires Looking(a, lookup, seen) && s < |a.states|
    ensures Looking(a, lookup + {s}, seen + {s})
  {
    hide Represented;
    forall p | p in seen + {s}
      ensures p < |a.states| && Represented(a, lookup + {s}, p)
    {
      RepresentedMore(a, lookup, s, p);
    }
  }

  lemma RepresentedMore(a: Automaton, lookup: set<nat>, s: nat, p: nat)
    requires s < |a.states| && p < |a.states| && (p == s || Represented(a, lookup, p))
    ensures Represented(a, lookup + {s}, p)
  {
    if p == s {
      assert s in lookup + {s};
    } else {
      var q: nat :| q in lookup && q < |a.states| && a.Core(q) == a.Core(p);
      assert q in lookup + {s};
    }
  }

  lemma NoneSeen(a: Automaton, lookup: set<nat>, seen: set<nat>, s: nat)
    requires Looking(a, lookup, seen) && s < |a.states| && forall p | p in lookup :: a.Core(p) != a.Core(s)
    ensures forall p | p in seen && p < |a.states| :: a.Core(p) != a.Core(s)
  {
    forall p | p in seen && p < |a.states|
      ensures a.Core(p) != a.Core(s)
    {
      assert Represented(a, lookup, p);
    }
  }

  lemma CoresKept(a: Automaton, top: seq<nat>, items: seq<ItemSet>)
    requires |top| == |a.states| && Unions(a, top, items)
    ensures |items| == |a.states| && forall s | 0 <= s < |items| :: items[s].Keys == a.Core(s)
  {
  }

  /** Whether two states have the same LR(0) items: as many, and every one of b's in a. */
  method LalrEqual(a: ItemSet, b: ItemSet) returns (equal: bool)
    ensures equal <==> a.Keys == b.Keys
  {
    if |a| != |b| {
      return false;
    }
    var todo := b.Keys;
    while todo != {}
      invariant todo <= b.Keys && b.Keys - todo <= a.Keys
    {
      var it :| it in todo;
      todo := todo - {it};
      if it !in a {
        return false;
      }
    }
    SubsetOfSameSize(b.Keys, a.Keys);
    return true;
  }

  lemma SubsetOfSameSize(s: set<Item>, t: set<Item>)
    requires s <= t && |s| == |t|
    ensures s == t
  {
    if x :| x in t && x !in s {
      assert s <= t - {x};
      SizeMonotone(s, t - {x});
    }
  }

  ghost predicate UnderSome(children: seq<nat>, desc: seq<set<nat>>, k: nat) {
    exists c: nat :: c in children && c < |desc| && k in desc[c]
  }

  lemma BranchMembers(top: seq<nat>, merged: seq<seq<nat>>, desc: seq<set<nat>>, s: nat)
    requires |merged| == |desc| == |top| && s < |top| && Branch(top, merged, desc, s)
    ensures forall k: nat :: k in desc[s] <==> k == s || UnderSome(merged[s], desc, k)
  {
    forall k: nat
      ensures k in desc[s] <==> k == s || UnderSome(merged[s], desc, k)
    {
      if k in desc[s] && k != s {
        assert UnderChild(merged, desc, s, k);
      }
    }
  }

  lemma SoFarBounded(g: Grammar, f: FirstInfo, a: Automaton, s: nat)
    requires SoFar(g, f, a) && s < |a.states|
    ensures Bounded(g, a.states[s])
  {
  }

  lemma ConnectingTargets(g: Grammar, f: FirstInfo, a0: Automaton, a: Automaton, s: nat, done: set<nat>)
    requires Connecting(g, f, a0, a, s, done)
    ensures |a.trans| == |a.states| && forall k | |a0.states| <= k < |a.states| :: TargetOf(a, s, k)
  {
  }

  lemma FilledIsExplored(g: Grammar, f: FirstInfo, a: Automaton, s: nat)
    requires SoFar(g, f, a) && s < |a.states| && a.trans[s] != map[]
    ensures Explored(g, f, a, s)
  {
  }

  lemma ExtendsSizes(a: Automaton, a': Automaton)
    requires Extends(a, a')
    ensures |a.trans| == |a.states| <= |a'.states| == |a'.trans|
  {
  }

  lemma ExtendsRow(a: Automaton, a': Automaton, s: nat)
    requires Extends(a, a') && s < |a.states| && a.trans[s] != map[]
    ensures |a.states| <= |a'.states| == |a'.trans| && a'.trans[s] == a.trans[s]
  {
  }

  lemma StartIsKernel(g: Grammar)
    requires g.WellFormed()
    ensures IsKernel(g, START_KERNEL)
  {
  }

  lemma FirstSoFar(g: Grammar, f: FirstInfo, a: Automaton)
    requires |a.states| == 1 && a.trans == [map[]] && LeastClosure(g, f, START_KERNEL, a.states[0])
    ensures SoFar(g, f, a)
  {
  }
}
