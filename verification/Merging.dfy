/** Merging states by LR(0) core and compacting their ids in place
    (src/parsergen/canonical_collection.cc 176-223, src/parsergen/derivation.h 201-208). */
module Mergings {
  import opened Grammars
  import opened Closures
  import opened Automata
  import opened Canonical
  import opened Machines

  // ------------------------------------------------ the bookkeeping, part by part
  // top[s] is the state that now stands for s.

  ghost predicate Tops(n: nat, top: seq<nat>) {
    && |top| == n
    && (forall s | 0 <= s < n :: top[s] < n)
    && (forall s | 0 <= s < n :: top[top[s]] == top[s])
  }

  /** Ids 0..stateN-1 name the standing states, every state carries the id of the one that stands
      for it, and the start state keeps id 0. */
  ghost predicate Ids(top: seq<nat>, ids: seq<nat>, idToState: map<nat, nat>, stateN: nat) {
    && |ids| == |top| > 0
    && idToState.Keys == Range(0, stateN)
    && (forall i | i in idToState :: idToState[i] < |top| && top[idToState[i]] == idToState[i] && ids[idToState[i]] == i)
    && (forall s | 0 <= s < |ids| :: ids[s] in idToState && idToState[ids[s]] == top[s])
    && ids[0] == 0
  }

  /** Two states share a standing state exactly when both were seen and their cores are equal. */
  ghost predicate Groups(a: Automaton, top: seq<nat>, seen: set<nat>)
    requires |top| == |a.states|
  {
    forall s, s' | 0 <= s < |top| && 0 <= s' < |top| ::
      top[s] == top[s'] <==> s == s' || (s in seen && s' in seen && a.Core(s) == a.Core(s'))
  }

  /** The items of a standing state have the union of the lookaheads of the states it stands for. */
  ghost predicate Unions(a: Automaton, top: seq<nat>, items: seq<ItemSet>)
    requires |top| == |a.states|
  {
    && |items| == |top|
    && (forall s | 0 <= s < |top| :: items[s].Keys == a.Core(s))
    && (forall r, it, x | 0 <= r < |top| && top[r] == r && it in items[r] :: x in items[r][it] <==> FromGroup(a, top, r, it, x))
  }

  ghost predicate FromGroup(a: Automaton, top: seq<nat>, r: nat, it: Item, x: nat)
    requires |top| == |a.states|
  {
    exists s: nat :: s < |top| && top[s] == r && it in a.states[s] && x in a.states[s][it]
  }

  /** desc[s] are s and all states merged under it; for a standing state, its whole group. */
  ghost predicate MergeTree(top: seq<nat>, merged: seq<seq<nat>>, desc: seq<set<nat>>) {
    && |merged| == |desc| == |top|
    && (forall s | 0 <= s < |top| :: Branch(top, merged, desc, s))
    && (forall r, s | 0 <= r < |top| && top[r] == r && 0 <= s < |top| :: s in desc[r] <==> top[s] == r)
  }

  ghost predicate Branch(top: seq<nat>, merged: seq<seq<nat>>, desc: seq<set<nat>>, s: nat)
    requires |merged| == |desc| == |top| && s < |top|
  {
    && s in desc[s]
    && (forall c | c in merged[s] :: c < |top| && top[c] != c && desc[c] < desc[s] && s !in desc[c])
    && (forall k | k in desc[s] :: k == s || UnderChild(merged, desc, s, k))
    && (forall k | k in desc[s] :: k < |top|)
  }

  ghost predicate UnderChild(merged: seq<seq<nat>>, desc: seq<set<nat>>, s: nat, k: nat)
    requires |merged| == |desc| && s < |merged|
  {
    exists c: nat :: c in merged[s] && c < |desc| && k in desc[c]
  }

  // ------------------------------------------------ one merge

  function NewTop(top: seq<nat>, keep: nat, merge: nat): (t: seq<nat>)
    ensures |t| == |top|
  {
    seq(|top|, s requires 0 <= s < |top| => if top[s] == merge then keep else top[s])
  }

  /** The states of a set renumbered. */
  function Renumber(ids: seq<nat>, who: set<nat>, id: nat): (t: seq<nat>)
    ensures |t| == |ids|
    ensures forall k | 0 <= k < |ids| :: t[k] == if k in who then id else ids[k]
  {
    seq(|ids|, k requires 0 <= k < |ids| => if k in who then id else ids[k])
  }

  /** Move the state with the last id into the freed id, then renumber the kept group. */
  function NewIds(ids: seq<nat>, desc: seq<set<nat>>, keep: nat, merge: nat, last: nat): seq<nat>
    requires keep < |desc| == |ids| && merge < |ids| && last < |ids|
  {
    var moved := if merge == last then ids else Renumber(ids, desc[last], ids[merge]);
    Renumber(moved, desc[keep] + desc[merge], moved[keep])
  }

  function NewIdToState(idToState: map<nat, nat>, id: nat, last: nat, stateN: nat): map<nat, nat> {
    var moved: map<nat, nat> := if id == stateN then idToState else idToState[id := last];
    moved - {stateN}
  }

  /** What the merge of two standing states may assume. */
  ghost predicate Mergeable(top: seq<nat>, ids: seq<nat>, keep: nat, merge: nat) {
    keep < |top| == |ids| && merge < |top| && top[keep] == keep && top[merge] == merge && ids[keep] < ids[merge]
  }

  lemma TopsMerge(n: nat, top: seq<nat>, keep: nat, merge: nat)
    requires Tops(n, top) && keep < n && merge < n && top[keep] == keep && top[merge] == merge && keep != merge
    ensures Tops(n, NewTop(top, keep, merge))
  {
  }

  /** The ids after a merge, state by state. */
  ghost predicate IdsAfter(top: seq<nat>, ids: seq<nat>, ids': seq<nat>, keep: nat, merge: nat, last: nat)
    requires keep < |ids| && merge < |ids| && |ids| == |top|
  {
    && |ids'| == |ids|
    && forall s | 0 <= s < |ids| ::
         ids'[s] == if top[s] == keep || top[s] == merge then ids[keep] else if top[s] == last then ids[merge] else ids[s]
  }

  lemma IdsMerge(n: nat, top: seq<nat>, ids: seq<nat>, idToState: map<nat, nat>, stateN: nat,
                 merged: seq<seq<nat>>, desc: seq<set<nat>>, keep: nat, merge: nat)
    requires Tops(n, top) && Ids(top, ids, idToState, stateN) && MergeTree(top, merged, desc) && Mergeable(top, ids, keep, merge)
    ensures stateN > 1 && stateN - 1 in idToState
    ensures var last := idToState[stateN - 1];
            && last < n && last != keep && (last == merge <==> ids[merge] == stateN - 1)
            && Ids(NewTop(top, keep, merge), NewIds(ids, desc, keep, merge, last),
                   NewIdToState(idToState, ids[merge], last, stateN - 1), stateN - 1)
  {
    LastId(n, top, ids, idToState, stateN, keep, merge);
    var last := idToState[stateN - 1];
    var ids' := NewIds(ids, desc, keep, merge, last);
    forall s | 0 <= s < |ids|
      ensures ids'[s] == if top[s] == keep || top[s] == merge then ids[keep] else if top[s] == last then ids[merge] else ids[s]
    {
      IdAfter(top, ids, idToState, stateN, merged, desc, keep, merge, s);
    }
    hide NewIds, MergeTree, Ids, NewTop, NewIdToState;
    assert IdsAfter(top, ids, ids', keep, merge, last);
    IdsStillName(n, top, ids, idToState, stateN, keep, merge, last, ids');
  }

  lemma LastId(n: nat, top: seq<nat>, ids: seq<nat>, idToState: map<nat, nat>, stateN: nat, keep: nat, merge: nat)
    requires Tops(n, top) && Ids(top, ids, idToState, stateN) && Mergeable(top, ids, keep, merge)
    ensures stateN > 1 && stateN - 1 in idToState && |ids| == n
    ensures var last := idToState[stateN - 1];
            last < n && last != keep && top[last] == last && ids[last] == stateN - 1 && (last == merge <==> ids[merge] == stateN - 1)
    ensures ids[keep] in idToState && idToState[ids[keep]] == keep && ids[merge] in idToState && idToState[ids[merge]] == merge
  {
    assert idToState[ids[keep]] == keep && idToState[ids[merge]] == merge;
  }

  /** The compacted ids name the standing states again. */
  lemma IdsStillName(n: nat, top: seq<nat>, ids: seq<nat>, idToState: map<nat, nat>, stateN: nat, keep: nat, merge: nat, last: nat, ids': seq<nat>)
    requires Tops(n, top) && Ids(top, ids, idToState, stateN) && Mergeable(top, ids, keep, merge)
    requires stateN > 1 && stateN - 1 in idToState && last == idToState[stateN - 1] && |ids| == n
    requires IdsAfter(top, ids, ids', keep, merge, last)
    ensures Ids(NewTop(top, keep, merge), ids', NewIdToState(idToState, ids[merge], last, stateN - 1), stateN - 1)
  {
    hide Tops, Mergeable, IdsAfter, NewTop, NewIdToState, Ids;
    FirstId(n, top, ids, idToState, stateN, keep, merge, last, ids');
    var top' := NewTop(top, keep, merge);
    var map' := NewIdToState(idToState, ids[merge], last, stateN - 1);
    forall i: nat | i < stateN - 1
      ensures i in map' && map'[i] < |top'| && top'[map'[i]] == map'[i] && ids'[map'[i]] == i
    {
      NamedState(n, top, ids, idToState, stateN, keep, merge, last, ids', i);
    }
    forall s: nat | s < |ids'|
      ensures ids'[s] in map' && map'[ids'[s]] == top'[s]
    {
      StateNamed(n, top, ids, idToState, stateN, keep, merge, last, ids', s);
    }
    AreIds(top', ids', map', stateN - 1);
  }

  lemma AreIds(top: seq<nat>, ids: seq<nat>, idToState: map<nat, nat>, stateN: nat)
    requires |ids| == |top| > 0 && ids[0] == 0 && idToState.Keys == Range(0, stateN)
    requires forall i: nat | i < stateN :: i in idToState && idToState[i] < |top| && top[idToState[i]] == idToState[i] && ids[idToState[i]] == i
    requires forall s: nat | s < |ids| :: ids[s] in idToState && idToState[ids[s]] == top[s]
    ensures Ids(top, ids, idToState, stateN)
  {
  }

  /** The start state's group stays first. */
  lemma FirstId(n: nat, top: seq<nat>, ids: seq<nat>, idToState: map<nat, nat>, stateN: nat, keep: nat, merge: nat, last: nat, ids': seq<nat>)
    requires Tops(n, top) && Ids(top, ids, idToState, stateN) && Mergeable(top, ids, keep, merge)
    requires stateN > 1 && stateN - 1 in idToState && last == idToState[stateN - 1] && |ids| == n
    requires IdsAfter(top, ids, ids', keep, merge, last)
    ensures |ids'| == |top| == n > 0 && ids'[0] == 0 && ids[merge] < stateN && merge < n
    ensures NewIdToState(idToState, ids[merge], last, stateN - 1).Keys == Range(0, stateN - 1)
  {
    LastId(n, top, ids, idToState, stateN, keep, merge);
    NewRange(idToState, ids[merge], last, stateN - 1);
  }

  lemma NewRange(idToState: map<nat, nat>, id: nat, last: nat, stateN: nat)
    requires idToState.Keys == Range(0, stateN + 1) && id <= stateN
    ensures NewIdToState(idToState, id, last, stateN).Keys == Range(0, stateN)
  {
  }

  lemma NamedState(n: nat, top: seq<nat>, ids: seq<nat>, idToState: map<nat, nat>, stateN: nat, keep: nat, merge: nat, last: nat, ids': seq<nat>, i: nat)
    requires Tops(n, top) && Ids(top, ids, idToState, stateN) && Mergeable(top, ids, keep, merge)
    requires stateN > 1 && stateN - 1 in idToState && last == idToState[stateN - 1] && |ids| == n
    requires IdsAfter(top, ids, ids', keep, merge, last) && i < stateN - 1
    ensures var map' := NewIdToState(idToState, ids[merge], last, stateN - 1); var top' := NewTop(top, keep, merge);
            i in map' && map'[i] < |top'| && top'[map'[i]] == map'[i] && ids'[map'[i]] == i
  {
    LastId(n, top, ids, idToState, stateN, keep, merge);
    assert i in idToState;
  }

  lemma StateNamed(n: nat, top: seq<nat>, ids: seq<nat>, idToState: map<nat, nat>, stateN: nat, keep: nat, merge: nat, last: nat, ids': seq<nat>, s: nat)
    requires Tops(n, top) && Ids(top, ids, idToState, stateN) && Mergeable(top, ids, keep, merge)
    requires stateN > 1 && stateN - 1 in idToState && last == idToState[stateN - 1] && |ids| == n
    requires IdsAfter(top, ids, ids', keep, merge, last) && s < n
    ensures var map' := NewIdToState(idToState, ids[merge], last, stateN - 1); var top' := NewTop(top, keep, merge);
            ids'[s] in map' && map'[ids'[s]] == top'[s]
  {
    LastId(n, top, ids, idToState, stateN, keep, merge);
    assert idToState[ids[s]] == top[s];
  }

  lemma IdAfter(top: seq<nat>, ids: seq<nat>, idToState: map<nat, nat>, stateN: nat,
                merged: seq<seq<nat>>, desc: seq<set<nat>>, keep: nat, merge: nat, s: nat)
    requires Tops(|top|, top) && Ids(top, ids, idToState, stateN) && MergeTree(top, merged, desc) && Mergeable(top, ids, keep, merge)
    requires s < |top| && stateN - 1 in idToState
    ensures var last := idToState[stateN - 1];
            NewIds(ids, desc, keep, merge, last)[s]
            == if top[s] == keep || top[s] == merge then ids[keep] else if top[s] == last then ids[merge] else ids[s]
  {
    hide Branch;
    assert idToState[ids[keep]] == keep && idToState[ids[merge]] == merge;
  }

  lemma GroupsMerge(a: Automaton, top: seq<nat>, seen: set<nat>, rep: nat, s: nat, keep: nat, merge: nat)
    requires Tops(|a.states|, top) && Groups(a, top, seen)
    requires rep < |top| && s < |top| && rep in seen && s !in seen && a.Core(rep) == a.Core(s)
    requires (keep == top[rep] && merge == top[s]) || (keep == top[s] && merge == top[rep])
    ensures top[s] == s && top[rep] != s
    ensures Groups(a, NewTop(top, keep, merge), seen + {s})
  {
    assert top[top[s]] == top[s];
  }

  lemma GroupsNew(a: Automaton, top: seq<nat>, seen: set<nat>, s: nat)
    requires Tops(|a.states|, top) && Groups(a, top, seen) && s < |top| && s !in seen
    requires forall p | p in seen && p < |top| :: a.Core(p) != a.Core(s)
    ensures Groups(a, top, seen + {s})
  {
  }

  function MergedItems(m: ItemSet, other: ItemSet): ItemSet {
    map it | it in m :: m[it] + if it in other then other[it] else {}
  }

  lemma UnionsMerge(a: Automaton, top: seq<nat>, items: seq<ItemSet>, keep: nat, merge: nat)
    requires Tops(|a.states|, top) && Unions(a, top, items)
    requires keep < |top| && merge < |top| && top[keep] == keep && top[merge] == merge && keep != merge
    requires a.Core(keep) == a.Core(merge)
    ensures Unions(a, NewTop(top, keep, merge), items[keep := MergedItems(items[keep], items[merge])])
  {
    var top' := NewTop(top, keep, merge);
    var items' := items[keep := MergedItems(items[keep], items[merge])];
    forall r, it, x | 0 <= r < |top'| && top'[r] == r && it in items'[r]
      ensures x in items'[r][it] <==> FromGroup(a, top', r, it, x)
    {
      UnionAfter(a, top, items, keep, merge, r, it, x);
    }
  }

  lemma UnionAfter(a: Automaton, top: seq<nat>, items: seq<ItemSet>, keep: nat, merge: nat, r: nat, it: Item, x: nat)
    requires Tops(|a.states|, top) && Unions(a, top, items)
    requires keep < |top| && merge < |top| && top[keep] == keep && top[merge] == merge && keep != merge
    requires a.Core(keep) == a.Core(merge) && r < |top| && it in items[r]
    requires var top' := NewTop(top, keep, merge); top'[r] == r
    ensures var top' := NewTop(top, keep, merge);
            x in (if r == keep then MergedItems(items[keep], items[merge]) else items[r])[it] <==> FromGroup(a, top', r, it, x)
  {
    var top' := NewTop(top, keep, merge);
    assert top[r] == r && r != merge;
    assert x in items[r][it] <==> FromGroup(a, top, r, it, x);
    assert r == keep ==> (x in items[merge][it] <==> FromGroup(a, top, merge, it, x));
    if r == keep {
      if FromGroup(a, top, keep, it, x) {
        var s: nat :| s < |top| && top[s] == keep && it in a.states[s] && x in a.states[s][it];
        assert top'[s] == keep;
      } else if FromGroup(a, top, merge, it, x) {
        var s: nat :| s < |top| && top[s] == merge && it in a.states[s] && x in a.states[s][it];
        assert top'[s] == keep;
      }
    } else if FromGroup(a, top, r, it, x) {
      var s: nat :| s < |top| && top[s] == r && it in a.states[s] && x in a.states[s][it];
      assert top'[s] == r;
    }
    if FromGroup(a, top', r, it, x) {
      var s: nat :| s < |top'| && top'[s] == r && it in a.states[s] && x in a.states[s][it];
      assert top[s] == r || (r == keep && top[s] == merge);
    }
  }

  function NewDesc(desc: seq<set<nat>>, keep: nat, merge: nat): seq<set<nat>>
    requires keep < |desc| && merge < |desc|
  {
    desc[keep := desc[keep] + desc[merge]]
  }

  lemma NewIdsAre(ids: seq<nat>, desc: seq<set<nat>>, keep: nat, merge: nat, last: nat, mid: seq<nat>)
    requires keep < |desc| == |ids| && merge < |ids| && last < |ids| && last != keep
    requires mid == if merge == last then ids else Renumber(ids, NewDesc(desc, keep, merge)[last], ids[merge])
    ensures |NewDesc(desc, keep, merge)| == |desc|
    ensures Renumber(mid, NewDesc(desc, keep, merge)[keep], mid[keep]) == NewIds(ids, desc, keep, merge, last)
  {
    hide Renumber;
  }

  lemma TreeMerge(top: seq<nat>, merged: seq<seq<nat>>, desc: seq<set<nat>>, keep: nat, merge: nat)
    requires Tops(|top|, top) && MergeTree(top, merged, desc)
    requires keep < |top| && merge < |top| && top[keep] == keep && top[merge] == merge && keep != merge
    ensures MergeTree(NewTop(top, keep, merge), merged[keep := merged[keep] + [merge]], NewDesc(desc, keep, merge))
  {
    var top', merged', desc' := NewTop(top, keep, merge), merged[keep := merged[keep] + [merge]], NewDesc(desc, keep, merge);
    forall s | 0 <= s < |top|
      ensures Branch(top', merged', desc', s)
    {
      if s == keep {
        BranchKept(top, merged, desc, keep, merge);
      } else {
        BranchOther(top, merged, desc, keep, merge, s);
      }
    }
  }

  lemma BranchOther(top: seq<nat>, merged: seq<seq<nat>>, desc: seq<set<nat>>, keep: nat, merge: nat, s: nat)
    requires Tops(|top|, top) && MergeTree(top, merged, desc) && s < |top| && s != keep
    requires keep < |top| && merge < |top| && top[keep] == keep && top[merge] == merge && keep != merge
    ensures Branch(NewTop(top, keep, merge), merged[keep := merged[keep] + [merge]], NewDesc(desc, keep, merge), s)
  {
    assert Branch(top, merged, desc, s);
    var merged', desc' := merged[keep := merged[keep] + [merge]], NewDesc(desc, keep, merge);
    forall k | k in desc[s] && k != s
      ensures UnderChild(merged', desc', s, k)
    {
      assert UnderChild(merged, desc, s, k);
      var c: nat :| c in merged[s] && c < |desc| && k in desc[c];
      assert c in merged'[s] && k in desc'[c];
    }
  }

  lemma BranchKept(top: seq<nat>, merged: seq<seq<nat>>, desc: seq<set<nat>>, keep: nat, merge: nat)
    requires Tops(|top|, top) && MergeTree(top, merged, desc)
    requires keep < |top| && merge < |top| && top[keep] == keep && top[merge] == merge && keep != merge
    ensures Branch(NewTop(top, keep, merge), merged[keep := merged[keep] + [merge]], NewDesc(desc, keep, merge), keep)
  {
    assert Branch(top, merged, desc, keep) && Branch(top, merged, desc, merge);
    var merged', desc' := merged[keep := merged[keep] + [merge]], NewDesc(desc, keep, merge);
    assert keep !in desc[merge] && merge !in desc[keep];
    forall k | k in desc'[keep] && k != keep
      ensures UnderChild(merged', desc', keep, k)
    {
      if k in desc[merge] {
        assert merge in merged'[keep] && k in desc'[merge];
      } else {
        assert UnderChild(merged, desc, keep, k);
        var c: nat :| c in merged[keep] && c < |desc| && k in desc[c];
        assert c in merged'[keep] && k in desc'[c];
      }
    }
    forall c | c in merged'[keep]
      ensures c < |top| && NewTop(top, keep, merge)[c] != c && desc'[c] < desc'[keep] && keep !in desc'[c]
    {
      if c in merged[keep] {
        assert c != keep;
      } else {
        assert c == merge;
        assert keep in desc'[keep];
      }
    }
  }

  /** Two states of equal core, one seen and one not, stand apart. */
  lemma StandingPair(a: Automaton, top: seq<nat>, ids: seq<nat>, idToState: map<nat, nat>, stateN: nat, seen: set<nat>, rep: nat, s: nat)
    requires Tops(|a.states|, top) && Ids(top, ids, idToState, stateN) && Groups(a, top, seen)
    requires rep < |top| && s < |top| && rep in seen && s !in seen && a.Core(rep) == a.Core(s)
    ensures |ids| == |top|
    ensures ids[rep] in idToState && idToState[ids[rep]] == top[rep]
    ensures ids[s] in idToState && idToState[ids[s]] == top[s]
    ensures ids[rep] != ids[s]
    ensures top[rep] < |top| && top[s] < |top| && top[rep] != top[s] && top[top[rep]] == top[rep] && top[top[s]] == top[s]
    ensures ids[top[rep]] == ids[rep] && ids[top[s]] == ids[s]
    ensures a.Core(top[rep]) == a.Core(top[s])
  {
    assert top[top[rep]] == top[rep] && top[top[s]] == top[s];
  }

  lemma MergeSizes(a: Automaton, top: seq<nat>, items: seq<ItemSet>, merged: seq<seq<nat>>, desc: seq<set<nat>>, keep: nat, merge: nat)
    requires |top| == |a.states| && Unions(a, top, items) && MergeTree(top, merged, desc) && keep < |top| && merge < |top|
    requires a.Core(keep) == a.Core(merge)
    ensures |items| == |merged| == |desc| == |top| && items[keep].Keys == items[merge].Keys
  {
  }

  // ------------------------------------------------ where merging starts

  function Singletons(n: nat): seq<set<nat>> {
    seq(n, s => {s})
  }

  function Identity(n: nat): seq<nat> {
    seq(n, s => s)
  }

  lemma MergingStart(a: Automaton, ids: seq<nat>, idToState: map<nat, nat>, merged: seq<seq<nat>>)
    requires 0 < |a.states| == |ids| == |merged|
    requires forall s | 0 <= s < |ids| :: ids[s] == s && merged[s] == []
    requires idToState.Keys == Range(0, |ids|) && forall s | s in idToState :: idToState[s] == s
    ensures var n := |a.states|; var top := Identity(n);
            Tops(n, top) && Ids(top, ids, idToState, n) && Groups(a, top, {}) && Unions(a, top, a.states)
            && MergeTree(top, merged, Singletons(n))
  {
    var n := |a.states|;
    var top := Identity(n);
    forall r, it, x | 0 <= r < n && top[r] == r && it in a.states[r]
      ensures x in a.states[r][it] <==> FromGroup(a, top, r, it, x)
    {
      if x in a.states[r][it] {
        assert top[r] == r;
      }
    }
    forall s | 0 <= s < n
      ensures Branch(top, merged, Singletons(n), s)
    {
    }
  }

  // ------------------------------------------------ what merging leaves

  /** The graph in use after merging, with ids for states. */
  function Compacted(items: seq<ItemSet>, dfa: seq<map<nat, nat>>, ids: seq<nat>, idToState: map<nat, nat>, n: nat): Automaton
    requires forall i | 0 <= i < n :: i in idToState && idToState[i] < |items| && idToState[i] < |dfa|
  {
    Automaton(seq(n, i requires 0 <= i < n => items[idToState[i]]),
              seq(n, i requires 0 <= i < n => IdRow(dfa[idToState[i]], ids)))
  }

  function IdRow(row: map<nat, nat>, ids: seq<nat>): map<nat, nat> {
    map x | x in row :: if row[x] < |ids| then ids[row[x]] else 0
  }

  /** Advancing equal cores gives equal cores, so classes have well-defined transitions. */
  lemma TargetsAgree(g: Grammar, a: Automaton, s: nat, s': nat, x: nat)
    requires CoreAutomaton(g, a) && s < |a.states| && s' < |a.states| && a.Core(s) == a.Core(s') && x in a.trans[s]
    ensures x in a.trans[s'] && a.trans[s][x] < |a.states| && a.trans[s'][x] < |a.states|
    ensures a.Core(a.trans[s][x]) == a.Core(a.trans[s'][x])
  {
    hide CoreClosure;
    assert Edge(g, a, s, x);
    assert a.trans[s].Keys == a.trans[s'].Keys;
    assert Edge(g, a, s', x);
    CoreClosureUnique(g, AdvanceCore(g, a.Core(s), x), a.Core(a.trans[s][x]), a.Core(a.trans[s'][x]));
  }

  lemma MergedClass(g: Grammar, a: Automaton, top: seq<nat>, items: seq<ItemSet>, ids: seq<nat>, idToState: map<nat, nat>, n: nat, s: nat, all: set<nat>)
    requires CoreAutomaton(g, a) && Tops(|a.states|, top) && Ids(top, ids, idToState, n) && Unions(a, top, items)
    requires Groups(a, top, all) && (forall p | 0 <= p < |top| :: p in all) && s < |top|
    ensures Merged(a, Compacted(items, a.trans, ids, idToState, n), ids, s)
  {
    hide CoreAutomaton, Ids;
    SameSize(g, a);
    IdsAt(top, ids, idToState, n, s);
    var a1 := Compacted(items, a.trans, ids, idToState, n);
    var r := top[s];
    assert top[r] == r && a.Core(r) == a.Core(s);
    assert a1.states[ids[s]] == items[r] && a1.trans[ids[s]] == IdRow(a.trans[r], ids);
    RowKeys(g, a, r, s);
    forall it, x | it in a.states[s] && x in a.states[s][it]
      ensures x in items[r][it]
    {
      assert FromGroup(a, top, r, it, x);
    }
    forall x | x in a.trans[s]
      ensures a.trans[s][x] < |ids| && a1.trans[ids[s]][x] == ids[a.trans[s][x]]
    {
      TargetsAgree(g, a, s, r, x);
      IdsAt(top, ids, idToState, n, a.trans[s][x]);
      IdsAt(top, ids, idToState, n, a.trans[r][x]);
      assert top[a.trans[s][x]] == top[a.trans[r][x]];
    }
  }

  lemma RowKeys(g: Grammar, a: Automaton, r: nat, s: nat)
    requires CoreAutomaton(g, a) && r < |a.states| && s < |a.states| && a.Core(r) == a.Core(s)
    ensures a.trans[r].Keys == a.trans[s].Keys
  {
  }

  lemma IdsAt(top: seq<nat>, ids: seq<nat>, idToState: map<nat, nat>, n: nat, s: nat)
    requires Ids(top, ids, idToState, n) && s < |top|
    ensures |ids| == |top| && ids[s] < n && ids[s] in idToState && idToState[ids[s]] == top[s]
    ensures top[s] < |ids| && ids[top[s]] == ids[s]
    ensures forall i | 0 <= i < n :: i in idToState && idToState[i] < |top|
  {
  }

  lemma ContributedClass(g: Grammar, a: Automaton, top: seq<nat>, items: seq<ItemSet>, ids: seq<nat>, idToState: map<nat, nat>, n: nat, i: nat, it: Item, x: nat)
    requires |a.trans| == |a.states| && Tops(|a.states|, top) && Ids(top, ids, idToState, n) && Unions(a, top, items)
    requires i < n
    requires var m := items[idToState[i]]; it in m && x in m[it]
    ensures Contributed(a, ids, i, it, x)
  {
    var r := idToState[i];
    assert FromGroup(a, top, r, it, x);
    var s: nat :| s < |top| && top[s] == r && it in a.states[s] && x in a.states[s][it];
    assert ids[s] == i;
  }

  lemma IdClasses(a: Automaton, top: seq<nat>, ids: seq<nat>, idToState: map<nat, nat>, n: nat, all: set<nat>, s: nat, s': nat)
    requires Tops(|a.states|, top) && Ids(top, ids, idToState, n)
    requires Groups(a, top, all) && (forall p | 0 <= p < |top| :: p in all) && s < |top| && s' < |top|
    ensures ids[s] == ids[s'] <==> a.Core(s) == a.Core(s')
  {
    hide Ids;
    IdsAt(top, ids, idToState, n, s);
    IdsAt(top, ids, idToState, n, s');
  }

  /** Bookkeeping: once every state has been seen, ids 0..n-1 are in bijection with the core
      classes, and the graph in use is the quotient. */
  lemma MergingDone(g: Grammar, a: Automaton, top: seq<nat>, items: seq<ItemSet>, ids: seq<nat>, idToState: map<nat, nat>, n: nat, all: set<nat>)
    requires CoreAutomaton(g, a) && Tops(|a.states|, top) && Ids(top, ids, idToState, n) && Unions(a, top, items)
    requires Groups(a, top, all) && forall p | 0 <= p < |top| :: p in all
    ensures forall i | 0 <= i < n :: i in idToState && idToState[i] < |items| && idToState[i] < |a.trans|
    ensures IsQuotient(g, a, Compacted(items, a.trans, ids, idToState, n), ids)
  {
    hide CoreAutomaton, Groups, Merged, Contributed, Ids, Unions, Tops;
    SameSize(g, a);
    IdsAll(top, ids, idToState, n);
    UnionSizes(a, top, items);
    var a1 := Compacted(items, a.trans, ids, idToState, n);
    forall s | 0 <= s < |ids|
      ensures Merged(a, a1, ids, s) && ids[s] < n
    {
      IdsAt(top, ids, idToState, n, s);
      MergedClass(g, a, top, items, ids, idToState, n, s, all);
    }
    forall s, s' | 0 <= s < |ids| && 0 <= s' < |ids|
      ensures ids[s] == ids[s'] <==> a.Core(s) == a.Core(s')
    {
      IdClasses(a, top, ids, idToState, n, all, s, s');
    }
    forall i, it, x | 0 <= i < |a1.states| && it in a1.states[i] && x in a1.states[i][it]
      ensures Contributed(a, ids, i, it, x)
    {
      ContributedClass(g, a, top, items, ids, idToState, n, i, it, x);
    }
  }

  lemma UnionSizes(a: Automaton, top: seq<nat>, items: seq<ItemSet>)
    requires Tops(|a.states|, top) && Unions(a, top, items)
    ensures |items| == |top| == |a.states|
  {
  }

  lemma IdsAll(top: seq<nat>, ids: seq<nat>, idToState: map<nat, nat>, n: nat)
    requires Ids(top, ids, idToState, n)
    ensures |ids| == |top| > 0 && ids[0] == 0
    ensures forall i | 0 <= i < n :: i in idToState && idToState[i] < |top|
    ensures forall i | 0 <= i < n :: Occurs(ids, i)
  {
    forall i | 0 <= i < n
      ensures Occurs(ids, i)
    {
      assert i in idToState && ids[idToState[i]] == i;
    }
  }
}
