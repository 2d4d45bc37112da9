/** Bounds on what the closure computes: lookaheads stay inside FOLLOW, and acceptance never meets a
    reduction in a tame grammar. */
module Follows {
  import opened Graphs
  import opened Grammars
  import opened Closures
  import opened FirstProofs
  import opened Automata
  import opened Tables
  import opened Machines
  import opened Canonical

  // ------------------------------------------------ FOLLOW

  /** The token a can come right after x in a sentential form of the start symbol that is itself
      followed by end of input. */
  ghost predicate Follow(g: Grammar, x: nat, a: nat)
    requires g.WellFormed()
  {
    exists p: seq<nat>, q: seq<nat> :: DerivesStar(g, [g.Start(), 0], p + [x] + [a] + q)
  }

  /** What a lookahead of an item may be. */
  ghost predicate MayFollow(g: Grammar, it: Item, a: nat)
    requires g.WellFormed()
  {
    if it.rule == 0 then a == 0 else Follow(g, Lhs(g, it), a)
  }

  /** The left side of an item for a viable prefix, in some form before end of input. */
  lemma ValidForm(g: Grammar, syms: seq<nat>, it: Item) returns (p: seq<nat>, q: seq<nat>)
    requires g.WellFormed() && ValidItem(g, syms, it)
    ensures DerivesStar(g, [g.Start(), 0], p + g.rules[it.rule].rhs + q)
  {
    if it.rule == 0 {
      p, q := [], [0];
      StarRefl(g, [g.Start(), 0]);
      assert [] + g.rules[0].rhs + [0] == [g.Start(), 0];
    } else {
      p := syms[..|syms| - it.dot];
      var rest := SententialRule(g, p, it.rule);
      q := rest + [0];
      StarContext(g, [], [g.Start()], p + g.rules[it.rule].rhs + rest, [0]);
      assert [] + [g.Start()] + [0] == [g.Start(), 0];
      assert [] + (p + g.rules[it.rule].rhs + rest) + [0] == p + g.rules[it.rule].rhs + q;
    }
  }

  /** The form of a lookahead: the item's right-hand side with the lookahead after it. */
  lemma LookaheadForm(g: Grammar, it: Item, a: nat) returns (p: seq<nat>, q: seq<nat>)
    requires g.WellFormed() && it.rule < |g.rules| && MayFollow(g, it, a)
    ensures DerivesStar(g, [g.Start(), 0], p + g.rules[it.rule].rhs + [a] + q)
  {
    if it.rule == 0 {
      p, q := [], [];
      StarRefl(g, [g.Start(), 0]);
      assert [] + g.rules[0].rhs + [0] + [] == [g.Start(), 0];
    } else {
      p, q :| DerivesStar(g, [g.Start(), 0], p + [Lhs(g, it)] + [a] + q);
      StarRule(g, it.rule);
      StarContext(g, p, [Lhs(g, it)], g.rules[it.rule].rhs, [a] + q);
      assert p + [Lhs(g, it)] + ([a] + q) == p + [Lhs(g, it)] + [a] + q;
      assert p + g.rules[it.rule].rhs + ([a] + q) == p + g.rules[it.rule].rhs + [a] + q;
      StarTrans(g, [g.Start(), 0], p + [Lhs(g, it)] + [a] + q, p + g.rules[it.rule].rhs + [a] + q);
    }
  }

  /** If beta derives a form that begins with b, then b follows the symbol before beta. */
  lemma FollowByFirst(g: Grammar, p: seq<nat>, rhs: seq<nat>, d: nat, q: seq<nat>, b: nat, t: seq<nat>)
    requires g.WellFormed() && d < |rhs|
    requires DerivesStar(g, [g.Start(), 0], p + rhs + q)
    requires DerivesStar(g, rhs[d + 1..] + q, [b] + t)
    ensures Follow(g, rhs[d], b)
  {
    var p' := p + rhs[..d] + [rhs[d]];
    StarContext(g, p', rhs[d + 1..] + q, [b] + t, []);
    assert p' + (rhs[d + 1..] + q) + [] == p + rhs + q;
    assert p' + ([b] + t) + [] == (p + rhs[..d]) + [rhs[d]] + [b] + t;
    StarTrans(g, [g.Start(), 0], p + rhs + q, (p + rhs[..d]) + [rhs[d]] + [b] + t);
  }

  lemma FollowInside(g: Grammar, f: FirstInfo, syms: seq<nat>, it: Item, b: nat)
    requires g.WellFormed() && Sound(g, f) && ValidItem(g, syms, it) && NotFinal(g, it)
    requires b in NextLookaheads(g, f, g.rules[it.rule].rhs, it.dot + 1, {})
    ensures Follow(g, Curr(g, it), b)
  {
    hide Sound, ValidItem, Follow;
    var rhs, d := g.rules[it.rule].rhs, it.dot;
    var t := BeginsSeq(g, f, rhs, d + 1, b);
    var p, q := ValidForm(g, syms, it);
    StarContext(g, [], rhs[d + 1..], [b] + t, q);
    assert [] + rhs[d + 1..] + q == rhs[d + 1..] + q;
    assert [] + ([b] + t) + q == [b] + (t + q);
    FollowByFirst(g, p, rhs, d, q, b, t + q);
  }

  lemma BehindForm(p: seq<nat>, rhs: seq<nat>, b: nat, q: seq<nat>, rest: seq<nat>)
    ensures p + rhs + [b] + q == p + rhs + ([b] + q)
    ensures [] + rest + ([b] + q) == rest + ([b] + q) && [] + [] + ([b] + q) == [b] + q
  {
  }

  lemma FollowBehind(g: Grammar, f: FirstInfo, it: Item, b: nat)
    requires g.WellFormed() && Sound(g, f) && NotFinal(g, it) && MayFollow(g, it, b)
    requires AllEmpty(f, g.rules[it.rule].rhs[it.dot + 1..])
    ensures Follow(g, Curr(g, it), b)
  {
    hide Sound, MayFollow, Follow, DerivesStar, AllEmpty;
    var rhs, d := g.rules[it.rule].rhs, it.dot;
    AllEmptyDerives(g, f, rhs, d + 1);
    var p, q := LookaheadForm(g, it, b);
    StarContext(g, [], rhs[d + 1..], [], [b] + q);
    BehindForm(p, rhs, b, q, rhs[d + 1..]);
    FollowByFirst(g, p, rhs, d, [b] + q, b, q);
  }

  /** One closure step keeps lookaheads inside FOLLOW. */
  lemma FollowStep(g: Grammar, f: FirstInfo, syms: seq<nat>, it: Item, it2: Item, la: set<nat>, b: nat)
    requires g.WellFormed() && Sound(g, f) && ValidItem(g, syms, it) && AtNonterminal(g, it)
    requires Lhs(g, it2) == Curr(g, it) && forall a | a in la :: MayFollow(g, it, a)
    requires forall x | x in f.empty :: !g.IsAction(x)
    requires b in NextLookaheads(g, f, g.rules[it.rule].rhs, it.dot + 1, la)
    ensures MayFollow(g, it2, b)
  {
    hide Sound, ValidItem, Follow;
    var rhs, d := g.rules[it.rule].rhs, it.dot;
    if b in NextLookaheads(g, f, rhs, d + 1, {}) {
      FollowInside(g, f, syms, it, b);
    } else {
      NextPasses(g, f, rhs, d + 1, la);
      assert MayFollow(g, it, b);
      FollowBehind(g, f, it, b);
    }
  }

  lemma AllEmptyDerives(g: Grammar, f: FirstInfo, s: seq<nat>, j: nat)
    requires j <= |s| && Sound(g, f) && AllEmpty(f, s[j..]) && forall i | 0 <= i < |s| :: s[i] < g.tokenN
    ensures DerivesStar(g, s[j..], [])
  {
    NullableSeq(g, f, s[j..], 0);
    assert s[j..][0..] == s[j..];
  }

  lemma ClosureFollow(g: Grammar, f: FirstInfo, syms: seq<nat>, kernel: ItemSet, m: ItemSet)
    requires g.WellFormed() && Sound(g, f) && LeastClosure(g, f, kernel, m)
    requires forall x | x in f.empty :: !g.IsAction(x)
    requires forall it | it in m :: ValidItem(g, syms, it)
    requires forall it, a | it in kernel && a in kernel[it] :: MayFollow(g, it, a)
    ensures forall it, a | it in m && a in m[it] :: MayFollow(g, it, a)
  {
    hide LeastClosure, ValidItem, Sound;
    forall it, it2, la: set<nat>, a |
        && it in m && it2 in m && AtNonterminal(g, it) && Lhs(g, it2) == Curr(g, it)
        && la <= m[it] && (forall b | b in la :: MayFollow(g, it, b))
        && a in NextLookaheads(g, f, g.rules[it.rule].rhs, it.dot + 1, la)
      ensures MayFollow(g, it2, a)
    {
      FollowStep(g, f, syms, it, it2, la, a);
    }
    LookaheadBound(g, f, kernel, m, (it: Item, a: nat) => MayFollow(g, it, a));
  }

  lemma {:induction false} CanonicalPath(g: Grammar, f: FirstInfo, a: Automaton, s: nat) returns (states: seq<nat>, syms: seq<nat>)
    requires CoreAutomaton(g, a) && IsCanonical(g, f, a) && s < |a.states|
    ensures Path(a, states, syms) && states[|syms|] == s
    decreases s
  {
    hide CoreAutomaton, LeastClosure;
    if s == 0 {
      states, syms := [0], [];
    } else {
      assert Reached(a, s);
      var p: nat, x: nat :| p < s && Link(a, p, x, s);
      states, syms := CanonicalPath(g, f, a, p);
      PathPush(g, a, states, syms, x);
      states, syms := states + [s], syms + [x];
    }
  }

  lemma CanonicalValid(g: Grammar, f: FirstInfo, a: Automaton, s: nat) returns (syms: seq<nat>)
    requires g.WellFormed() && IsCanonical(g, f, a) && s < |a.states|
    ensures forall it | it in a.states[s] :: ValidItem(g, syms, it)
  {
    hide IsCanonical, CoreAutomaton, ValidItem;
    CanonicalCore(g, f, a);
    var states;
    states, syms := CanonicalPath(g, f, a, s);
    PathItemsValid(g, a, states, syms);
  }

  /** Every lookahead of every state of the CLR(1) graph is in FOLLOW of its item's left side. */
  lemma {:induction false} CanonicalFollow(g: Grammar, f: FirstInfo, a: Automaton, s: nat)
    requires g.WellFormed() && Sound(g, f) && IsCanonical(g, f, a) && s < |a.states|
    requires forall x | x in f.empty :: !g.IsAction(x)
    ensures forall it, b | it in a.states[s] && b in a.states[s][it] :: MayFollow(g, it, b)
    decreases s
  {
    hide LeastClosure, ValidItem, MayFollow, Sound;
    var syms := CanonicalValid(g, f, a, s);
    if s == 0 {
      KernelFollow(g);
      ClosureFollow(g, f, syms, START_KERNEL, a.states[0]);
    } else {
      assert Reached(a, s);
      var p: nat, x: nat :| p < s && Link(a, p, x, s);
      CanonicalFollow(g, f, a, p);
      assert ClosureEdge(g, f, a, p, x);
      AdvanceFollow(g, a.states[p], x);
      ClosureFollow(g, f, syms, Advance(g, a.states[p], x), a.states[s]);
    }
  }

  lemma KernelFollow(g: Grammar)
    requires g.WellFormed()
    ensures MayFollow(g, Item(0, 0), 0)
  {
  }

  lemma AdvanceFollow(g: Grammar, m: ItemSet, x: nat)
    requires g.WellFormed() && forall it, b | it in m && b in m[it] :: MayFollow(g, it, b)
    ensures forall it, b | it in Advance(g, m, x) && b in Advance(g, m, x)[it] :: MayFollow(g, it, b)
  {
    forall it, b | it in Advance(g, m, x) && b in Advance(g, m, x)[it]
      ensures MayFollow(g, it, b)
    {
      var i :| i in m && NotFinal(g, i) && Curr(g, i) == x && Item(i.rule, i.dot + 1) == it;
      assert MayFollow(g, i, b);
    }
  }

  /** The same for the LALR(1) graph. */
  lemma QuotientFollow(g: Grammar, f: FirstInfo, a0: Automaton, a1: Automaton, c: seq<nat>, i: nat, it: Item, b: nat)
    requires g.WellFormed() && Sound(g, f) && IsCanonical(g, f, a0) && IsQuotient(g, a0, a1, c)
    requires forall x | x in f.empty :: !g.IsAction(x)
    requires i < |a1.states| && it in a1.states[i] && b in a1.states[i][it]
    ensures MayFollow(g, it, b)
  {
    var s := ContributedBy(g, a0, a1, c, i, it, b);
    CanonicalFollow(g, f, a0, s);
  }

  // ------------------------------------------------ accept against reduce

  /** No state is asked to accept and to reduce on the same token. */
  ghost predicate NoAcceptReduce(g: Grammar, a: Automaton) {
    forall s, r: nat, x: nat | 0 <= s < |a.states| && Reduces(g, a.states[s], 0, x) && Reduces(g, a.states[s], r, x) :: r == 0
  }

  /** Every item of the start state expands a left corner of the start symbol. */
  lemma StartCorners(g: Grammar, k: set<Item>, r: nat)
    requires g.WellFormed() && CoreClosure(g, {Item(0, 0)}, k) && g.IsRule(r) && Item(r, 0) in k
    ensures g.rules[r].lhs == g.Start() || Reaches(LeftCorners(g), g.Start(), g.rules[r].lhs)
  {
    var other := set it | it in k && it.dot == 0
                          && (it.rule == 0 || (it.rule < |g.rules|
                                               && (Lhs(g, it) == g.Start() || Reaches(LeftCorners(g), g.Start(), Lhs(g, it)))));
    forall it, q: nat | it in other && AtNonterminal(g, it) && q < |g.rules| && g.rules[q].lhs == Curr(g, it)
      ensures Item(q, 0) in other
    {
      assert Item(q, 0) in k;
      var x := Curr(g, it);
      if it.rule > 0 {
        assert LeftCorner(g, Lhs(g, it), x);
        if Lhs(g, it) == g.Start() {
          ReachesEdge(LeftCorners(g), g.Start(), x);
        } else {
          ReachesStep(LeftCorners(g), g.Start(), Lhs(g, it), x);
        }
      }
    }
    assert CoreClosed(g, other);
    assert Item(0, 0) in other;
  }

  /** The final augment item is only in the state after the start state and the start symbol. */
  lemma AcceptOrigin(g: Grammar, f: FirstInfo, a: Automaton, s: nat)
    requires g.WellFormed() && IsCanonical(g, f, a) && s < |a.states| && Item(0, 1) in a.states[s]
    ensures CoreAutomaton(g, a) && Link(a, 0, g.Start(), s)
  {
    CanonicalCore(g, f, a);
    hide LeastClosure, CoreAutomaton;
    if s == 0 {
      StartItems(g, a, Item(0, 1));
    } else {
      assert Reached(a, s);
      var p: nat, x: nat :| p < s && Link(a, p, x, s);
      LinkBack(g, a, p, x, s, Item(0, 1));
      if p > 0 {
        assert Reached(a, p);
        var p': nat, x': nat :| p' < p && Link(a, p', x', p);
        LinkNoAugment(g, a, p', x', p);
      }
    }
  }

  /** No rule is empty, and no item of the start state is over the start symbol alone but the augment
      item; a check of the LR(0) items of the start state. */
  ghost predicate StartApart(g: Grammar)
    requires g.WellFormed()
  {
    && (forall r | 0 <= r < |g.rules| :: g.rules[r].rhs != [])
    && (forall k, r: nat | CoreClosure(g, {Item(0, 0)}, k) && g.IsRule(r) && Item(r, 0) in k :: g.rules[r].rhs != [g.Start()])
  }

  lemma TameStartApart(g: Grammar)
    requires g.WellFormed() && Tame(g)
    ensures StartApart(g)
  {
    hide CoreClosure;
    forall k, r: nat | CoreClosure(g, {Item(0, 0)}, k) && g.IsRule(r) && Item(r, 0) in k
      ensures g.rules[r].rhs != [g.Start()]
    {
      StartCorners(g, k, r);
      if g.rules[r].rhs == [g.Start()] {
        assert LeftCorner(g, g.rules[r].lhs, g.Start());
        ReachesEdge(LeftCorners(g), g.rules[r].lhs, g.Start());
      }
    }
  }

  lemma ApartStateAccepts(g: Grammar, f: FirstInfo, a: Automaton, s: nat, r: nat)
    requires g.WellFormed() && StartApart(g) && IsCanonical(g, f, a) && s < |a.states| && r < |g.rules|
    requires Item(0, 1) in a.states[s] && Item(r, |g.rules[r].rhs|) in a.states[s]
    ensures r == 0
  {
    hide IsCanonical, CoreAutomaton, StartApart;
    AcceptOrigin(g, f, a, s);
    SameSize(g, a);
    ApartRule(g, r);
    var n, x := |g.rules[r].rhs|, g.Start();
    LinkBack(g, a, 0, x, s, Item(r, n));
    StartItems(g, a, Item(r, n - 1));
    assert g.rules[r].rhs == [x];
    if r > 0 {
      ApartStart(g, a, r);
    }
  }

  lemma ApartRule(g: Grammar, r: nat)
    requires g.WellFormed() && StartApart(g) && r < |g.rules|
    ensures g.rules[r].rhs != []
  {
  }

  lemma ApartStart(g: Grammar, a: Automaton, r: nat)
    requires g.WellFormed() && StartApart(g) && CoreAutomaton(g, a) && g.IsRule(r) && Item(r, 0) in a.Core(0)
    ensures g.rules[r].rhs != [g.Start()]
  {
    hide CoreClosure;
  }

  /** Such grammars never ask a state to accept and to reduce, in either graph. */
  lemma ApartNoAcceptReduce(g: Grammar, f: FirstInfo, a: Automaton)
    requires g.WellFormed() && StartApart(g) && Collected(g, f, a)
    ensures NoAcceptReduce(g, a)
  {
    hide IsCanonical, CoreClosure, StartApart;
    forall s, r: nat, x: nat | 0 <= s < |a.states| && Reduces(g, a.states[s], 0, x) && Reduces(g, a.states[s], r, x)
      ensures r == 0
    {
      if IsCanonical(g, f, a) {
        ApartStateAccepts(g, f, a, s, r);
      } else {
        var a0, c :| IsCanonical(g, f, a0) && IsQuotient(g, a0, a, c);
        var s0 := QuotientState(g, f, a0, a, c, s);
        assert a0.Core(s0) == a.Core(s);
        ApartStateAccepts(g, f, a0, s0, r);
      }
    }
  }

  /** No item of the start state begins with the start symbol but the augment item; empty rules are allowed. */
  ghost predicate StartAlone(g: Grammar)
    requires g.WellFormed()
  {
    forall k, r: nat | CoreClosure(g, {Item(0, 0)}, k) && g.IsRule(r) && Item(r, 0) in k && g.rules[r].rhs != [] ::
      g.rules[r].rhs[0] != g.Start()
  }

  lemma AloneKernel(g: Grammar, k: set<Item>, k': set<Item>)
    requires g.WellFormed() && StartAlone(g) && CoreClosure(g, {Item(0, 0)}, k) && CoreClosure(g, AdvanceCore(g, k, g.Start()), k')
    ensures k' <= {Item(0, 1)}
  {
    forall it | it in AdvanceCore(g, k, g.Start())
      ensures it == Item(0, 1)
    {
      var from: Item :| from in k && NotFinal(g, from) && Curr(g, from) == g.Start() && it == Item(from.rule, from.dot + 1);
      if from.dot > 0 {
        CoreKernelItems(g, {Item(0, 0)}, k, from);
      }
      assert from == Item(from.rule, 0);
    }
    assert CoreClosed(g, {Item(0, 1)});
  }

  lemma AloneStateAccepts(g: Grammar, f: FirstInfo, a: Automaton, s: nat, r: nat)
    requires g.WellFormed() && StartAlone(g) && IsCanonical(g, f, a) && s < |a.states| && r < |g.rules|
    requires Item(0, 1) in a.states[s] && Item(r, |g.rules[r].rhs|) in a.states[s]
    ensures r == 0
  {
    hide IsCanonical, CoreAutomaton, StartAlone, CoreClosure;
    AcceptOrigin(g, f, a, s);
    StartLink(g, a, s);
    AloneKernel(g, a.Core(0), a.Core(s));
  }

  lemma StartLink(g: Grammar, a: Automaton, s: nat)
    requires g.WellFormed() && CoreAutomaton(g, a) && Link(a, 0, g.Start(), s)
    ensures s < |a.states| && 0 < |a.states|
    ensures CoreClosure(g, {Item(0, 0)}, a.Core(0)) && CoreClosure(g, AdvanceCore(g, a.Core(0), g.Start()), a.Core(s))
  {
    hide CoreClosure, Bounded;
    assert Edge(g, a, 0, g.Start());
  }

  /** Such grammars neither. */
  lemma AloneNoAcceptReduce(g: Grammar, f: FirstInfo, a: Automaton)
    requires g.WellFormed() && StartAlone(g) && Collected(g, f, a)
    ensures NoAcceptReduce(g, a)
  {
    hide IsCanonical, CoreClosure, StartAlone;
    forall s, r: nat, x: nat | 0 <= s < |a.states| && Reduces(g, a.states[s], 0, x) && Reduces(g, a.states[s], r, x)
      ensures r == 0
    {
      if IsCanonical(g, f, a) {
        AloneStateAccepts(g, f, a, s, r);
      } else {
        var a0, c :| IsCanonical(g, f, a0) && IsQuotient(g, a0, a, c);
        var s0 := QuotientState(g, f, a0, a, c, s);
        assert a0.Core(s0) == a.Core(s);
        AloneStateAccepts(g, f, a0, s0, r);
      }
    }
  }

  /** Tame grammars are such grammars. */
  lemma TameNoAcceptReduce(g: Grammar, f: FirstInfo, a: Automaton)
    requires g.WellFormed() && Tame(g) && Collected(g, f, a)
    ensures NoAcceptReduce(g, a)
  {
    hide Collected, StartApart, NoAcceptReduce;
    TameStartApart(g);
    ApartNoAcceptReduce(g, f, a);
  }
}
