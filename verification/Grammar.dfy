/** Grammars, parse trees and derivations: the meaning that the tables must preserve.
    Symbols are table columns: a token's value minus the 256 values reserved for ASCII. */
module Grammars {

  /** What the lexer and the reduction code compute; any type will do. */
  type Value(==, !new)

  /** One result of the lexer: 0 is end of input, a negative token is a lexing error. */
  datatype Lexeme = Lexeme(tok: int, val: Value)

  datatype Rule = Rule(lhs: nat, rhs: seq<nat>)

  /** Columns [0, actionN) are tokens, [actionN, tokenN) are nonterminals and tokenN is the
      augment symbol. Rule 0 is the augment rule. */
  datatype Grammar = Grammar(rules: seq<Rule>, tokenN: nat, actionN: nat) {

    predicate IsAction(x: nat) {
      x < actionN
    }

    predicate IsRule(r: nat) {
      0 < r < |rules|
    }

    /** What the code generator guarantees of the grammars it hands to the table generator. */
    ghost predicate WellFormed() {
      && 1 <= actionN < tokenN
      && 1 <= |rules|
      && rules[0].lhs == tokenN
      && |rules[0].rhs| == 1
      && (forall r | 0 < r < |rules| :: actionN <= rules[r].lhs < tokenN)
      && (forall r, j | 0 <= r < |rules| && 0 <= j < |rules[r].rhs| :: 0 < rules[r].rhs[j] < tokenN)
      && (forall x | actionN <= x < tokenN :: HasProduction(x))
    }

    ghost predicate HasProduction(x: nat) {
      exists r :: 0 < r < |rules| && rules[r].lhs == x
    }

    function Start(): nat
      requires WellFormed()
    {
      rules[0].rhs[0]
    }
  }

  // ---------------------------------------------------------------- parse trees

  datatype Tree = Leaf(tok: nat, val: Value) | Node(rule: nat, kids: seq<Tree>)

  function Root(g: Grammar, t: Tree): nat {
    match t
    case Leaf(tok, _) => tok
    case Node(r, _) => if r < |g.rules| then g.rules[r].lhs else 0
  }

  function Roots(g: Grammar, ts: seq<Tree>): seq<nat> {
    seq(|ts|, i requires 0 <= i < |ts| => Root(g, ts[i]))
  }

  ghost predicate Valid(g: Grammar, t: Tree)
    decreases t, 0
  {
    match t
    case Leaf(tok, _) => 0 < tok && g.IsAction(tok)
    case Node(r, kids) => g.IsRule(r) && Roots(g, kids) == g.rules[r].rhs && ValidForest(g, kids)
  }

  ghost predicate ValidForest(g: Grammar, ts: seq<Tree>)
    decreases ts, 1
  {
    forall i | 0 <= i < |ts| :: Valid(g, ts[i])
  }

  function Yield(t: Tree): seq<Lexeme>
    decreases t, 1
  {
    match t
    case Leaf(tok, val) => [Lexeme(tok, val)]
    case Node(_, kids) => Yields(kids)
  }

  function Yields(ts: seq<Tree>): seq<Lexeme>
    decreases ts, 0
  {
    if ts == [] then [] else Yields(ts[..|ts| - 1]) + Yield(ts[|ts| - 1])
  }

  /** The rules of a tree in the order in which a bottom-up parser reduces by them. */
  function Postorder(t: Tree): seq<nat>
    decreases t, 1
  {
    match t
    case Leaf(_, _) => []
    case Node(r, kids) => Postorders(kids) + [r]
  }

  function Postorders(ts: seq<Tree>): seq<nat>
    decreases ts, 0
  {
    if ts == [] then [] else Postorders(ts[..|ts| - 1]) + Postorder(ts[|ts| - 1])
  }

  /** The number of nodes: one shift for each leaf and one reduction for each inner node. */
  function Size(t: Tree): nat
    decreases t, 1
  {
    match t
    case Leaf(_, _) => 1
    case Node(_, kids) => Sizes(kids) + 1
  }

  function Sizes(ts: seq<Tree>): nat
    decreases ts, 0
  {
    if ts == [] then 0 else Sizes(ts[..|ts| - 1]) + Size(ts[|ts| - 1])
  }

  /** The value of a tree: lexed values at the leaves, reduction code at the inner nodes. */
  function Fold(reduce: (nat, seq<Value>) -> Value, t: Tree): Value
    decreases t, 1
  {
    match t
    case Leaf(_, val) => val
    case Node(r, kids) => reduce(r, Folds(reduce, kids))
  }

  function Folds(reduce: (nat, seq<Value>) -> Value, ts: seq<Tree>): (vs: seq<Value>)
    ensures |vs| == |ts|
    ensures forall i | 0 <= i < |ts| :: vs[i] == Fold(reduce, ts[i])
    decreases ts, 0
  {
    if ts == [] then [] else Folds(reduce, ts[..|ts| - 1]) + [Fold(reduce, ts[|ts| - 1])]
  }

  /** The columns of a sequence of lexemes. */
  function Symbols(w: seq<Lexeme>): seq<nat> {
    seq(|w|, i requires 0 <= i < |w| => if w[i].tok < 0 then 0 else w[i].tok)
  }

  /** Every lexeme is a token other than end of input. */
  ghost predicate AllTokens(g: Grammar, w: seq<Lexeme>) {
    forall i | 0 <= i < |w| :: 0 < w[i].tok < g.actionN
  }

  lemma SymbolsAppend(a: seq<Lexeme>, b: seq<Lexeme>)
    ensures Symbols(a + b) == Symbols(a) + Symbols(b)
  {
  }

  lemma RootsAppend(g: Grammar, a: seq<Tree>, b: seq<Tree>)
    ensures Roots(g, a + b) == Roots(g, a) + Roots(g, b)
  {
  }

  lemma LexemesAssoc(a: seq<Lexeme>, b: seq<Lexeme>, c: seq<Lexeme>)
    ensures a + b + c == a + (b + c)
  {
  }

  lemma {:induction false} YieldsAppend(a: seq<Tree>, b: seq<Tree>)
    ensures Yields(a + b) == Yields(a) + Yields(b)
    decreases |b|
  {
    if b == [] {
      assert a + b == a;
    } else {
      hide Yields, Yield;
      var us, t := b[..|b| - 1], b[|b| - 1];
      YieldsAppend(a, us);
      AppendLast(a, b);
      YieldsPush(a + us, t);
      YieldsPush(us, t);
      LexemesAssoc(Yields(a), Yields(us), Yield(t));
    }
  }

  lemma {:induction false} PostordersAppend(a: seq<Tree>, b: seq<Tree>)
    ensures Postorders(a + b) == Postorders(a) + Postorders(b)
    decreases |b|
  {
    if b == [] {
      assert a + b == a;
    } else {
      hide Postorders, Postorder;
      var us, t := b[..|b| - 1], b[|b| - 1];
      PostordersAppend(a, us);
      AppendLast(a, b);
      YieldsPush(a + us, t);
      YieldsPush(us, t);
      RulesAssoc(Postorders(a), Postorders(us), Postorder(t));
    }
  }

  lemma AppendLast(a: seq<Tree>, b: seq<Tree>)
    requires b != []
    ensures a + b == a + b[..|b| - 1] + [b[|b| - 1]] && b == b[..|b| - 1] + [b[|b| - 1]]
  {
  }

  lemma RulesAssoc(a: seq<nat>, b: seq<nat>, c: seq<nat>)
    ensures a + b + c == a + (b + c)
  {
  }

  lemma YieldsOne(t: Tree)
    ensures Yields([t]) == Yield(t)
    ensures Postorders([t]) == Postorder(t)
  {
    assert [t][..0] == [];
    assert [t][0] == t;
  }

  lemma YieldsPush(ts: seq<Tree>, t: Tree)
    ensures Yields(ts + [t]) == Yields(ts) + Yield(t)
    ensures Postorders(ts + [t]) == Postorders(ts) + Postorder(t)
    ensures Sizes(ts + [t]) == Sizes(ts) + Size(t)
  {
    assert (ts + [t])[..|ts|] == ts;
  }

  // ---------------------------------------------------------------- derivations

  function Expand(g: Grammar, a: seq<nat>, k: nat, r: nat): seq<nat>
    requires k < |a| && r < |g.rules|
  {
    a[..k] + g.rules[r].rhs + a[k + 1..]
  }

  /** b is a with the nonterminal at k replaced by the right-hand side of rule r. */
  ghost predicate StepAt(g: Grammar, a: seq<nat>, b: seq<nat>, k: nat, r: nat) {
    g.IsRule(r) && k < |a| && a[k] == g.rules[r].lhs && b == Expand(g, a, k, r)
  }

  /** a derives b in exactly n steps. */
  ghost predicate Derives(g: Grammar, a: seq<nat>, b: seq<nat>, n: nat)
    decreases n
  {
    if n == 0 then a == b else exists k, r, c :: StepAt(g, a, c, k, r) && Derives(g, c, b, n - 1)
  }

  ghost predicate DerivesStar(g: Grammar, a: seq<nat>, b: seq<nat>) {
    exists n: nat :: Derives(g, a, b, n)
  }

  /** A token sequence that the start symbol derives. */
  ghost predicate InLanguage(g: Grammar, w: seq<nat>)
    requires g.WellFormed()
  {
    && (forall i | 0 <= i < |w| :: 0 < w[i] < g.actionN)
    && DerivesStar(g, [g.Start()], w)
  }

  lemma {:induction false} DerivesTrans(g: Grammar, a: seq<nat>, b: seq<nat>, c: seq<nat>, n: nat, m: nat)
    requires Derives(g, a, b, n) && Derives(g, b, c, m)
    ensures Derives(g, a, c, n + m)
    decreases n
  {
    if n > 0 {
      var k, r, d :| StepAt(g, a, d, k, r) && Derives(g, d, b, n - 1);
      DerivesTrans(g, d, b, c, n - 1, m);
    }
  }

  /** Derivations are preserved by any surrounding context. */
  lemma {:induction false} DerivesContext(g: Grammar, p: seq<nat>, a: seq<nat>, b: seq<nat>, s: seq<nat>, n: nat)
    requires Derives(g, a, b, n)
    ensures Derives(g, p + a + s, p + b + s, n)
    decreases n
  {
    if n > 0 {
      var k, r, d :| StepAt(g, a, d, k, r) && Derives(g, d, b, n - 1);
      DerivesContext(g, p, d, b, s, n - 1);
      StepContext(g, p, a, d, s, k, r);
    }
  }

  lemma StepContext(g: Grammar, p: seq<nat>, a: seq<nat>, d: seq<nat>, s: seq<nat>, k: nat, r: nat)
    requires StepAt(g, a, d, k, r)
    ensures StepAt(g, p + a + s, p + d + s, |p| + k, r)
  {
    var w := p + a + s;
    assert w[..|p| + k] == p + a[..k];
    assert w[|p| + k + 1..] == a[k + 1..] + s;
    assert p + d + s == (p + a[..k]) + g.rules[r].rhs + (a[k + 1..] + s);
  }

  /** Without empty rules nothing gets shorter. */
  lemma {:induction false} NothingShrinks(g: Grammar, a: seq<nat>, b: seq<nat>, n: nat)
    requires (forall r | 0 <= r < |g.rules| :: g.rules[r].rhs != []) && Derives(g, a, b, n)
    ensures |a| <= |b|
    decreases n
  {
    if n > 0 {
      var c, k, r :| StepAt(g, a, c, k, r) && Derives(g, c, b, n - 1);
      NothingShrinks(g, c, b, n - 1);
    }
  }

  lemma StarTrans(g: Grammar, a: seq<nat>, b: seq<nat>, c: seq<nat>)
    requires DerivesStar(g, a, b) && DerivesStar(g, b, c)
    ensures DerivesStar(g, a, c)
  {
    var n: nat :| Derives(g, a, b, n);
    var m: nat :| Derives(g, b, c, m);
    DerivesTrans(g, a, b, c, n, m);
  }

  lemma StarContext(g: Grammar, p: seq<nat>, a: seq<nat>, b: seq<nat>, s: seq<nat>)
    requires DerivesStar(g, a, b)
    ensures DerivesStar(g, p + a + s, p + b + s)
  {
    var n: nat :| Derives(g, a, b, n);
    DerivesContext(g, p, a, b, s, n);
  }

  lemma StarRefl(g: Grammar, a: seq<nat>)
    ensures DerivesStar(g, a, a)
  {
    assert Derives(g, a, a, 0);
  }

  lemma StarRule(g: Grammar, r: nat)
    requires g.IsRule(r)
    ensures DerivesStar(g, [g.rules[r].lhs], g.rules[r].rhs)
  {
    var a := [g.rules[r].lhs];
    assert Expand(g, a, 0, r) == g.rules[r].rhs;
    assert StepAt(g, a, g.rules[r].rhs, 0, r);
    assert Derives(g, g.rules[r].rhs, g.rules[r].rhs, 0);
    assert Derives(g, a, g.rules[r].rhs, 1);
  }

  // ------------------------------------------- from derivations to trees

  /** Every derivation that ends in tokens is the frontier of a forest over its first line. */
  lemma {:induction false} ForestOfDerivation(g: Grammar, a: seq<nat>, w: seq<Lexeme>, n: nat) returns (ts: seq<Tree>)
    requires g.WellFormed()
    requires AllTokens(g, w)
    requires Derives(g, a, Symbols(w), n)
    ensures ValidForest(g, ts) && Roots(g, ts) == a && Yields(ts) == w
    decreases n
  {
    if n == 0 {
      ts := LeavesOf(g, w);
    } else {
      var k, r, c :| StepAt(g, a, c, k, r) && Derives(g, c, Symbols(w), n - 1);
      var us := ForestOfDerivation(g, c, w, n - 1);
      ts := Gather(g, a, us, k, r);
    }
  }

  lemma {:induction false} LeavesOf(g: Grammar, w: seq<Lexeme>) returns (ts: seq<Tree>)
    requires AllTokens(g, w)
    ensures ValidForest(g, ts) && Roots(g, ts) == Symbols(w) && Yields(ts) == w
  {
    if w == [] {
      ts := [];
    } else {
      var n := |w| - 1;
      var us := LeavesOf(g, w[..n]);
      assert Symbols(w[..n]) == Symbols(w)[..n];
      var t := Leaf(w[n].tok, w[n].val);
      ts := us + [t];
      YieldsPush(us, t);
      assert w == w[..n] + [w[n]];
    }
  }

  /** Undo one derivation step on a forest: the trees over the right-hand side become one node. */
  lemma Gather(g: Grammar, a: seq<nat>, us: seq<Tree>, k: nat, r: nat) returns (ts: seq<Tree>)
    requires g.IsRule(r) && k < |a| && a[k] == g.rules[r].lhs
    requires ValidForest(g, us) && Roots(g, us) == Expand(g, a, k, r)
    ensures ValidForest(g, ts) && Roots(g, ts) == a && Yields(ts) == Yields(us)
  {
    var m := k + |g.rules[r].rhs|;
    assert |us| == |Expand(g, a, k, r)|;
    var x, y, z := us[..k], us[k..m], us[m..];
    assert us == x + y + z;
    assert Roots(g, x) == a[..k] && Roots(g, y) == g.rules[r].rhs && Roots(g, z) == a[k + 1..] by {
      assert Roots(g, x) == Roots(g, us)[..k];
      assert Roots(g, y) == Roots(g, us)[k..m];
      assert Roots(g, z) == Roots(g, us)[m..];
    }
    ts := x + [Node(r, y)] + z;
    assert Valid(g, Node(r, y));
    GatherRoots(g, a, x, z, k, Node(r, y));
    GatherYields(x, y, z, r);
  }

  lemma GatherRoots(g: Grammar, a: seq<nat>, x: seq<Tree>, z: seq<Tree>, k: nat, node: Tree)
    requires k < |a| && Roots(g, x) == a[..k] && Roots(g, z) == a[k + 1..] && Root(g, node) == a[k]
    ensures Roots(g, x + [node] + z) == a
  {
    RootsAppend(g, x + [node], z);
    RootsAppend(g, x, [node]);
    assert Roots(g, [node]) == [a[k]];
    assert a == a[..k] + [a[k]] + a[k + 1..];
  }

  lemma GatherYields(x: seq<Tree>, y: seq<Tree>, z: seq<Tree>, r: nat)
    ensures Yields(x + [Node(r, y)] + z) == Yields(x + y + z)
  {
    YieldsAppend(x + y, z);
    YieldsAppend(x, y);
    YieldsAppend(x + [Node(r, y)], z);
    YieldsAppend(x, [Node(r, y)]);
    YieldsOne(Node(r, y));
  }

  // ------------------------------------------- from trees to rightmost derivations

  ghost predicate Terminal(g: Grammar, w: seq<nat>) {
    forall i | 0 <= i < |w| :: g.IsAction(w[i])
  }

  /** b is a with its rightmost nonterminal, found at k, expanded by rule r. */
  ghost predicate RightmostAt(g: Grammar, a: seq<nat>, b: seq<nat>, k: nat, r: nat) {
    StepAt(g, a, b, k, r) && !g.IsAction(a[k]) && Terminal(g, a[k + 1..])
  }

  /** Read from its last rule to its first, log is a rightmost derivation of b from a. */
  ghost predicate Rightmost(g: Grammar, log: seq<nat>, a: seq<nat>, b: seq<nat>) {
    if log == [] then a == b
    else exists k, r, c :: r == log[|log| - 1] && RightmostAt(g, a, c, k, r) && Rightmost(g, log[..|log| - 1], c, b)
  }

  lemma {:induction false} RightmostTrans(g: Grammar, l1: seq<nat>, l2: seq<nat>, a: seq<nat>, b: seq<nat>, c: seq<nat>)
    requires Rightmost(g, l2, a, b) && Rightmost(g, l1, b, c)
    ensures Rightmost(g, l1 + l2, a, c)
    decreases |l2|
  {
    hide RightmostAt;
    if l2 == [] {
      assert l1 + l2 == l1;
    } else {
      var n := |l2| - 1;
      var k, r, d :| r == l2[n] && RightmostAt(g, a, d, k, r) && Rightmost(g, l2[..n], d, b);
      RightmostTrans(g, l1, l2[..n], d, b, c);
      var l := l1 + l2;
      assert l != [] && l[|l| - 1] == r && l[..|l| - 1] == l1 + l2[..n];
    }
  }

  lemma {:induction false} RightmostDerives(g: Grammar, log: seq<nat>, a: seq<nat>, b: seq<nat>)
    requires Rightmost(g, log, a, b)
    ensures Derives(g, a, b, |log|)
    decreases |log|
  {
    if log != [] {
      var n := |log| - 1;
      var k, r, c :| r == log[n] && RightmostAt(g, a, c, k, r) && Rightmost(g, log[..n], c, b);
      RightmostDerives(g, log[..n], c, b);
    }
  }

  lemma {:induction false} YieldIsTerminal(g: Grammar, ts: seq<Tree>)
    requires ValidForest(g, ts)
    ensures AllTokens(g, Yields(ts))
    decreases ts
  {
    if ts != [] {
      var n := |ts| - 1;
      YieldIsTerminal(g, ts[..n]);
      assert Valid(g, ts[n]);
      match ts[n]
      case Leaf(_, _) =>
      case Node(_, kids) =>
        YieldIsTerminal(g, kids);
        assert Yield(ts[n]) == Yields(kids);
    }
  }

  /** The reductions of a valid tree, read backwards, are a rightmost derivation of its frontier,
      in any left context and before any tokens. */
  lemma {:induction false} TreeIsRightmost(g: Grammar, t: Tree, pre: seq<nat>, v: seq<nat>)
    requires g.WellFormed() && Valid(g, t) && Terminal(g, v)
    ensures Rightmost(g, Postorder(t), pre + [Root(g, t)] + v, pre + Symbols(Yield(t)) + v)
    decreases t, 1
  {
    match t
    case Leaf(tok, val) =>
      assert Symbols(Yield(t)) == [tok];
    case Node(r, kids) =>
      ForestIsRightmost(g, kids, pre, v);
      RootStep(g, t, pre, v);
      var log := Postorder(t);
      assert log[..|log| - 1] == Postorders(kids) && log[|log| - 1] == r;
  }

  lemma RootStep(g: Grammar, t: Tree, pre: seq<nat>, v: seq<nat>)
    requires g.WellFormed() && t.Node? && Valid(g, t) && Terminal(g, v)
    ensures RightmostAt(g, pre + [Root(g, t)] + v, pre + Roots(g, t.kids) + v, |pre|, t.rule)
  {
    var a := pre + [Root(g, t)] + v;
    assert a[|pre| + 1..] == v && a[..|pre|] == pre;
  }

  lemma {:induction false} ForestIsRightmost(g: Grammar, ts: seq<Tree>, pre: seq<nat>, v: seq<nat>)
    requires g.WellFormed() && ValidForest(g, ts) && Terminal(g, v)
    ensures Rightmost(g, Postorders(ts), pre + Roots(g, ts) + v, pre + Symbols(Yields(ts)) + v)
    decreases ts, 0
  {
    if ts == [] {
      assert Symbols(Yields(ts)) == [] && Roots(g, ts) == [];
    } else {
      hide Rightmost, Terminal, Yields, Yield, Postorders, Postorder;
      var n := |ts| - 1;
      var us, t := ts[..n], ts[n];
      assert ts == us + [t];
      YieldsPush(us, t);
      var y := Symbols(Yield(t));
      YieldTerminal(g, t, v);
      TreeIsRightmost(g, t, pre + Roots(g, us), v);
      ForestIsRightmost(g, us, pre, y + v);
      Regroup(pre, Roots(g, us), Root(g, t), v);
      Regroup2(pre, Roots(g, us), y, v);
      SymbolsAppend(Yields(us), Yield(t));
      Regroup2(pre, Symbols(Yields(us)), y, v);
      assert Roots(g, ts) == Roots(g, us) + [Root(g, t)];
      RightmostTrans(g, Postorders(us), Postorder(t), pre + Roots(g, ts) + v, pre + Roots(g, us) + y + v,
                     pre + Symbols(Yields(ts)) + v);
    }
  }

  lemma Regroup(p: seq<nat>, q: seq<nat>, x: nat, s: seq<nat>)
    ensures p + q + [x] + s == p + (q + [x]) + s
  {
  }

  lemma Regroup2(p: seq<nat>, q: seq<nat>, y: seq<nat>, s: seq<nat>)
    ensures p + q + (y + s) == p + q + y + s == p + (q + y) + s
  {
  }

  lemma YieldTerminal(g: Grammar, t: Tree, v: seq<nat>)
    requires Valid(g, t) && Terminal(g, v)
    ensures Terminal(g, Symbols(Yield(t)) + v)
  {
    YieldIsTerminal(g, [t]);
    YieldsOne(t);
  }

  /** A valid tree over the start symbol puts its frontier in the language. */
  lemma TreeInLanguage(g: Grammar, t: Tree)
    requires g.WellFormed() && Valid(g, t) && Root(g, t) == g.Start()
    ensures InLanguage(g, Symbols(Yield(t)))
    ensures Rightmost(g, Postorder(t), [g.Start()], Symbols(Yield(t)))
  {
    hide Rightmost, Derives, Yield, Yields, Postorder, Postorders, Valid;
    YieldsOne(t);
    YieldIsTerminal(g, [t]);
    TreeIsRightmost(g, t, [], []);
    var w := Symbols(Yield(t));
    NoContext([Root(g, t)]);
    NoContext(w);
    RightmostDerives(g, Postorder(t), [g.Start()], w);
  }

  lemma NoContext(w: seq<nat>)
    ensures [] + w + [] == w
  {
  }

  /** A sequence of lexemes whose columns are in the language is the frontier of a start tree. */
  lemma TreeOfLanguage(g: Grammar, w: seq<Lexeme>) returns (t: Tree)
    requires g.WellFormed() && InLanguage(g, Symbols(w))
    ensures Valid(g, t) && Root(g, t) == g.Start() && Yield(t) == w
  {
    var n: nat :| Derives(g, [g.Start()], Symbols(w), n);
    assert forall i | 0 <= i < |w| :: Symbols(w)[i] == if w[i].tok < 0 then 0 else w[i].tok;
    var ts := ForestOfDerivation(g, [g.Start()], w, n);
    assert |ts| == |Roots(g, ts)| == 1;
    t := ts[0];
    assert Roots(g, ts)[0] == Root(g, t);
    assert ts == [t];
    YieldsOne(t);
  }
}
