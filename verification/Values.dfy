/** What the driver owes for values: every reduction call, and where each value ends. */
module Values {
  import opened Grammars

  /** One call of the reduction code. */
  datatype Call = Call(rule: nat, args: seq<Value>)

  /** The user's part of a parser: reduction code, and the tokens that have a destructor. */
  datatype UserCode = UserCode(reduce: (nat, seq<Value>) -> Value, destructors: set<nat>)

  /** The calls that build a tree, in the order in which they are made. */
  function Calls(reduce: (nat, seq<Value>) -> Value, t: Tree): seq<Call>
    decreases t, 1
  {
    match t
    case Leaf(_, _) => []
    case Node(r, kids) => CallsAll(reduce, kids) + [Call(r, Folds(reduce, kids))]
  }

  function CallsAll(reduce: (nat, seq<Value>) -> Value, ts: seq<Tree>): seq<Call>
    decreases ts, 0
  {
    if ts == [] then [] else CallsAll(reduce, ts[..|ts| - 1]) + Calls(reduce, ts[|ts| - 1])
  }

  function RulesOf(calls: seq<Call>): seq<nat> {
    seq(|calls|, i requires 0 <= i < |calls| => calls[i].rule)
  }

  function Results(reduce: (nat, seq<Value>) -> Value, calls: seq<Call>): multiset<Value> {
    if calls == [] then multiset{}
    else Results(reduce, calls[..|calls| - 1]) + multiset{reduce(calls[|calls| - 1].rule, calls[|calls| - 1].args)}
  }

  function Arguments(calls: seq<Call>): multiset<Value> {
    if calls == [] then multiset{} else Arguments(calls[..|calls| - 1]) + multiset(calls[|calls| - 1].args)
  }

  function LexedValues(ls: seq<Lexeme>): multiset<Value> {
    if ls == [] then multiset{} else LexedValues(ls[..|ls| - 1]) + multiset{ls[|ls| - 1].val}
  }

  lemma CallsPush(reduce: (nat, seq<Value>) -> Value, ts: seq<Tree>, t: Tree)
    ensures CallsAll(reduce, ts + [t]) == CallsAll(reduce, ts) + Calls(reduce, t)
    ensures Folds(reduce, ts + [t]) == Folds(reduce, ts) + [Fold(reduce, t)]
  {
    assert (ts + [t])[..|ts|] == ts;
  }

  lemma CallAssoc(a: seq<Call>, b: seq<Call>, c: seq<Call>)
    ensures a + b + c == a + (b + c)
  {
  }

  lemma {:induction false} CallsAppend(reduce: (nat, seq<Value>) -> Value, a: seq<Tree>, b: seq<Tree>)
    ensures CallsAll(reduce, a + b) == CallsAll(reduce, a) + CallsAll(reduce, b)
    decreases |b|
  {
    if b == [] {
      assert a + b == a;
    } else {
      hide CallsAll, Calls;
      var us, t := b[..|b| - 1], b[|b| - 1];
      CallsAppend(reduce, a, us);
      AppendLast(a, b);
      CallsPush(reduce, a + us, t);
      CallsPush(reduce, us, t);
      CallAssoc(CallsAll(reduce, a), CallsAll(reduce, us), Calls(reduce, t));
    }
  }

  lemma Assoc(a: multiset<Value>, b: multiset<Value>, c: multiset<Value>)
    ensures a + b + c == a + (b + c)
  {
  }

  /** l + r == a + v and l2 + r2 == a2 + v2 give the sum. */
  lemma Balance(l: multiset<Value>, r: multiset<Value>, a: multiset<Value>, v: multiset<Value>,
                l2: multiset<Value>, r2: multiset<Value>, a2: multiset<Value>, v2: multiset<Value>)
    requires l + r == a + v && l2 + r2 == a2 + v2
    ensures (l + l2) + (r + r2) == (a + a2) + (v + v2)
  {
    assert (l + l2) + (r + r2) == (l + r) + (l2 + r2);
    assert (a + a2) + (v + v2) == (a + v) + (a2 + v2);
  }

  lemma NoCalls(reduce: (nat, seq<Value>) -> Value)
    ensures Results(reduce, []) == multiset{} && Arguments([]) == multiset{}
  {
  }

  lemma NothingLexed()
    ensures LexedValues([]) == multiset{}
  {
  }

  lemma CallPush(reduce: (nat, seq<Value>) -> Value, calls: seq<Call>, c: Call)
    ensures Results(reduce, calls + [c]) == Results(reduce, calls) + multiset{reduce(c.rule, c.args)}
    ensures Arguments(calls + [c]) == Arguments(calls) + multiset(c.args)
  {
    assert (calls + [c])[..|calls|] == calls;
  }

  lemma LexedPush(ls: seq<Lexeme>, l: Lexeme)
    ensures LexedValues(ls + [l]) == LexedValues(ls) + multiset{l.val}
  {
    assert (ls + [l])[..|ls|] == ls;
  }

  lemma {:induction false} ResultsAppend(reduce: (nat, seq<Value>) -> Value, a: seq<Call>, b: seq<Call>)
    ensures Results(reduce, a + b) == Results(reduce, a) + Results(reduce, b)
    ensures Arguments(a + b) == Arguments(a) + Arguments(b)
    decreases |b|
  {
    hide Results, Arguments;
    if b == [] {
      assert a + b == a;
      NoCalls(reduce);
    } else {
      var n := |b| - 1;
      var c := b[n];
      ResultsAppend(reduce, a, b[..n]);
      assert b == b[..n] + [c] && a + b == a + b[..n] + [c];
      CallPush(reduce, b[..n], c);
      CallPush(reduce, a + b[..n], c);
      Assoc(Results(reduce, a), Results(reduce, b[..n]), multiset{reduce(c.rule, c.args)});
      Assoc(Arguments(a), Arguments(b[..n]), multiset(c.args));
    }
  }

  lemma {:induction false} LexedAppend(a: seq<Lexeme>, b: seq<Lexeme>)
    ensures LexedValues(a + b) == LexedValues(a) + LexedValues(b)
    decreases |b|
  {
    hide LexedValues;
    if b == [] {
      assert a + b == a;
      NothingLexed();
    } else {
      var n := |b| - 1;
      LexedAppend(a, b[..n]);
      assert b == b[..n] + [b[n]] && a + b == a + b[..n] + [b[n]];
      LexedPush(b[..n], b[n]);
      LexedPush(a + b[..n], b[n]);
      Assoc(LexedValues(a), LexedValues(b[..n]), multiset{b[n].val});
    }
  }

  /** Conservation: the values lexed and the values reduced are, each exactly once, an argument of
      a reduction or the value of a tree still on the stack. */
  lemma {:induction false} ForestConserves(reduce: (nat, seq<Value>) -> Value, ts: seq<Tree>)
    ensures LexedValues(Yields(ts)) + Results(reduce, CallsAll(reduce, ts))
         == Arguments(CallsAll(reduce, ts)) + multiset(Folds(reduce, ts))
    decreases ts, 0
  {
    if ts != [] {
      hide LexedValues, Results, Arguments, Yields, CallsAll, Folds, Fold, Yield, Calls;
      var n := |ts| - 1;
      var us, t := ts[..n], ts[n];
      assert ts == us + [t];
      ForestConserves(reduce, us);
      TreeConserves(reduce, t);
      YieldsPush(us, t);
      CallsPush(reduce, us, t);
      LexedAppend(Yields(us), Yield(t));
      ResultsAppend(reduce, CallsAll(reduce, us), Calls(reduce, t));
      Balance(LexedValues(Yields(us)), Results(reduce, CallsAll(reduce, us)), Arguments(CallsAll(reduce, us)), multiset(Folds(reduce, us)),
              LexedValues(Yield(t)), Results(reduce, Calls(reduce, t)), Arguments(Calls(reduce, t)), multiset{Fold(reduce, t)});
      MultisetPush(Folds(reduce, us), Fold(reduce, t));
    }
  }

  lemma MultisetPush(vs: seq<Value>, v: Value)
    ensures multiset(vs + [v]) == multiset(vs) + multiset{v}
  {
  }

  lemma {:induction false} TreeConserves(reduce: (nat, seq<Value>) -> Value, t: Tree)
    ensures LexedValues(Yield(t)) + Results(reduce, Calls(reduce, t)) == Arguments(Calls(reduce, t)) + multiset{Fold(reduce, t)}
    decreases t, 1
  {
    match t
    case Leaf(tok, val) =>
      assert Yield(t) == [] + [Lexeme(tok, val)];
      LexedPush([], Lexeme(tok, val));
    case Node(r, kids) =>
      NodeConserves(reduce, r, kids);
  }

  lemma {:induction false} NodeConserves(reduce: (nat, seq<Value>) -> Value, r: nat, kids: seq<Tree>)
    ensures LexedValues(Yields(kids)) + Results(reduce, CallsAll(reduce, kids) + [Call(r, Folds(reduce, kids))])
         == Arguments(CallsAll(reduce, kids) + [Call(r, Folds(reduce, kids))]) + multiset{reduce(r, Folds(reduce, kids))}
    decreases kids, 1
  {
    hide LexedValues, Results, Arguments, Yields, CallsAll, Folds;
    ForestConserves(reduce, kids);
    CallPush(reduce, CallsAll(reduce, kids), Call(r, Folds(reduce, kids)));
    Assoc(LexedValues(Yields(kids)), Results(reduce, CallsAll(reduce, kids)), multiset{reduce(r, Folds(reduce, kids))});
  }

  lemma {:induction false} CallsAreReductions(reduce: (nat, seq<Value>) -> Value, ts: seq<Tree>)
    ensures RulesOf(CallsAll(reduce, ts)) == Postorders(ts)
    decreases ts, 0
  {
    if ts != [] {
      var n := |ts| - 1;
      CallsAreReductions(reduce, ts[..n]);
      TreeCallsAreReductions(reduce, ts[n]);
    }
  }

  lemma {:induction false} TreeCallsAreReductions(reduce: (nat, seq<Value>) -> Value, t: Tree)
    ensures RulesOf(Calls(reduce, t)) == Postorder(t)
    decreases t, 1
  {
    match t
    case Leaf(_, _) =>
    case Node(r, kids) => CallsAreReductions(reduce, kids);
  }

  /** No reduction of the run was by an empty rule. */
  predicate NoEmpty(t: Tree)
    decreases t, 1
  {
    match t
    case Leaf(_, _) => true
    case Node(_, kids) => kids != [] && NoEmptyAll(kids)
  }

  predicate NoEmptyAll(ts: seq<Tree>)
    decreases ts, 0
  {
    forall i | 0 <= i < |ts| :: NoEmpty(ts[i])
  }

  // ------------------------------------------------ destructors

  /** A value handed to the destructor of its token type. */
  datatype Handed = Handed(tok: nat, val: Value)

  function HandOne(user: UserCode, tok: nat, val: Value): seq<Handed> {
    if tok in user.destructors then [Handed(tok, val)] else []
  }

  /** The trees of a stack handed over from the top down. */
  function HandAll(g: Grammar, user: UserCode, ts: seq<Tree>): seq<Handed> {
    if ts == [] then []
    else
      var n := |ts| - 1;
      HandOne(user, Root(g, ts[n]), Fold(user.reduce, ts[n])) + HandAll(g, user, ts[..n])
  }

  function HandedValues(hs: seq<Handed>): multiset<Value> {
    multiset(seq(|hs|, i requires 0 <= i < |hs| => hs[i].val))
  }

  /** A value that has no destructor stays where it is. */
  function KeepOne(user: UserCode, tok: nat, val: Value): multiset<Value> {
    if tok in user.destructors then multiset{} else multiset{val}
  }

  /** The stacked values without a destructor. */
  function KeepAll(g: Grammar, user: UserCode, ts: seq<Tree>): multiset<Value> {
    if ts == [] then multiset{}
    else
      var n := |ts| - 1;
      KeepAll(g, user, ts[..n]) + KeepOne(user, Root(g, ts[n]), Fold(user.reduce, ts[n]))
  }

  lemma HandedAppend(a: seq<Handed>, b: seq<Handed>)
    ensures HandedValues(a + b) == HandedValues(a) + HandedValues(b)
  {
    var va, vb := seq(|a|, i requires 0 <= i < |a| => a[i].val), seq(|b|, i requires 0 <= i < |b| => b[i].val);
    assert seq(|a + b|, i requires 0 <= i < |a + b| => (a + b)[i].val) == va + vb;
  }

  lemma HandOneOrKeep(user: UserCode, tok: nat, val: Value)
    ensures HandedValues(HandOne(user, tok, val)) + KeepOne(user, tok, val) == multiset{val}
  {
    if tok in user.destructors {
      var hs := [Handed(tok, val)];
      assert seq(|hs|, i requires 0 <= i < |hs| => hs[i].val) == [val];
    }
  }

  /** Every stacked value is handed over or kept. */
  lemma {:induction false} HandOrKeep(g: Grammar, user: UserCode, ts: seq<Tree>)
    ensures HandedValues(HandAll(g, user, ts)) + KeepAll(g, user, ts) == multiset(Folds(user.reduce, ts))
    decreases |ts|
  {
    if ts != [] {
      hide Fold, HandOne, KeepOne, HandedValues;
      var n := |ts| - 1;
      var tok, val := Root(g, ts[n]), Fold(user.reduce, ts[n]);
      HandOrKeep(g, user, ts[..n]);
      HandOneOrKeep(user, tok, val);
      HandedAppend(HandOne(user, tok, val), HandAll(g, user, ts[..n]));
      FoldsLast(user, ts);
      MultisetPush(Folds(user.reduce, ts[..n]), val);
    }
  }

  lemma FoldsLast(user: UserCode, ts: seq<Tree>)
    requires ts != []
    ensures Folds(user.reduce, ts) == Folds(user.reduce, ts[..|ts| - 1]) + [Fold(user.reduce, ts[|ts| - 1])]
  {
  }
}
