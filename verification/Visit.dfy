/** FIRST sets and empty flags as values: what the recursive visit of the left sides leaves
    (src/parsergen/canonical_collection.cc 25-135). */
module Visits {
  import opened Grammars
  import opened Closures

  /** done holds the symbols whose option bits have INITIALIZED. */
  datatype State = State(info: FirstInfo, done: set<nat>) {

    function AddFirst(x: nat, s: set<nat>): State {
      this.(info := info.(first := info.first[x := info.First(x) + s]))
    }

    function AddEmpty(x: nat): State {
      this.(info := info.(empty := info.empty + {x}))
    }
  }

  function LeftSides(g: Grammar): set<nat> {
    Range(g.actionN, g.tokenN + 1)
  }

  function Initial(g: Grammar): State {
    State(FirstInfo(map x | x in LeftSides(g) :: {}, {}), {})
  }

  // ------------------------------------------------ what the recursion computes

  function Visit(g: Grammar, st: State, x: nat, visiting: set<nat>): State
    requires g.WellFormed() && x in LeftSides(g)
    decreases LeftSides(g) - visiting, 0, 0
  {
    if x in visiting || x in st.done then st
    else
      var st' := VisitRules(g, st, x, visiting + {x}, 0);
      st'.(done := st'.done + {x})
  }

  function VisitRules(g: Grammar, st: State, x: nat, visiting: set<nat>, r: nat): State
    requires g.WellFormed() && x in LeftSides(g)
    decreases LeftSides(g) - visiting, if r < |g.rules| then |g.rules| - r else 0, 1
  {
    if r >= |g.rules| then st
    else VisitRules(g, if g.rules[r].lhs == x then VisitRule(g, st, x, visiting, r) else st, x, visiting, r + 1)
  }

  function VisitRule(g: Grammar, st: State, x: nat, visiting: set<nat>, r: nat): State
    requires g.WellFormed() && x in LeftSides(g) && r < |g.rules|
    decreases LeftSides(g) - visiting, |g.rules| - r, 0
  {
    var rhs := g.rules[r].rhs;
    if rhs == [] then st.AddEmpty(x)
    else if g.IsAction(rhs[0]) then st.AddFirst(x, {rhs[0]})
    else MergeHead(Visit(g, st, rhs[0], visiting), x, rhs)
  }

  function MergeHead(st: State, x: nat, rhs: seq<nat>): State
    requires rhs != []
  {
    var st' := if rhs[0] in st.info.empty && |rhs| == 1 then st.AddEmpty(x) else st;
    st'.AddFirst(x, st'.info.First(rhs[0]))
  }

  /** The constructor visits every left side that is not initialized yet, in some order. */
  function VisitAll(g: Grammar, st: State, order: seq<nat>): State
    requires g.WellFormed() && forall i | 0 <= i < |order| :: order[i] in LeftSides(g)
    decreases |order|
  {
    if order == [] then st
    else
      var n := |order| - 1;
      Visit(g, VisitAll(g, st, order[..n]), order[n], {})
  }
}
