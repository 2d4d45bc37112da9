/** The driver's loop terminates, in a number of steps linear in the input. */
module Termination {
  import opened Graphs
  import opened Grammars
  import opened FirstProofs
  import opened Automata
  import opened Tables
  import opened Machines

  ghost predicate UnitEdge(g: Grammar, a: nat, b: nat) {
    exists r: nat :: g.IsRule(r) && g.rules[r].lhs == a && g.rules[r].rhs == [b]
  }

  ghost function UnitEdges(g: Grammar): (nat, nat) -> bool {
    (a: nat, b: nat) => UnitEdge(g, a, b)
  }

  /** No empty rule and no cycle of unit rules. */
  ghost predicate Terminating(g: Grammar) {
    && (forall r | 0 <= r < |g.rules| :: g.rules[r].rhs != [])
    && Acyclic(UnitEdges(g))
  }

  lemma TameTerminates(g: Grammar)
    requires Tame(g)
    ensures Terminating(g)
  {
    forall x: nat
      ensures !Reaches(UnitEdges(g), x, x)
    {
      if Reaches(UnitEdges(g), x, x) {
        var n: nat :| ReachesIn(UnitEdges(g), x, x, n);
        if UnitEdge(g, x, x) {
          assert false;
        } else {
          var c: nat :| UnitEdge(g, x, c) && ReachesIn(UnitEdges(g), c, x, n - 1);
          forall p: nat, q: nat | UnitEdge(g, p, q)
            ensures LeftCorner(g, p, q)
          {
          }
          ReachesMonotone(UnitEdges(g), LeftCorners(g), c, x, n - 1);
          ReachesEdge(LeftCorners(g), x, c);
          assert Reaches(LeftCorners(g), c, x);
        }
      }
    }
  }

  /** How many symbols derive x by unit rules; at most Width - 1. */
  ghost function Rank(g: Grammar, x: nat): nat {
    |Before(UnitEdges(g), g.tokenN + 1, x)|
  }

  function Width(g: Grammar): nat {
    g.tokenN + 2
  }

  ghost function TopRank(g: Grammar, forest: seq<Tree>): nat {
    if forest == [] then 0 else Rank(g, Root(g, forest[|forest| - 1]))
  }

  /** Remaining lexemes, then stack depth, then the unit rank of the top symbol. */
  ghost function Potential(g: Grammar, input: seq<Lexeme>, c: Config): int {
    (2 * (|input| - c.pos) + |c.forest|) * Width(g) + TopRank(g, c.forest)
  }

  lemma RankBelow(g: Grammar, x: nat)
    ensures Rank(g, x) < Width(g)
  {
    SizeBelow(Before(UnitEdges(g), g.tokenN + 1, x), g.tokenN + 1);
  }

  lemma TopRankBelow(g: Grammar, forest: seq<Tree>)
    ensures TopRank(g, forest) < Width(g)
  {
    if forest != [] {
      RankBelow(g, Root(g, forest[|forest| - 1]));
    }
  }

  /** Every step of every run lowers the potential. */
  lemma StepLowers(g: Grammar, a: Automaton, t: seq<nat>, input: seq<Lexeme>, c: Config)
    requires Setting(g, a, t, input) && Inv(g, a, input, c) && Terminating(g) && Step(g, t, input, c).Running?
    ensures Potential(g, input, Step(g, t, input, c).c) < Potential(g, input, c)
  {
    hide CoreAutomaton, TableSound, Terminating, Cell, Potential;
    SameSize(g, a);
    var la := input[c.pos];
    var c' := Step(g, t, input, c).c;
    match Cell(g, t, c.states[|c.states| - 1], la.tok)
    case Shift(s) => ShiftLowers(g, input, c, c');
    case Reduce(r) =>
      InputAt(g, input, c.pos);
      InvShape(g, a, input, c);
      CellReduce(g, a, t, input, c.states[|c.forest|], input[c.pos].tok, r);
      ReduceHandle(g, a, t, input, c, r);
      ReduceLowers(g, input, c, c', r);
  }

  lemma ShiftLowers(g: Grammar, input: seq<Lexeme>, c: Config, c': Config)
    requires c'.pos == c.pos + 1 <= |input| && |c'.forest| == |c.forest| + 1
    ensures Potential(g, input, c') < Potential(g, input, c)
  {
    TopRankBelow(g, c'.forest);
    RowStep(2 * (|input| - c'.pos) + |c'.forest|, 2 * (|input| - c.pos) + |c.forest|, Width(g));
  }

  lemma ReduceLowers(g: Grammar, input: seq<Lexeme>, c: Config, c': Config, r: nat)
    requires g.WellFormed() && Terminating(g) && g.IsRule(r) && c'.pos == c.pos <= |input|
    requires var n := |g.rules[r].rhs|;
             && n <= |c.forest|
             && Roots(g, c.forest[|c.forest| - n..]) == g.rules[r].rhs
             && c'.forest == c.forest[..|c.forest| - n] + [Node(r, c.forest[|c.forest| - n..])]
    ensures Potential(g, input, c') < Potential(g, input, c)
  {
    var rhs := g.rules[r].rhs;
    assert |rhs| > 0;
    var top := c.forest[|c.forest| - 1];
    if |rhs| == 1 {
      assert Roots(g, c.forest[|c.forest| - 1..])[0] == Root(g, top);
      assert rhs == [Root(g, top)];
      assert UnitEdge(g, g.rules[r].lhs, Root(g, top));
      BeforeDecreases(UnitEdges(g), g.tokenN + 1, g.rules[r].lhs, Root(g, top));
      assert |c'.forest| == |c.forest|;
    } else {
      TopRankBelow(g, c'.forest);
      RowStep(2 * (|input| - c'.pos) + |c'.forest|, 2 * (|input| - c.pos) + |c.forest|, Width(g));
    }
  }

  lemma PotentialNonNegative(g: Grammar, input: seq<Lexeme>, c: Config)
    requires c.pos <= |input|
    ensures Potential(g, input, c) >= 0
  {
    assert (2 * (|input| - c.pos) + |c.forest|) * Width(g) >= 0;
  }

  lemma {:induction false} StepsEnd(g: Grammar, a: Automaton, t: seq<nat>, input: seq<Lexeme>, c: Config, n: nat)
    requires Setting(g, a, t, input) && Inv(g, a, input, c) && Terminating(g) && n > Potential(g, input, c)
    ensures !Steps(g, t, input, Running(c), n).Running?
    decreases n
  {
    hide CoreAutomaton, TableSound, Terminating, Potential, Inv, Step;
    SameSize(g, a);
    InvShape(g, a, input, c);
    PotentialNonNegative(g, input, c);
    var o := Step(g, t, input, c);
    if o.Running? {
      StepKeeps(g, a, t, input, c);
      StepLowers(g, a, t, input, c);
      StepsEnd(g, a, t, input, o.c, n - 1);
    }
  }

  /** A bound on the driver's steps that is linear in the input for a fixed grammar. */
  function StepBound(g: Grammar, input: seq<Lexeme>): nat {
    2 * |input| * Width(g) + 1
  }

  /** Termination: without empty rules and unit cycles, every run on a generated table, whatever
      its conflicts, has ended after StepBound steps. */
  lemma RunEnds(g: Grammar, a: Automaton, t: seq<nat>, input: seq<Lexeme>, n: nat)
    requires Setting(g, a, t, input) && Terminating(g) && n >= StepBound(g, input)
    ensures !Run(g, t, input, n).Running?
  {
    hide CoreAutomaton, TableSound, Terminating;
    StartInv(g, a, input);
    assert Potential(g, input, Start()) == (2 * |input|) * Width(g);
    StepsEnd(g, a, t, input, Start(), n);
  }
}
