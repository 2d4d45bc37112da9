/** FIRST sets and empty flags (src/parsergen/canonical_collection.cc 25-135): the recursion in place. */
module Firsts {
  import opened Grammars
  import opened Closures
  import opened Visits
  import opened FirstProofs

  /** The first-of part of the collection's constructor. */
  class FirstTable {
    const g: Grammar
    var firstOfs: map<nat, set<nat>>
    var hasEmpty: set<nat>
    var initialized: set<nat>
    var visiting: set<nat>

    function Now(): State
      reads this
    {
      State(FirstInfo(firstOfs, hasEmpty), initialized)
    }

    constructor (g: Grammar)
      requires g.WellFormed()
      ensures this.g == g && visiting == {}
      ensures exists order: seq<nat> ::
                && (forall i | 0 <= i < |order| :: order[i] in LeftSides(g))
                && (forall x | x in LeftSides(g) :: x in order)
                && Now() == VisitAll(g, Initial(g), order)
      ensures forall x | x in LeftSides(g) :: x in initialized && WasExplained(g, Now(), x)
    {
      hide Fresh, WasExplained;
      this.g := g;
      firstOfs := map x | x in LeftSides(g) :: {};
      hasEmpty, initialized, visiting := {}, {}, {};
      new;
      var todo := LeftSides(g);
      ghost var order: seq<nat> := [];
      while todo != {}
        invariant visiting == {} && todo <= LeftSides(g)
        invariant forall i | 0 <= i < |order| :: order[i] in LeftSides(g)
        invariant forall x | x in LeftSides(g) && x !in todo :: x in order
        invariant Now() == VisitAll(g, Initial(g), order)
      {
        var x :| x in todo;
        todo := todo - {x};
        ghost var longer := order + [x];
        assert longer[..|order|] == order;
        order := longer;
        if x !in initialized {
          FirstOf(x);
        }
      }
      VisitAllTells(g, order);
    }

    /** The recursive visit of one left side; its set of first tokens grows in place. */
    method FirstOf(x: nat)
      requires g.WellFormed() && x in LeftSides(g)
      modifies this
      ensures visiting == old(visiting)
      ensures Now() == Visit(g, old(Now()), x, visiting)
      ensures visiting !! old(initialized) && Fresh(old(Now()), visiting) && AllExplained(g, old(Now())) ==>
                && Fresh(Now(), visiting) && AllExplained(g, Now()) && Keeps(old(Now()), Now(), visiting)
                && (x !in visiting && x !in old(initialized) ==> Explains(g, Now(), x))
      decreases LeftSides(g) - visiting
    {
      hide Fresh, AllExplained, Keeps, Explains;
      if visiting !! initialized && Fresh(Now(), visiting) && AllExplained(g, Now()) {
        VisitTells(g, Now(), x, visiting);
      }
      if x in visiting {
        return;
      }
      if x in initialized {
        return;
      }
      visiting := visiting + {x};
      for r := 0 to |g.rules|
        invariant visiting == old(visiting) + {x}
        invariant VisitRules(g, Now(), x, visiting, r) == VisitRules(g, old(Now()), x, visiting, 0)
      {
        if g.rules[r].lhs == x {
          var rhs := g.rules[r].rhs;
          if |rhs| == 0 {
            hasEmpty := hasEmpty + {x};
          } else if g.IsAction(rhs[0]) {
            Merge(x, {rhs[0]});
          } else {
            FirstOf(rhs[0]);
            if rhs[0] in hasEmpty && |rhs| == 1 {
              hasEmpty := hasEmpty + {x};
            }
            Merge(x, Now().info.First(rhs[0]));
          }
        }
      }
      visiting := visiting - {x};
      assert visiting == old(visiting);
      initialized := initialized + {x};
    }

    method Merge(x: nat, s: set<nat>)
      modifies this`firstOfs
      ensures Now() == old(Now()).AddFirst(x, s)
    {
      firstOfs := firstOfs[x := Now().info.First(x) + s];
    }
  }
}
