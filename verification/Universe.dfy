/** There are finitely many states over a grammar, which is why its exploration ends. */
module Universes {
  import opened Grammars
  import opened Closures

  ghost function Subsets(s: set<nat>): set<set<nat>>
    decreases s
  {
    if s == {} then {{}}
    else
      var x :| x in s;
      var p := Subsets(s - {x});
      p + set t | t in p :: t + {x}
  }

  lemma {:induction false} SubsetsAll(s: set<nat>, t: set<nat>)
    requires t <= s
    ensures t in Subsets(s)
    decreases s
  {
    if s == {} {
      assert t == {};
    } else {
      var x :| x in s && Subsets(s) == Subsets(s - {x}) + set u | u in Subsets(s - {x}) :: u + {x};
      SubsetsAll(s - {x}, t - {x});
      assert t == t - {x} || t == t - {x} + {x};
    }
  }

  /** Maps from some of the items to members of values. */
  ghost function Maps(items: set<Item>, values: set<set<nat>>): set<ItemSet>
    decreases items
  {
    if items == {} then {map[]}
    else
      var it :| it in items;
      var p := Maps(items - {it}, values);
      p + set m, v | m in p && v in values :: m[it := v]
  }

  lemma {:induction false} MapsAll(items: set<Item>, values: set<set<nat>>, m: ItemSet)
    requires m.Keys <= items && forall it | it in m :: m[it] in values
    ensures m in Maps(items, values)
    decreases items
  {
    if items == {} {
      assert m == map[];
    } else {
      var it :| it in items && Maps(items, values)
                               == Maps(items - {it}, values) + set k, v | k in Maps(items - {it}, values) && v in values :: k[it := v];
      var rest := m - {it};
      assert rest.Keys == m.Keys - {it};
      MapsAll(items - {it}, values, rest);
      if it in m {
        assert m == rest[it := m[it]];
      } else {
        assert m == rest;
      }
    }
  }

  ghost function ItemsUpTo(g: Grammar, n: nat): set<Item>
    requires n <= |g.rules|
    decreases n
  {
    if n == 0 then {} else ItemsUpTo(g, n - 1) + Dots(n - 1, |g.rules[n - 1].rhs|)
  }

  /** The items of rule r with the dot at d or before. */
  ghost function Dots(r: nat, d: nat): (s: set<Item>)
    ensures forall it :: it in s <==> it.rule == r && it.dot <= d
    decreases d
  {
    if d == 0 then {Item(r, 0)} else Dots(r, d - 1) + {Item(r, d)}
  }

  lemma {:induction false} ItemsAll(g: Grammar, n: nat, it: Item)
    requires n <= |g.rules| && InRange(g, it) && it.rule < n
    ensures it in ItemsUpTo(g, n)
    decreases n
  {
    if it.rule < n - 1 {
      ItemsAll(g, n - 1, it);
    }
  }

  /** Every state over the grammar. */
  ghost function Universe(g: Grammar): set<ItemSet> {
    Maps(ItemsUpTo(g, |g.rules|), Subsets(Actions(g)))
  }

  lemma InUniverse(g: Grammar, m: ItemSet)
    requires Bounded(g, m)
    ensures m in Universe(g)
  {
    forall it | it in m
      ensures it in ItemsUpTo(g, |g.rules|) && m[it] in Subsets(Actions(g))
    {
      ItemsAll(g, |g.rules|, it);
      SubsetsAll(Actions(g), m[it]);
    }
    MapsAll(ItemsUpTo(g, |g.rules|), Subsets(Actions(g)), m);
  }
}
