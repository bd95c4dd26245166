/** The table of actors and the queries over it. */
module Lookup {
  import opened Sequences

  datatype Actor = Actor(id: nat, typeId: nat, context: nat, offset: nat)

  /**
   * The actors a query yields, in table order. `types` holds one type for a concrete query and the
   * registered implementations for a trait query.
   */
  function Matching(tree: seq<Actor>, types: set<nat>): seq<Actor> {
    if tree == [] then []
    else (if tree[0].typeId in types then [tree[0]] else []) + Matching(tree[1..], types)
  }

  lemma {:induction false} MatchingMembers(tree: seq<Actor>, types: set<nat>)
    ensures forall a :: a in Matching(tree, types) <==> a in tree && a.typeId in types
  {
    if tree != [] {
      MatchingMembers(tree[1..], types);
      assert forall a :: a in tree <==> a == tree[0] || a in tree[1..];
    }
  }

  /** Each actor of a wanted type as often as the table holds it, and no other. */
  lemma {:induction false} MatchingCount(tree: seq<Actor>, types: set<nat>, a: Actor)
    ensures multiset(Matching(tree, types))[a] == if a.typeId in types then multiset(tree)[a] else 0
  {
    if tree != [] {
      MatchingCount(tree[1..], types, a);
      assert tree == [tree[0]] + tree[1..];
      var head := if tree[0].typeId in types then [tree[0]] else [];
      assert multiset(Matching(tree, types)) == multiset(head) + multiset(Matching(tree[1..], types));
    }
  }

  /** In the order of the table. */
  lemma {:induction false} MatchingConcat(xs: seq<Actor>, ys: seq<Actor>, types: set<nat>)
    ensures Matching(xs + ys, types) == Matching(xs, types) + Matching(ys, types)
  {
    if xs == [] {
      Empty(ys);
      Empty(Matching(ys, types));
    } else {
      HeadAndTail(xs, ys);
      MatchingConcat(xs[1..], ys, types);
      Associative(if xs[0].typeId in types then [xs[0]] else [], Matching(xs[1..], types), Matching(ys, types));
    }
  }

  /** If one place of the table alone holds a wanted type, that is the whole answer; else there is none or more. */
  lemma OnlyMatch(tree: seq<Actor>, types: set<nat>, p: nat)
    requires OnlyAt(tree, types, p)
    ensures Matching(tree, types) == [tree[p]]
  {
    assert tree == tree[..p] + ([tree[p]] + tree[p + 1..]);
    MatchingConcat(tree[..p], [tree[p]] + tree[p + 1..], types);
    MatchingConcat([tree[p]], tree[p + 1..], types);
    SingleTail(tree[p]);
    NoMatch(tree[..p], types);
    NoMatch(tree[p + 1..], types);
  }

  lemma {:induction false} NoMatch(tree: seq<Actor>, types: set<nat>)
    ensures Matching(tree, types) == [] <==> forall q :: 0 <= q < |tree| ==> tree[q].typeId !in types
  {
    MatchingMembers(tree, types);
    if Matching(tree, types) != [] {
      var a := Matching(tree, types)[0];
      assert a in Matching(tree, types);
      var q :| 0 <= q < |tree| && tree[q] == a;
    } else {
      forall q | 0 <= q < |tree|
        ensures tree[q].typeId !in types
      {
        assert tree[q] in tree && tree[q] !in Matching(tree, types);
      }
    }
  }

  /** Place `p`, and no other, holds an actor of a wanted type. */
  predicate OnlyAt(tree: seq<Actor>, types: set<nat>, p: nat) {
    && p < |tree| && tree[p].typeId in types
    && forall q :: 0 <= q < |tree| && q != p ==> tree[q].typeId !in types
  }

  /** Two different places hold actors of wanted types. */
  predicate SeveralAt(tree: seq<Actor>, types: set<nat>) {
    exists p, q :: 0 <= p < q < |tree| && tree[p].typeId in types && tree[q].typeId in types
  }

  lemma {:induction false} SeveralMatch(tree: seq<Actor>, types: set<nat>)
    ensures |Matching(tree, types)| > 1 <==> SeveralAt(tree, types)
    ensures |Matching(tree, types)| == 1 <==> exists p: nat :: OnlyAt(tree, types, p)
  {
    NoMatch(tree, types);
    if p: nat, q: nat :| p < q < |tree| && tree[p].typeId in types && tree[q].typeId in types {
      assert tree == tree[..q] + tree[q..] && tree[..q][p] == tree[p] && tree[q..][0] == tree[q];
      MatchingConcat(tree[..q], tree[q..], types);
      NoMatch(tree[..q], types);
      NoMatch(tree[q..], types);
    } else if p: nat :| p < |tree| && tree[p].typeId in types {
      assert OnlyAt(tree, types, p);
      OnlyMatch(tree, types, p);
    }
  }
}
