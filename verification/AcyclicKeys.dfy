/**
 * Keys that call another actor of the same context directly: how initialisation hands them out, and
 * what the cycle check over the recorded relations buys.
 */
module AcyclicKeys {
  import opened Lookup
  import opened Graph

  datatype KeyResult =
    | Key(offset: nat)
    | NoActor
    | SeveralActors
    | OtherContext
    | Oneself

  /** What a query for a direct key answers to `from`, an actor of `context`. */
  function Answer(tree: seq<Actor>, types: set<nat>, context: nat, from: nat): KeyResult {
    var found := Matching(tree, types);
    if found == [] then NoActor
    else if |found| > 1 then SeveralActors
    else if found[0].context != context then OtherContext
    else if found[0].id == from then Oneself
    else Key(found[0].offset)
  }

  /** The same in terms of the places in the table. */
  lemma AnswerMeans(tree: seq<Actor>, types: set<nat>, context: nat, from: nat)
    ensures var r := Answer(tree, types, context, from);
      && (r.Key? <==> exists p: nat :: OnlyAt(tree, types, p) && tree[p].context == context && tree[p].id != from)
      && (r.NoActor? <==> forall p :: 0 <= p < |tree| ==> tree[p].typeId !in types)
      && (r.SeveralActors? <==> SeveralAt(tree, types))
      && (r.OtherContext? <==> exists p: nat :: OnlyAt(tree, types, p) && tree[p].context != context)
      && (r.Oneself? <==> exists p: nat :: OnlyAt(tree, types, p) && tree[p].context == context && tree[p].id == from)
    ensures forall p: nat :: OnlyAt(tree, types, p) ==> Matching(tree, types) == [tree[p]]
  {
    NoMatch(tree, types);
    SeveralMatch(tree, types);
    forall p: nat | OnlyAt(tree, types, p)
      ensures Matching(tree, types) == [tree[p]]
    {
      OnlyMatch(tree, types, p);
    }
  }

  function LocalActors(tree: seq<Actor>, context: nat): set<nat> {
    set a | a in tree && a.context == context :: a.id
  }

  class InitData {
    const tree: seq<Actor>
    const context: nat
    var relations: seq<Relation>

    constructor (tree: seq<Actor>, context: nat)
      ensures this.tree == tree && this.context == context && relations == []
    {
      this.tree, this.context := tree, context;
      relations := [];
    }

    /** Every recorded relation joins two different actors of this context. */
    predicate Valid()
      reads this
    {
      forall r :: r in relations ==>
        r.from in LocalActors(tree, context) && r.to in LocalActors(tree, context) && r.from != r.to
    }

    /** A key is handed out together with a record of who depends on whom; refusals record nothing. */
    method AcyclicLocalKey(from: nat, types: set<nat>) returns (r: KeyResult)
      requires Valid() && from in LocalActors(tree, context)
      modifies this
      ensures Valid()
      ensures r == Answer(tree, types, context, from)
      ensures r.Key? <==> exists p: nat :: OnlyAt(tree, types, p) && tree[p].context == context && tree[p].id != from
      ensures r.NoActor? <==> forall p :: 0 <= p < |tree| ==> tree[p].typeId !in types
      ensures r.SeveralActors? <==> SeveralAt(tree, types)
      ensures r.OtherContext? <==> exists p: nat :: OnlyAt(tree, types, p) && tree[p].context != context
      ensures r.Oneself? <==>
        exists p: nat :: OnlyAt(tree, types, p) && tree[p].context == context && tree[p].id == from
      ensures r.Key? ==> forall p: nat :: OnlyAt(tree, types, p) ==>
        r.offset == tree[p].offset && relations == old(relations) + [Relation(from, tree[p].id)]
      ensures r.Key? ==>
        exists a :: a in tree && a.typeId in types && a.offset == r.offset
          && relations == old(relations) + [Relation(from, a.id)]
          && forall b :: b in tree && b.typeId in types ==> b == a
      ensures !r.Key? ==> relations == old(relations)
    {
      var it := Matching(tree, types);
      MatchingMembers(tree, types);
      AnswerMeans(tree, types, context, from);
      if it == [] {
        return NoActor;
      }
      var a := it[0];
      if |it| > 1 {
        return SeveralActors;
      }
      if a.context != context {
        return OtherContext;
      }
      if a.id == from {
        return Oneself;
      }
      assert a in it;
      relations := relations + [Relation(from, a.id)];
      r := Key(a.offset);
    }

    /** The check at the end of initialisation; passing it rules out every re-entrant chain of calls. */
    method CheckCycles() returns (cyclic: bool)
      requires Valid()
      ensures cyclic <==> Cyclic(relations)
      ensures !cyclic ==> forall p :: CallChain(relations, LocalActors(tree, context), p) ==>
        Distinct(p) && (forall a :: a in p ==> a in LocalActors(tree, context))
        && |p| <= |LocalActors(tree, context)|
    {
      ghost var calls;
      cyclic, calls := HasCycles(relations);
      if !cyclic {
        forall p | CallChain(relations, LocalActors(tree, context), p)
          ensures Distinct(p) && (forall a :: a in p ==> a in LocalActors(tree, context))
          ensures |p| <= |LocalActors(tree, context)|
        {
          NeverReentered(relations, LocalActors(tree, context), p);
        }
      }
    }
  }

  /** Nested calls, outermost first: each actor calls the next through a key it obtained itself. */
  predicate CallChain(relations: seq<Relation>, local: set<nat>, p: seq<nat>) {
    p != [] && p[0] in local && Chain(relations, p)
  }

  predicate Distinct(p: seq<nat>) {
    forall i, j :: 0 <= i < j < |p| ==> p[i] != p[j]
  }

  lemma RevisitIsCycle(relations: seq<Relation>, p: seq<nat>, i: nat, j: nat)
    requires Chain(relations, p) && i < j < |p| && p[i] == p[j]
    ensures Cyclic(relations)
  {
    var q := p[i..j + 1];
    forall k | 0 <= k < |q| - 1
      ensures Relation(q[k], q[k + 1]) in relations
    {
      assert Relation(p[i + k], p[i + k + 1]) in relations;
    }
    assert Chain(relations, q) && q[0] == q[|q| - 1];
  }

  lemma {:induction false} DistinctFits(p: seq<nat>, s: set<nat>)
    requires Distinct(p) && forall a :: a in p ==> a in s
    ensures |p| <= |s|
    decreases |p|
  {
    if p != [] {
      var last := p[|p| - 1];
      DistinctFits(p[..|p| - 1], s - {last});
    }
  }

  /** Without a cycle no chain of nested calls enters an actor twice, leaves the context or outgrows it. */
  lemma NeverReentered(relations: seq<Relation>, local: set<nat>, p: seq<nat>)
    requires !Cyclic(relations) && CallChain(relations, local, p)
    requires forall r :: r in relations ==> r.to in local
    ensures Distinct(p)
    ensures forall a :: a in p ==> a in local
    ensures |p| <= |local|
  {
    forall i, j | 0 <= i < j < |p|
      ensures p[i] != p[j]
    {
      if p[i] == p[j] {
        RevisitIsCycle(relations, p, i, j);
      }
    }
    forall i | 0 <= i < |p|
      ensures p[i] in local
    {
      if i > 0 {
        assert Relation(p[i - 1], p[i]) in relations;
      }
    }
    DistinctFits(p, local);
  }

  /** And the check is exact: a cycle of relations is a chain of calls that comes back to its start. */
  lemma CycleIsReentry(relations: seq<Relation>, local: set<nat>)
    requires Cyclic(relations) && forall r :: r in relations ==> r.from in local
    ensures exists p :: CallChain(relations, local, p) && !Distinct(p)
  {
    var p :| |p| > 1 && Chain(relations, p) && p[0] == p[|p| - 1];
    assert Relation(p[0], p[1]) in relations;
    assert CallChain(relations, local, p) && !Distinct(p);
  }
}
