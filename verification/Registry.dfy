/** From the list of registration nodes to queries: however the pushes interleave, the answers are the same. */
module Registry {
  import opened Sequences
  import opened Options
  import opened Lookup
  import opened RegistryList
  import opened RegistryFold

  // ---------- trait queries ----------

  /** The actors whose type has an entry, in table order, each with the metadata of the first such entry. */
  function TraitMatching(tree: seq<Actor>, entries: seq<Interface>): seq<(Actor, nat)> {
    if tree == [] then []
    else
      var found := Find(entries, tree[0].typeId);
      (if found.Some? then [(tree[0], found.value)] else []) + TraitMatching(tree[1..], entries)
  }

  function Actors(keys: seq<(Actor, nat)>): seq<Actor> {
    if keys == [] then [] else [keys[0].0] + Actors(keys[1..])
  }

  function Types(entries: seq<Interface>): set<nat> {
    set e | e in entries :: e.typeId
  }

  lemma {:induction false} FindsItsTypes(entries: seq<Interface>, typeId: nat)
    ensures Find(entries, typeId).Some? <==> typeId in Types(entries)
  {
    if entries != [] {
      FindsItsTypes(entries[1..], typeId);
      assert forall e :: e in entries <==> e == entries[0] || e in entries[1..];
    }
  }

  /** The actors of a trait query are those of the types that implement the trait. */
  lemma {:induction false} TraitMatchingIsMatching(tree: seq<Actor>, entries: seq<Interface>)
    ensures Actors(TraitMatching(tree, entries)) == Matching(tree, Types(entries))
    ensures forall k :: k in TraitMatching(tree, entries) ==> Find(entries, k.0.typeId) == Some(k.1)
  {
    if tree != [] {
      TraitMatchingIsMatching(tree[1..], entries);
      FindsItsTypes(entries, tree[0].typeId);
      var found := Find(entries, tree[0].typeId);
      Empty(TraitMatching(tree[1..], entries));
      Empty(Matching(tree[1..], Types(entries)));
      if found.Some? {
        HeadAndTail([(tree[0], found.value)], TraitMatching(tree[1..], entries));
        SingleTail((tree[0], found.value));
      }
    }
  }

  /** Each actor of a registered type once for each place it has in the table. */
  lemma {:induction false} TraitMatchingCount(tree: seq<Actor>, entries: seq<Interface>, a: Actor, meta: nat)
    ensures multiset(TraitMatching(tree, entries))[(a, meta)]
         == if Find(entries, a.typeId) == Some(meta) then multiset(tree)[a] else 0
  {
    if tree != [] {
      TraitMatchingCount(tree[1..], entries, a, meta);
      assert tree == [tree[0]] + tree[1..];
      var found := Find(entries, tree[0].typeId);
      var head := if found.Some? then [(tree[0], found.value)] else [];
      assert multiset(TraitMatching(tree, entries)) == multiset(head) + multiset(TraitMatching(tree[1..], entries));
    }
  }

  /** In the order of the table. */
  lemma {:induction false} TraitMatchingConcat(xs: seq<Actor>, ys: seq<Actor>, entries: seq<Interface>)
    ensures TraitMatching(xs + ys, entries) == TraitMatching(xs, entries) + TraitMatching(ys, entries)
  {
    if xs == [] {
      Empty(ys);
      Empty(TraitMatching(ys, entries));
    } else {
      HeadAndTail(xs, ys);
      TraitMatchingConcat(xs[1..], ys, entries);
      var found := Find(entries, xs[0].typeId);
      Associative(if found.Some? then [(xs[0], found.value)] else [],
                  TraitMatching(xs[1..], entries), TraitMatching(ys, entries));
    }
  }

  /** Registries that answer alike give every trait query the same actors with the same metadata. */
  lemma {:induction false} SameQueries(tree: seq<Actor>, b: Builder, c: Builder, traitId: nat)
    requires SameAnswers(b, c)
    ensures TraitMatching(tree, Entries(b, traitId)) == TraitMatching(tree, Entries(c, traitId))
  {
    if tree != [] {
      SameQueries(tree[1..], b, c, traitId);
      assert Find(Entries(b, traitId), tree[0].typeId) == Find(Entries(c, traitId), tree[0].typeId);
    }
  }

  // ---------- from a finished walk to a registry ----------

  predicate AreNodes(ids: seq<nat>, n: nat) {
    forall k :: 0 <= k < |ids| ==> ids[k] < n
  }

  /** What the nodes that were run register, in the order in which they were run. */
  function Registered(nodes: seq<Registration>, ids: seq<nat>): (regs: seq<Registration>)
    requires AreNodes(ids, |nodes|)
    ensures |regs| == |ids| && forall k :: 0 <= k < |ids| ==> regs[k] == nodes[ids[k]]
  {
    seq(|ids|, k requires 0 <= k < |ids| => nodes[ids[k]])
  }

  lemma DistinctInEitherOrder(nodes: seq<Registration>, ids: seq<nat>, others: seq<nat>)
    requires AreNodes(ids, |nodes|) && AreNodes(others, |nodes|) && forall i :: i in ids <==> i in others
    requires Distinct(others) && DistinctRegistrations(Registered(nodes, ids))
    ensures DistinctRegistrations(Registered(nodes, others))
  {
    var regs, more := Registered(nodes, ids), Registered(nodes, others);
    forall i, j | 0 <= i < j < |more|
      ensures more[i].typeId != more[j].typeId && more[i].name != more[j].name
    {
      assert others[i] in ids && others[j] in ids && others[i] != others[j];
      var a :| 0 <= a < |ids| && ids[a] == others[i];
      var b :| 0 <= b < |ids| && ids[b] == others[j];
      assert regs[a] == more[i] && regs[b] == more[j];
    }
  }

  lemma SameMembers(nodes: seq<Registration>, ids: seq<nat>, others: seq<nat>)
    requires AreNodes(ids, |nodes|) && AreNodes(others, |nodes|) && forall i :: i in ids <==> i in others
    ensures forall r :: r in Registered(nodes, ids) ==> r in Registered(nodes, others)
  {
    forall r | r in Registered(nodes, ids)
      ensures r in Registered(nodes, others)
    {
      var a :| 0 <= a < |ids| && Registered(nodes, ids)[a] == r;
      assert ids[a] in others;
      var b :| 0 <= b < |others| && others[b] == ids[a];
      assert Registered(nodes, others)[b] == r;
    }
  }

  /**
   * Two interleavings in which the same nodes had been pushed when the walk began, in whatever orders: both
   * build a registry of exactly those nodes or both abort, and the registries answer every query alike.
   */
  lemma ScheduleDoesNotMatter(nodes: seq<Registration>, before: seq<Action>, mid: State, after: seq<Action>, s: State,
                              before': seq<Action>, mid': State, after': seq<Action>, s': State)
    requires WalksFrom(|nodes|, before, mid, after, s) && WalksFrom(|nodes|, before', mid', after', s')
    requires forall i :: 0 <= i < |nodes| ==> (PushDone(mid, i) <==> PushDone(mid', i))
    ensures AreNodes(s.walk.ran, |nodes|) && AreNodes(s'.walk.ran, |nodes|)
    ensures var b, c := Build(Registered(nodes, s.walk.ran)), Build(Registered(nodes, s'.walk.ran));
      && (b.Some? <==> c.Some?)
      && (b.Some? ==> Answers(b.value, Registered(nodes, s.walk.ran)) && SameAnswers(b.value, c.value))
      && (b.Some? ==> forall tree, traitId ::
           TraitMatching(tree, Entries(b.value, traitId)) == TraitMatching(tree, Entries(c.value, traitId)))
    ensures forall i: nat :: i in s.walk.ran <==> i < |nodes| && PushDone(mid, i)
  {
    WalkRunsThePushed(|nodes|, before, mid, after, s);
    WalkRunsThePushed(|nodes|, before', mid', after', s');
    OnlyNodes(s.walk.ran, |nodes|);
    OnlyNodes(s'.walk.ran, |nodes|);
    forall i: nat
      ensures i in s.walk.ran <==> i in s'.walk.ran
    {
      if i < |nodes| {
        assert PushDone(mid, i) <==> PushDone(mid', i);
      }
    }
    EitherOrder(nodes, s.walk.ran, s'.walk.ran);
    BuildIsExact(Registered(nodes, s.walk.ran));
  }

  predicate PushDone(s: State, i: nat) {
    i < |s.pcs| && s.pcs[i].Pushed?
  }

  lemma OnlyNodes(ids: seq<nat>, n: nat)
    requires forall i: nat :: i in ids ==> i < n
    ensures AreNodes(ids, n)
  {
    forall k | 0 <= k < |ids|
      ensures ids[k] < n
    {
      assert ids[k] in ids;
    }
  }

  lemma EitherOrder(nodes: seq<Registration>, ids: seq<nat>, others: seq<nat>)
    requires AreNodes(ids, |nodes|) && AreNodes(others, |nodes|) && forall i :: i in ids <==> i in others
    requires Distinct(ids) && Distinct(others)
    ensures var b, c := Build(Registered(nodes, ids)), Build(Registered(nodes, others));
      && (b.Some? <==> c.Some?)
      && (b.Some? ==> SameAnswers(b.value, c.value))
      && (b.Some? ==> forall tree, traitId ::
           TraitMatching(tree, Entries(b.value, traitId)) == TraitMatching(tree, Entries(c.value, traitId)))
  {
    var regs, more := Registered(nodes, ids), Registered(nodes, others);
    BuildIsExact(regs);
    BuildIsExact(more);
    if DistinctRegistrations(regs) {
      DistinctInEitherOrder(nodes, ids, others);
      SameMembers(nodes, ids, others);
      SameMembers(nodes, others, ids);
      OrderDoesNotMatter(regs, more);
      forall tree, traitId
        ensures TraitMatching(tree, Entries(Build(regs).value, traitId))
             == TraitMatching(tree, Entries(Build(more).value, traitId))
      {
        SameQueries(tree, Build(regs).value, Build(more).value, traitId);
      }
    } else if DistinctRegistrations(more) {
      DistinctInEitherOrder(nodes, others, ids);
    }
  }
}
