/** Grouping the actors a query yields by context, and broadcasting to such a group. */
module Broadcast {
  import opened Sequences
  import opened Lookup

  type Groups = seq<(nat, seq<Actor>)>

  /** The actors of context `c`, in order. */
  function InContext(actors: seq<Actor>, c: nat): seq<Actor> {
    if actors == [] then []
    else (if actors[0].context == c then [actors[0]] else []) + InContext(actors[1..], c)
  }

  /** One group for each context that occurs, holding its actors in order. */
  ghost predicate StablePartition(groups: Groups, actors: seq<Actor>) {
    && (forall g :: 0 <= g < |groups| ==> groups[g].1 == InContext(actors, groups[g].0) && groups[g].1 != [])
    && (forall g, h :: 0 <= g < h < |groups| ==> groups[g].0 != groups[h].0)
    && (forall a :: a in actors ==> HasGroup(groups, a.context))
  }

  predicate HasGroup(groups: Groups, c: nat) {
    exists g :: 0 <= g < |groups| && groups[g].0 == c
  }

  /** All actors in the groups, with multiplicity. */
  function Members(groups: Groups): multiset<Actor> {
    if groups == [] then multiset{} else multiset(groups[0].1) + Members(groups[1..])
  }

  lemma {:induction false} InContextAppend(actors: seq<Actor>, a: Actor, c: nat)
    ensures InContext(actors + [a], c) == InContext(actors, c) + if a.context == c then [a] else []
  {
    var last := if a.context == c then [a] else [];
    if actors == [] {
      SingleTail(a);
      Empty([a]);
      Empty(last);
    } else {
      HeadAndTail(actors, [a]);
      InContextAppend(actors[1..], a, c);
      Associative(if actors[0].context == c then [actors[0]] else [], InContext(actors[1..], c), last);
    }
  }

  lemma {:induction false} InContextCount(actors: seq<Actor>, c: nat, a: Actor)
    ensures multiset(InContext(actors, c))[a] == if a.context == c then multiset(actors)[a] else 0
  {
    if actors != [] {
      InContextCount(actors[1..], c, a);
      assert actors == [actors[0]] + actors[1..];
      var head := if actors[0].context == c then [actors[0]] else [];
      assert multiset(InContext(actors, c)) == multiset(head) + multiset(InContext(actors[1..], c));
    }
  }

  /** An actor is counted in the group of its context and in no other. */
  lemma {:induction false} MembersCount(groups: Groups, actors: seq<Actor>, a: Actor)
    requires forall g :: 0 <= g < |groups| ==> groups[g].1 == InContext(actors, groups[g].0)
    requires forall g, h :: 0 <= g < h < |groups| ==> groups[g].0 != groups[h].0
    ensures Members(groups)[a] == if HasGroup(groups, a.context) then multiset(actors)[a] else 0
    decreases |groups|
  {
    if groups != [] {
      var rest := groups[1..];
      MembersCount(rest, actors, a);
      InContextCount(actors, groups[0].0, a);
      assert forall g :: 0 <= g < |rest| ==> rest[g] == groups[g + 1];
      if groups[0].0 == a.context {
        assert HasGroup(groups, a.context) && !HasGroup(rest, a.context);
      } else if HasGroup(groups, a.context) {
        var g :| 0 <= g < |groups| && groups[g].0 == a.context;
        assert rest[g - 1].0 == a.context;
      }
    }
  }

  /** A stable partition loses and repeats nobody. */
  lemma PartitionKeepsEveryone(groups: Groups, actors: seq<Actor>)
    requires StablePartition(groups, actors)
    ensures Members(groups) == multiset(actors)
  {
    forall a
      ensures Members(groups)[a] == multiset(actors)[a]
    {
      MembersCount(groups, actors, a);
      if multiset(actors)[a] > 0 {
        assert a in actors;
      }
    }
  }

  /** The map while it is filled. */
  ghost predicate Filled(m: map<nat, seq<Actor>>, actors: seq<Actor>) {
    && (forall c :: c in m ==> m[c] == InContext(actors, c) && m[c] != [])
    && (forall a :: a in actors ==> a.context in m)
  }

  lemma FilledMore(m: map<nat, seq<Actor>>, actors: seq<Actor>, a: Actor)
    requires Filled(m, actors)
    ensures Filled(m[a.context := (if a.context in m then m[a.context] else []) + [a]], actors + [a])
  {
    if a.context !in m {
      NobodyThere(actors, a.context);
    }
    forall c
      ensures InContext(actors + [a], c) == InContext(actors, c) + if a.context == c then [a] else []
    {
      InContextAppend(actors, a, c);
    }
  }

  lemma {:induction false} NobodyThere(actors: seq<Actor>, c: nat)
    requires forall a :: a in actors ==> a.context != c
    ensures InContext(actors, c) == []
  {
    if actors != [] {
      NobodyThere(actors[1..], c);
    }
  }

  /** Groups the actors that match; the groups themselves come in any order. */
  method BroadcastGroup(tree: seq<Actor>, types: set<nat>) returns (groups: Groups)
    ensures StablePartition(groups, Matching(tree, types))
    ensures forall a :: Members(groups)[a] == if a.typeId in types then multiset(tree)[a] else 0
  {
    var found := Matching(tree, types);
    var m: map<nat, seq<Actor>> := map[];
    for k := 0 to |found|
      invariant Filled(m, found[..k])
    {
      var a := found[k];
      FilledMore(m, found[..k], a);
      assert found[..k + 1] == found[..k] + [a];
      m := m[a.context := (if a.context in m then m[a.context] else []) + [a]];
    }
    assert found[..|found|] == found;
    groups := Collect(m);
    PartitionKeepsEveryone(groups, found);
    forall a
      ensures Members(groups)[a] == if a.typeId in types then multiset(tree)[a] else 0
    {
      MatchingCount(tree, types, a);
    }
  }

  /** The entries of `m` except those of `left`, each once, in any order. */
  ghost predicate Listed(groups: Groups, m: map<nat, seq<Actor>>, left: set<nat>) {
    && (forall g :: 0 <= g < |groups| ==> groups[g].0 in m && groups[g].0 !in left && groups[g].1 == m[groups[g].0])
    && (forall g, h :: 0 <= g < h < |groups| ==> groups[g].0 != groups[h].0)
    && (forall c :: c in m && c !in left ==> HasGroup(groups, c))
  }

  lemma ListedMore(groups: Groups, m: map<nat, seq<Actor>>, left: set<nat>, c: nat)
    requires Listed(groups, m, left) && c in left && c in m
    ensures Listed(groups + [(c, m[c])], m, left - {c})
  {
    var more := groups + [(c, m[c])];
    forall d | d in m && d !in left - {c}
      ensures HasGroup(more, d)
    {
      if d == c {
        assert more[|groups|].0 == c;
      } else {
        assert HasGroup(groups, d);
        var g :| 0 <= g < |groups| && groups[g].0 == d;
        assert more[g].0 == d;
      }
    }
  }

  method Collect(m: map<nat, seq<Actor>>) returns (groups: Groups)
    ensures Listed(groups, m, {})
  {
    groups := [];
    var left := m.Keys;
    while left != {}
      invariant left <= m.Keys && Listed(groups, m, left)
      decreases left
    {
      var c :| c in left;
      ListedMore(groups, m, left, c);
      groups := groups + [(c, m[c])];
      left := left - {c};
    }
  }

  // ---------- broadcasting ----------

  /** A message to a context that calls the handler on some actors there, in order. */
  datatype Delivery = Delivery(dest: nat, refs: seq<Actor>)

  function Calls(deliveries: seq<Delivery>): multiset<Actor> {
    if deliveries == [] then multiset{} else multiset(deliveries[0].refs) + Calls(deliveries[1..])
  }

  function CallsOfQueue(local: seq<seq<Actor>>): multiset<Actor> {
    if local == [] then multiset{} else multiset(local[0]) + CallsOfQueue(local[1..])
  }

  lemma {:induction false} CallsAppend(ds: seq<Delivery>, d: Delivery)
    ensures Calls(ds + [d]) == Calls(ds) + multiset(d.refs)
  {
    if ds == [] {
      assert [] + [d] == [d] && [d][1..] == [];
    } else {
      assert (ds + [d])[1..] == ds[1..] + [d];
      CallsAppend(ds[1..], d);
    }
  }

  lemma {:induction false} QueueAppend(qs: seq<seq<Actor>>, refs: seq<Actor>)
    ensures CallsOfQueue(qs + [refs]) == CallsOfQueue(qs) + multiset(refs)
  {
    if qs == [] {
      assert [] + [refs] == [refs] && [refs][1..] == [];
    } else {
      assert (qs + [refs])[1..] == qs[1..] + [refs];
      QueueAppend(qs[1..], refs);
    }
  }

  lemma {:induction false} MembersAppend(gs: Groups, g: (nat, seq<Actor>))
    ensures Members(gs + [g]) == Members(gs) + multiset(g.1)
  {
    if gs == [] {
      assert [] + [g] == [g] && [g][1..] == [];
    } else {
      assert (gs + [g])[1..] == gs[1..] + [g];
      MembersAppend(gs[1..], g);
    }
  }

  /**
   * One message a group: the sender's own to its local queue, the others to the unsent messages. Once
   * all have run the handler has been called on every member, each as often as it occurs.
   */
  method Send(id: nat, groups: Groups) returns (local: seq<seq<Actor>>, unsent: seq<Delivery>)
    ensures CallsOfQueue(local) + Calls(unsent) == Members(groups)
    ensures forall refs :: refs in local ==> (id, refs) in groups
    ensures forall d :: d in unsent ==> d.dest != id && (d.dest, d.refs) in groups
    ensures |local| + |unsent| == |groups|
  {
    local, unsent := [], [];
    for k := 0 to |groups|
      invariant Sent(id, groups, k, local, unsent)
    {
      var (dest, refs) := groups[k];
      SentMore(id, groups, k, local, unsent);
      if dest == id {
        local := local + [refs];
      } else {
        unsent := unsent + [Delivery(dest, refs)];
      }
    }
    assert groups[..|groups|] == groups;
  }

  ghost predicate Sent(id: nat, groups: Groups, k: nat, local: seq<seq<Actor>>, unsent: seq<Delivery>)
    requires k <= |groups|
  {
    && CallsOfQueue(local) + Calls(unsent) == Members(groups[..k])
    && (forall refs :: refs in local ==> (id, refs) in groups)
    && (forall d :: d in unsent ==> d.dest != id && (d.dest, d.refs) in groups)
    && |local| + |unsent| == k
  }

  lemma SentMore(id: nat, groups: Groups, k: nat, local: seq<seq<Actor>>, unsent: seq<Delivery>)
    requires k < |groups| && Sent(id, groups, k, local, unsent)
    ensures groups[k].0 == id ==> Sent(id, groups, k + 1, local + [groups[k].1], unsent)
    ensures groups[k].0 != id ==> Sent(id, groups, k + 1, local, unsent + [Delivery(groups[k].0, groups[k].1)])
  {
    var refs, d := groups[k].1, Delivery(groups[k].0, groups[k].1);
    assert groups[..k + 1] == groups[..k] + [groups[k]] && groups[k] in groups;
    MembersAppend(groups[..k], groups[k]);
    QueueAppend(local, refs);
    CallsAppend(unsent, d);
    assert forall r :: r in local + [refs] <==> r in local || r == refs;
    assert forall x :: x in unsent + [d] <==> x in unsent || x == d;
  }

  /** What one message per key would be. */
  function OnePerKey(actors: seq<Actor>): seq<Delivery> {
    if actors == [] then [] else [Delivery(actors[0].context, [actors[0]])] + OnePerKey(actors[1..])
  }

  lemma {:induction false} OnePerKeyCalls(actors: seq<Actor>)
    ensures Calls(OnePerKey(actors)) == multiset(actors)
  {
    if actors != [] {
      OnePerKeyCalls(actors[1..]);
      assert actors == [actors[0]] + actors[1..];
      var rest := OnePerKey(actors[1..]);
      assert ([Delivery(actors[0].context, [actors[0]])] + rest)[1..] == rest;
    }
  }

  /** A broadcast makes exactly the calls that one message per matching actor would make. */
  method BroadcastAll(id: nat, tree: seq<Actor>, types: set<nat>)
    returns (local: seq<seq<Actor>>, unsent: seq<Delivery>)
    ensures CallsOfQueue(local) + Calls(unsent) == Calls(OnePerKey(Matching(tree, types)))
    ensures CallsOfQueue(local) + Calls(unsent) == multiset(Matching(tree, types))
    ensures forall a :: (CallsOfQueue(local) + Calls(unsent))[a] == if a.typeId in types then multiset(tree)[a] else 0
    ensures forall refs :: refs in local ==> refs == InContext(Matching(tree, types), id)
    ensures forall d :: d in unsent ==> d.dest != id && d.refs == InContext(Matching(tree, types), d.dest)
  {
    var groups := BroadcastGroup(tree, types);
    PartitionKeepsEveryone(groups, Matching(tree, types));
    OnePerKeyCalls(Matching(tree, types));
    local, unsent := Send(id, groups);
    forall a
      ensures (CallsOfQueue(local) + Calls(unsent))[a] == if a.typeId in types then multiset(tree)[a] else 0
    {
      MatchingCount(tree, types, a);
    }
  }
}
