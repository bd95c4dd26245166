/** Setting up: distributing the configured actors over the contexts and laying each context out. */
module Setup {
  import opened Alignment
  import A = Arena

  datatype ActorConfig = ActorConfig(typename: string, context: nat)

  /** Context ids count from one. */
  datatype Config = Config(contextIds: seq<nat>, actors: seq<ActorConfig>)

  datatype Entry = Entry(id: nat, context: nat, layout: A.Layout, offset: nat)

  datatype Result =
    | Ready(tree: seq<Entry>, arenas: seq<A.Arena>)
    | BadContextNames
    | NoSuchContext(actor: nat)
    | NoSuchType(actor: nat)
    | TooLarge(context: nat)

  type Types = map<string, A.Layout>

  predicate ValidTypes(types: Types) {
    forall name :: name in types ==> types[name].align > 0 && PowerOfTwo(types[name].align)
  }

  predicate NamedInOrder(ids: seq<nat>) {
    forall i :: 0 <= i < |ids| ==> ids[i] == i + 1
  }

  predicate ContextExists(cfg: Config, i: nat)
    requires i < |cfg.actors|
  {
    1 <= cfg.actors[i].context <= |cfg.contextIds|
  }

  /** The actors of context number `c`, in configuration order. */
  function ActorsOf(actors: seq<ActorConfig>, c: nat): (ids: seq<nat>)
    ensures forall k :: 0 <= k < |ids| ==> ids[k] < |actors| && actors[ids[k]].context == c
  {
    if actors == [] then []
    else
      var n := |actors| - 1;
      var before := ActorsOf(actors[..n], c);
      if actors[n].context == c then before + [n] else before
  }

  /** All of them, each once, in ascending order. */
  lemma {:induction false} ActorsOfIsExact(actors: seq<ActorConfig>, c: nat)
    ensures forall j, k :: 0 <= j < k < |ActorsOf(actors, c)| ==> ActorsOf(actors, c)[j] < ActorsOf(actors, c)[k]
    ensures forall i :: 0 <= i < |actors| && actors[i].context == c ==> i in ActorsOf(actors, c)
  {
    if actors != [] {
      var n := |actors| - 1;
      ActorsOfIsExact(actors[..n], c);
      assert forall i :: 0 <= i < n ==> actors[..n][i] == actors[i];
    }
  }

  lemma OneMoreActor(actors: seq<ActorConfig>, i: nat, c: nat)
    requires i < |actors|
    ensures ActorsOf(actors[..i + 1], c) == ActorsOf(actors[..i], c) + if actors[i].context == c then [i] else []
  {
    assert actors[..i + 1][..i] == actors[..i];
  }

  /** An entry that is right for the configured actor it stands for. */
  predicate Matches(cfg: Config, types: Types, e: Entry) {
    && 1 <= e.id <= |cfg.actors|
    && e.context == cfg.actors[e.id - 1].context
    && cfg.actors[e.id - 1].typename in types
    && e.layout == types[cfg.actors[e.id - 1].typename]
  }

  predicate DistinctIds(tree: seq<Entry>) {
    forall p, q :: 0 <= p < q < |tree| ==> tree[p].id != tree[q].id
  }

  /** The configured actor at index `i` has an entry; ids count from one. */
  predicate Listed(tree: seq<Entry>, i: nat) {
    exists p :: 0 <= p < |tree| && tree[p].id == i + 1
  }

  /** Every configured actor has exactly one entry, in its context and with the layout of its type. */
  predicate EachOnce(cfg: Config, types: Types, tree: seq<Entry>) {
    && (forall p :: 0 <= p < |tree| ==> Matches(cfg, types, tree[p]))
    && DistinctIds(tree)
    && forall i :: 0 <= i < |cfg.actors| ==> Listed(tree, i)
  }

  /** Entries are aligned in their context's arena, within its capacity, and never overlap there. */
  predicate WellPlaced(tree: seq<Entry>, arenas: seq<A.Arena>) {
    && (forall p :: 0 <= p < |tree| ==> Placed(tree[p], arenas))
    && (forall p, q :: 0 <= p < q < |tree| && tree[p].context == tree[q].context ==>
          tree[p].offset + tree[p].layout.size <= tree[q].offset)
  }

  predicate Placed(e: Entry, arenas: seq<A.Arena>) {
    && 1 <= e.context <= |arenas| && e.layout.align > 0
    && Aligned(arenas[e.context - 1].data + e.offset, e.layout.align)
    && e.offset + e.layout.size <= arenas[e.context - 1].capacity
  }

  function LayoutsOf(cfg: Config, types: Types, ids: seq<nat>): (layouts: seq<A.Layout>)
    requires ValidTypes(types)
    requires forall k :: 0 <= k < |ids| ==> ids[k] < |cfg.actors| && cfg.actors[ids[k]].typename in types
    ensures |layouts| == |ids| && A.ValidLayouts(layouts)
    ensures forall k :: 0 <= k < |ids| ==> layouts[k] == types[cfg.actors[ids[k]].typename]
  {
    seq(|ids|, k requires 0 <= k < |ids| => types[cfg.actors[ids[k]].typename])
  }

  /** The types of all actors of context `c` are registered. */
  predicate Known(cfg: Config, types: Types, c: nat) {
    forall k :: 0 <= k < |ActorsOf(cfg.actors, c)| ==> cfg.actors[ActorsOf(cfg.actors, c)[k]].typename in types
  }

  function Layouts(cfg: Config, types: Types, c: nat): (layouts: seq<A.Layout>)
    requires ValidTypes(types) && Known(cfg, types, c)
    ensures A.ValidLayouts(layouts) && |layouts| == |ActorsOf(cfg.actors, c)|
  {
    LayoutsOf(cfg, types, ActorsOf(cfg.actors, c))
  }

  /** From some address the actors of context `c` would not fit into 32 bits of offsets. */
  ghost predicate Oversized(cfg: Config, types: Types, c: nat)
    requires ValidTypes(types)
  {
    Known(cfg, types, c) && exists start: nat :: A.Extent(start, Layouts(cfg, types, c)) >= A.U32_LIMIT
  }

  ghost predicate Fits(cfg: Config, types: Types, c: nat)
    requires ValidTypes(types)
  {
    Known(cfg, types, c) && forall start: nat :: A.Extent(start, Layouts(cfg, types, c)) < A.U32_LIMIT
  }

  /** The arena of context `c` has exactly the room its actors need at worst, and that fits into 32 bits. */
  ghost predicate Reserved(cfg: Config, types: Types, c: nat, arena: A.Arena)
    requires ValidTypes(types)
  {
    Known(cfg, types, c) && A.WorstExtent(Layouts(cfg, types, c), arena.capacity) && arena.capacity < A.U32_LIMIT
  }

  lemma ReservedFits(cfg: Config, types: Types, c: nat, arena: A.Arena)
    requires ValidTypes(types) && Reserved(cfg, types, c, arena)
    ensures Fits(cfg, types, c)
  {
    forall start: nat
      ensures A.Extent(start, Layouts(cfg, types, c)) < A.U32_LIMIT
    {
      assert A.Extent(start, Layouts(cfg, types, c)) <= arena.capacity;
    }
  }

  /** Actor `i` is the first of context `c` whose type is not registered. */
  predicate FirstUnregistered(cfg: Config, types: Types, c: nat, i: nat) {
    && i < |cfg.actors| && cfg.actors[i].context == c && cfg.actors[i].typename !in types
    && forall j :: 0 <= j < i && cfg.actors[j].context == c ==> cfg.actors[j].typename in types
  }

  /** The part of `EachOnce` that concerns the first `done` contexts. */
  predicate OnceSoFar(cfg: Config, types: Types, tree: seq<Entry>, done: nat) {
    && (forall p :: 0 <= p < |tree| ==> Matches(cfg, types, tree[p]) && tree[p].context <= done)
    && DistinctIds(tree)
    && forall i :: 0 <= i < |cfg.actors| && 1 <= cfg.actors[i].context <= done ==> Listed(tree, i)
  }

  /** The entries of one context. */
  function EntriesOf(c: nat, ids: seq<nat>, layouts: seq<A.Layout>, offsets: seq<nat>): (entries: seq<Entry>)
    requires |ids| == |layouts| == |offsets|
    ensures |entries| == |ids|
    ensures forall k :: 0 <= k < |ids| ==> entries[k] == Entry(ids[k] + 1, c, layouts[k], offsets[k])
  {
    seq(|ids|, k requires 0 <= k < |ids| => Entry(ids[k] + 1, c, layouts[k], offsets[k]))
  }

  /** The entries `more` are those of the actors `ids` of context `c`. */
  predicate EntriesFor(cfg: Config, types: Types, c: nat, ids: seq<nat>, more: seq<Entry>) {
    && |more| == |ids|
    && forall k :: 0 <= k < |more| ==> Matches(cfg, types, more[k]) && more[k].context == c && more[k].id == ids[k] + 1
  }

  predicate EntriesAt(entries: seq<Entry>, layouts: seq<A.Layout>, offsets: seq<nat>) {
    && |layouts| == |offsets| == |entries|
    && forall k :: 0 <= k < |entries| ==> entries[k].layout == layouts[k] && entries[k].offset == offsets[k]
  }

  /** The entry of the `k`-th actor of its context lies where the `k`-th block of that layout begins. */
  ghost predicate AtBlock(cfg: Config, types: Types, arenas: seq<A.Arena>, e: Entry)
    requires ValidTypes(types)
  {
    && 1 <= e.context <= |arenas| && Known(cfg, types, e.context)
    && exists k :: 0 <= k < |ActorsOf(cfg.actors, e.context)| && ActorsOf(cfg.actors, e.context)[k] + 1 == e.id
         && arenas[e.context - 1].data + e.offset
            == A.BlockStart(arenas[e.context - 1].data, Layouts(cfg, types, e.context), k)
  }

  /** Context by context, and in each in the order of the configuration. */
  predicate InOrder(tree: seq<Entry>) {
    forall p, q :: 0 <= p < q < |tree| ==>
      tree[p].context < tree[q].context || (tree[p].context == tree[q].context && tree[p].id < tree[q].id)
  }

  /** All arenas have their exact size, and all entries their exact places, in both senses. */
  ghost predicate Exact(cfg: Config, types: Types, tree: seq<Entry>, arenas: seq<A.Arena>)
    requires ValidTypes(types)
  {
    && InOrder(tree)
    && (forall d :: 0 <= d < |arenas| ==> Reserved(cfg, types, d + 1, arenas[d]))
    && forall p :: 0 <= p < |tree| ==> AtBlock(cfg, types, arenas, tree[p])
  }

  lemma InOrderMore(tree: seq<Entry>, more: seq<Entry>, c: nat)
    requires InOrder(tree) && forall p :: 0 <= p < |tree| ==> tree[p].context < c
    requires InOrder(more) && forall k :: 0 <= k < |more| ==> more[k].context == c
    ensures InOrder(tree + more)
  {
  }

  /** What one context adds. */
  ghost predicate AddsExactly(cfg: Config, types: Types, c: nat, arena: A.Arena, more: seq<Entry>)
    requires ValidTypes(types)
  {
    && Reserved(cfg, types, c, arena)
    && EntriesFor(cfg, types, c, ActorsOf(cfg.actors, c), more)
    && forall k :: 0 <= k < |more| ==>
         arena.data + more[k].offset == A.BlockStart(arena.data, Layouts(cfg, types, c), k)
  }

  function Offsets(entries: seq<Entry>): (offsets: seq<nat>)
    ensures |offsets| == |entries| && forall k :: 0 <= k < |entries| ==> offsets[k] == entries[k].offset
  {
    seq(|entries|, k requires 0 <= k < |entries| => entries[k].offset)
  }

  lemma AddsLaidOut(cfg: Config, types: Types, c: nat, arena: A.Arena, more: seq<Entry>)
    requires ValidTypes(types) && AddsExactly(cfg, types, c, arena, more)
    ensures A.LaidOut(arena, Layouts(cfg, types, c), Offsets(more))
    ensures EntriesAt(more, Layouts(cfg, types, c), Offsets(more))
  {
    A.LayoutFits(arena, Layouts(cfg, types, c), Offsets(more));
  }

  lemma ExactMore(cfg: Config, types: Types, tree: seq<Entry>, arenas: seq<A.Arena>, arena: A.Arena, more: seq<Entry>)
    requires ValidTypes(types) && Exact(cfg, types, tree, arenas)
    requires AddsExactly(cfg, types, |arenas| + 1, arena, more)
    ensures Exact(cfg, types, tree + more, arenas + [arena])
  {
    InOrderMore(tree, more, |arenas| + 1) by {
      assert forall p :: 0 <= p < |tree| ==> AtBlock(cfg, types, arenas, tree[p]);
      EntriesInOrder(cfg, types, |arenas| + 1, more);
    }
    ReservedMore(cfg, types, arenas, arena);
    forall p | 0 <= p < |tree + more|
      ensures AtBlock(cfg, types, arenas + [arena], (tree + more)[p])
    {
      if p < |tree| {
        AtBlockStill(cfg, types, arenas, arena, tree[p]);
      } else {
        AtBlockNow(cfg, types, arenas, arena, more, p - |tree|);
      }
    }
  }

  lemma EntriesInOrder(cfg: Config, types: Types, c: nat, more: seq<Entry>)
    requires EntriesFor(cfg, types, c, ActorsOf(cfg.actors, c), more)
    ensures InOrder(more)
  {
    ActorsOfIsExact(cfg.actors, c);
  }

  lemma ReservedMore(cfg: Config, types: Types, arenas: seq<A.Arena>, arena: A.Arena)
    requires ValidTypes(types) && Reserved(cfg, types, |arenas| + 1, arena)
    requires forall d :: 0 <= d < |arenas| ==> Reserved(cfg, types, d + 1, arenas[d])
    ensures forall d :: 0 <= d < |arenas + [arena]| ==> Reserved(cfg, types, d + 1, (arenas + [arena])[d])
  {
  }

  lemma AtBlockNow(cfg: Config, types: Types, arenas: seq<A.Arena>, arena: A.Arena, more: seq<Entry>, k: nat)
    requires ValidTypes(types) && AddsExactly(cfg, types, |arenas| + 1, arena, more) && k < |more|
    ensures AtBlock(cfg, types, arenas + [arena], more[k])
  {
    assert (arenas + [arena])[|arenas|] == arena;
    assert ActorsOf(cfg.actors, |arenas| + 1)[k] + 1 == more[k].id;
  }

  lemma AtBlockStill(cfg: Config, types: Types, arenas: seq<A.Arena>, arena: A.Arena, e: Entry)
    requires ValidTypes(types) && AtBlock(cfg, types, arenas, e)
    ensures AtBlock(cfg, types, arenas + [arena], e)
  {
    assert (arenas + [arena])[e.context - 1] == arenas[e.context - 1];
  }

  lemma ListedMore(tree: seq<Entry>, more: seq<Entry>, i: nat)
    requires Listed(tree, i) || Listed(more, i)
    ensures Listed(tree + more, i)
  {
    if p :| 0 <= p < |tree| && tree[p].id == i + 1 {
      assert (tree + more)[p].id == i + 1;
    } else {
      var k :| 0 <= k < |more| && more[k].id == i + 1;
      assert (tree + more)[|tree| + k].id == i + 1;
    }
  }

  lemma DistinctMore(tree: seq<Entry>, more: seq<Entry>)
    requires DistinctIds(tree) && DistinctIds(more)
    requires forall p, k :: 0 <= p < |tree| && 0 <= k < |more| ==> tree[p].id != more[k].id
    ensures DistinctIds(tree + more)
  {
  }

  /** The entries of another context are of other actors. */
  lemma OthersDiffer(cfg: Config, types: Types, tree: seq<Entry>, done: nat, more: seq<Entry>)
    requires OnceSoFar(cfg, types, tree, done)
    requires EntriesFor(cfg, types, done + 1, ActorsOf(cfg.actors, done + 1), more)
    ensures forall p, k :: 0 <= p < |tree| && 0 <= k < |more| ==> tree[p].id != more[k].id
    ensures DistinctIds(more)
  {
    ActorsOfIsExact(cfg.actors, done + 1);
    forall p, k | 0 <= p < |tree| && 0 <= k < |more|
      ensures tree[p].id != more[k].id
    {
      assert Matches(cfg, types, tree[p]) && Matches(cfg, types, more[k]);
    }
  }

  lemma AllListedSoFar(cfg: Config, types: Types, tree: seq<Entry>, done: nat, more: seq<Entry>, i: nat)
    requires OnceSoFar(cfg, types, tree, done)
    requires EntriesFor(cfg, types, done + 1, ActorsOf(cfg.actors, done + 1), more)
    requires i < |cfg.actors| && 1 <= cfg.actors[i].context <= done + 1
    ensures Listed(tree + more, i)
  {
    if cfg.actors[i].context > done {
      var ids := ActorsOf(cfg.actors, done + 1);
      ActorsOfIsExact(cfg.actors, done + 1);
      assert i in ids;
      var k :| 0 <= k < |ids| && ids[k] == i;
      assert more[k].id == i + 1;
    }
    ListedMore(tree, more, i);
  }

  lemma OnceMore(cfg: Config, types: Types, tree: seq<Entry>, done: nat, more: seq<Entry>)
    requires OnceSoFar(cfg, types, tree, done)
    requires EntriesFor(cfg, types, done + 1, ActorsOf(cfg.actors, done + 1), more)
    ensures OnceSoFar(cfg, types, tree + more, done + 1)
  {
    OthersDiffer(cfg, types, tree, done, more);
    DistinctMore(tree, more);
    forall i | 0 <= i < |cfg.actors| && 1 <= cfg.actors[i].context <= done + 1
      ensures Listed(tree + more, i)
    {
      AllListedSoFar(cfg, types, tree, done, more, i);
    }
  }

  lemma PlacedMore(tree: seq<Entry>, arenas: seq<A.Arena>, arena: A.Arena,
                   layouts: seq<A.Layout>, offsets: seq<nat>, more: seq<Entry>)
    requires WellPlaced(tree, arenas) && forall p :: 0 <= p < |tree| ==> tree[p].context <= |arenas|
    requires A.ValidLayouts(layouts) && A.LaidOut(arena, layouts, offsets)
    requires EntriesAt(more, layouts, offsets) && forall k :: 0 <= k < |more| ==> more[k].context == |arenas| + 1
    ensures WellPlaced(tree + more, arenas + [arena])
  {
    var all, arenas' := tree + more, arenas + [arena];
    forall p | 0 <= p < |all|
      ensures Placed(all[p], arenas')
    {
      if p < |tree| {
        assert Placed(tree[p], arenas);
      } else {
        assert all[p] == more[p - |tree|];
      }
    }
    forall p, q | 0 <= p < q < |all| && all[p].context == all[q].context
      ensures all[p].offset + all[p].layout.size <= all[q].offset
    {
      if |tree| <= p {
        assert all[p] == more[p - |tree|] && all[q] == more[q - |tree|];
      } else if q < |tree| {
        assert all[p] == tree[p] && all[q] == tree[q];
      }
    }
  }

  /** Bucket `c` holds the actors of context number `c + 1`. */
  predicate Distributed(actors: seq<ActorConfig>, buckets: seq<seq<nat>>) {
    forall c :: 0 <= c < |buckets| ==> buckets[c] == ActorsOf(actors, c + 1)
  }

  lemma OneMoreDistributed(actors: seq<ActorConfig>, i: nat, buckets: seq<seq<nat>>)
    requires i < |actors| && 1 <= actors[i].context <= |buckets| && Distributed(actors[..i], buckets)
    ensures var c := actors[i].context - 1; Distributed(actors[..i + 1], buckets[c := buckets[c] + [i]])
  {
    var c := actors[i].context - 1;
    var buckets' := buckets[c := buckets[c] + [i]];
    forall d | 0 <= d < |buckets|
      ensures buckets'[d] == ActorsOf(actors[..i + 1], d + 1)
    {
      OneMoreActor(actors, i, d + 1);
    }
  }

  /** The first `i` actors are in their buckets. */
  predicate DealtOut(cfg: Config, i: nat, buckets: seq<seq<nat>>) {
    && i <= |cfg.actors| && |buckets| == |cfg.contextIds|
    && Distributed(cfg.actors[..i], buckets)
    && forall j :: 0 <= j < i ==> ContextExists(cfg, j)
  }

  lemma NoneDealtOut(cfg: Config, buckets: seq<seq<nat>>)
    requires |buckets| == |cfg.contextIds| && forall c :: 0 <= c < |buckets| ==> buckets[c] == []
    ensures DealtOut(cfg, 0, buckets)
  {
  }

  lemma OneDealtOut(cfg: Config, i: nat, buckets: seq<seq<nat>>)
    requires i < |cfg.actors| && ContextExists(cfg, i) && DealtOut(cfg, i, buckets)
    ensures var c := cfg.actors[i].context - 1; DealtOut(cfg, i + 1, buckets[c := buckets[c] + [i]])
  {
    OneMoreDistributed(cfg.actors, i, buckets);
  }

  lemma AllDealtOut(cfg: Config, buckets: seq<seq<nat>>)
    requires DealtOut(cfg, |cfg.actors|, buckets)
    ensures |buckets| == |cfg.contextIds| && Distributed(cfg.actors, buckets)
  {
    assert cfg.actors[..|cfg.actors|] == cfg.actors;
  }

  /** The actors of each context, in configuration order, or the first actor that names none. */
  method Distribute(cfg: Config) returns (buckets: seq<seq<nat>>, bad: nat)
    ensures bad <= |cfg.actors|
    ensures bad < |cfg.actors| ==> !ContextExists(cfg, bad)
    ensures forall i :: 0 <= i < bad ==> ContextExists(cfg, i)
    ensures bad == |cfg.actors| ==>
      |buckets| == |cfg.contextIds| && Distributed(cfg.actors, buckets)
  {
    var n := |cfg.contextIds|;
    buckets := seq(n, _ => []);
    NoneDealtOut(cfg, buckets);
    for i := 0 to |cfg.actors|
      invariant DealtOut(cfg, i, buckets)
    {
      var c := cfg.actors[i].context;
      if !(1 <= c <= n) {
        return buckets, i;
      }
      OneDealtOut(cfg, i, buckets);
      buckets := buckets[c - 1 := buckets[c - 1] + [i]];
    }
    AllDealtOut(cfg, buckets);
    bad := |cfg.actors|;
  }

  /** The first of the actors whose type is not registered, or their number. */
  method FirstUnknown(cfg: Config, types: Types, ids: seq<nat>) returns (k: nat)
    requires forall j :: 0 <= j < |ids| ==> ids[j] < |cfg.actors|
    ensures k <= |ids| && forall j :: 0 <= j < k ==> cfg.actors[ids[j]].typename in types
    ensures k < |ids| ==> cfg.actors[ids[k]].typename !in types
  {
    k := 0;
    while k < |ids| && cfg.actors[ids[k]].typename in types
      invariant k <= |ids| && forall j :: 0 <= j < k ==> cfg.actors[ids[j]].typename in types
    {
      k := k + 1;
    }
  }

  lemma UnknownIsFirst(cfg: Config, types: Types, c: nat, k: nat)
    requires k < |ActorsOf(cfg.actors, c)| && cfg.actors[ActorsOf(cfg.actors, c)[k]].typename !in types
    requires forall j :: 0 <= j < k ==> cfg.actors[ActorsOf(cfg.actors, c)[j]].typename in types
    ensures FirstUnregistered(cfg, types, c, ActorsOf(cfg.actors, c)[k])
  {
    ActorsOfIsExact(cfg.actors, c);
    var ids := ActorsOf(cfg.actors, c);
    forall i | 0 <= i < ids[k] && cfg.actors[i].context == c
      ensures cfg.actors[i].typename in types
    {
      assert i in ids;
      var j :| 0 <= j < |ids| && ids[j] == i;
    }
  }

  /** One context's arena, laid out for its actors from the address the allocator answers with. */
  method AllocateActors(cfg: Config, types: Types, c: nat, ids: seq<nat>, address: nat) returns (r: Result)
    requires ValidTypes(types) && ids == ActorsOf(cfg.actors, c)
    ensures r.Ready? || r.NoSuchType? || r.TooLarge?
    ensures r.NoSuchType? ==> FirstUnregistered(cfg, types, c, r.actor)
    ensures r.TooLarge? ==> r.context == c && Oversized(cfg, types, c)
    ensures r.Ready? ==>
      && |r.arenas| == 1 && r.arenas[0].data == address && Known(cfg, types, c)
      && A.WorstExtent(Layouts(cfg, types, c), r.arenas[0].capacity)
      && A.LaidOut(r.arenas[0], Layouts(cfg, types, c), Offsets(r.tree))
      && AddsExactly(cfg, types, c, r.arenas[0], r.tree)
  {
    var unknown := FirstUnknown(cfg, types, ids);
    if unknown < |ids| {
      UnknownIsFirst(cfg, types, c, unknown);
      return NoSuchType(ids[unknown]);
    }
    var needed := LayoutsOf(cfg, types, ids);
    var reserved := A.FromLayouts(needed, address);
    if reserved.None? {
      ghost var start: nat :| A.Extent(start, needed) >= A.U32_LIMIT;
      assert A.Extent(start, Layouts(cfg, types, c)) >= A.U32_LIMIT;
      return TooLarge(c);
    }
    var (arena, places) := reserved.value;
    r := Ready(EntriesOf(c, ids, needed, places), [arena]);
    assert Offsets(r.tree) == places;
  }

  /** The next context laid out behind the others. */
  method LayOutNext(cfg: Config, types: Types, addresses: seq<nat>, ids: seq<nat>,
                    tree: seq<Entry>, arenas: seq<A.Arena>) returns (r: Result)
    requires ValidTypes(types) && |arenas| < |addresses| && |arenas| < |cfg.contextIds|
    requires ids == ActorsOf(cfg.actors, |arenas| + 1) && Stage(cfg, types, addresses, tree, arenas, |arenas|)
    ensures r.Ready? || r.NoSuchType? || r.TooLarge?
    ensures r.Ready? ==> |r.arenas| == |arenas| + 1 && Stage(cfg, types, addresses, r.tree, r.arenas, |r.arenas|)
    ensures r.NoSuchType? ==> TypeFails(cfg, types, r.actor)
    ensures r.TooLarge? ==> SizeFails(cfg, types, r.context)
  {
    r := AllocateActors(cfg, types, |arenas| + 1, ids, addresses[|arenas|]);
    if r.Ready? {
      StageMore(cfg, types, addresses, tree, arenas, |arenas|, r.arenas[0], r.tree);
      r := Ready(tree + r.tree, arenas + [r.arenas[0]]);
    } else {
      FailsHere(cfg, types, tree, arenas, r);
    }
  }

  /** All contexts laid out. */
  method LayOut(cfg: Config, types: Types, addresses: seq<nat>, buckets: seq<seq<nat>>) returns (r: Result)
    requires ValidTypes(types) && |addresses| >= |buckets| == |cfg.contextIds|
    requires Distributed(cfg.actors, buckets)
    ensures r.Ready? || r.NoSuchType? || r.TooLarge?
    ensures r.Ready? ==> Stage(cfg, types, addresses, r.tree, r.arenas, |buckets|)
    ensures r.NoSuchType? ==> TypeFails(cfg, types, r.actor)
    ensures r.TooLarge? ==> SizeFails(cfg, types, r.context)
  {
    r := Ready([], []);
    for c := 0 to |buckets|
      invariant r.Ready? && |r.arenas| == c && Stage(cfg, types, addresses, r.tree, r.arenas, c)
    {
      r := LayOutNext(cfg, types, addresses, buckets[c], r.tree, r.arenas);
      if !r.Ready? {
        return;
      }
    }
  }

  /** Actor `i` has no registered type: the first such in its context, and all contexts before that fit. */
  ghost predicate TypeFails(cfg: Config, types: Types, i: nat)
    requires ValidTypes(types)
  {
    && i < |cfg.actors| && ContextExists(cfg, i) && FirstUnregistered(cfg, types, cfg.actors[i].context, i)
    && forall d :: 1 <= d < cfg.actors[i].context ==> Fits(cfg, types, d)
  }

  /** Context `c` needs too much, and all contexts before it fit. */
  ghost predicate SizeFails(cfg: Config, types: Types, c: nat)
    requires ValidTypes(types)
  {
    1 <= c <= |cfg.contextIds| && Oversized(cfg, types, c) && forall d :: 1 <= d < c ==> Fits(cfg, types, d)
  }

  lemma AllFit(cfg: Config, types: Types, tree: seq<Entry>, arenas: seq<A.Arena>)
    requires ValidTypes(types) && Exact(cfg, types, tree, arenas)
    ensures forall d :: 1 <= d <= |arenas| ==> Fits(cfg, types, d)
  {
    forall d | 1 <= d <= |arenas|
      ensures Fits(cfg, types, d)
    {
      ReservedFits(cfg, types, d, arenas[d - 1]);
    }
  }

  lemma FailsHere(cfg: Config, types: Types, tree: seq<Entry>, arenas: seq<A.Arena>, r: Result)
    requires ValidTypes(types) && Exact(cfg, types, tree, arenas) && |arenas| < |cfg.contextIds|
    requires r.NoSuchType? ==> FirstUnregistered(cfg, types, |arenas| + 1, r.actor)
    requires r.TooLarge? ==> r.context == |arenas| + 1 && Oversized(cfg, types, r.context)
    ensures r.NoSuchType? ==> TypeFails(cfg, types, r.actor)
    ensures r.TooLarge? ==> SizeFails(cfg, types, r.context)
  {
    AllFit(cfg, types, tree, arenas);
  }

  /** The first `done` contexts are laid out. */
  predicate SetUp(cfg: Config, types: Types, addresses: seq<nat>, tree: seq<Entry>, arenas: seq<A.Arena>, done: nat)
    requires done <= |addresses|
  {
    && |arenas| == done && AtAddresses(arenas, addresses)
    && OnceSoFar(cfg, types, tree, done) && WellPlaced(tree, arenas)
  }

  predicate AtAddresses(arenas: seq<A.Arena>, addresses: seq<nat>) {
    |arenas| <= |addresses| && forall d :: 0 <= d < |arenas| ==> arenas[d].data == addresses[d]
  }

  lemma SetUpMore(cfg: Config, types: Types, addresses: seq<nat>, tree: seq<Entry>, arenas: seq<A.Arena>, done: nat,
                  arena: A.Arena, more: seq<Entry>)
    requires ValidTypes(types) && AddsExactly(cfg, types, done + 1, arena, more)
    requires done < |addresses| && SetUp(cfg, types, addresses, tree, arenas, done) && arena.data == addresses[done]
    ensures SetUp(cfg, types, addresses, tree + more, arenas + [arena], done + 1)
  {
    OnceMore(cfg, types, tree, done, more);
    PlacedNext(cfg, types, tree, arenas, arena, more);
    AddressedMore(arenas, arena, addresses);
  }

  lemma AddressedMore(arenas: seq<A.Arena>, arena: A.Arena, addresses: seq<nat>)
    requires AtAddresses(arenas, addresses) && |arenas| < |addresses| && arena.data == addresses[|arenas|]
    ensures AtAddresses(arenas + [arena], addresses)
  {
  }

  lemma PlacedNext(cfg: Config, types: Types, tree: seq<Entry>, arenas: seq<A.Arena>, arena: A.Arena, more: seq<Entry>)
    requires ValidTypes(types) && AddsExactly(cfg, types, |arenas| + 1, arena, more)
    requires WellPlaced(tree, arenas) && forall p :: 0 <= p < |tree| ==> tree[p].context <= |arenas|
    ensures WellPlaced(tree + more, arenas + [arena])
  {
    AddsLaidOut(cfg, types, |arenas| + 1, arena, more);
    PlacedMore(tree, arenas, arena, Layouts(cfg, types, |arenas| + 1), Offsets(more), more);
  }

  ghost predicate Stage(cfg: Config, types: Types, addresses: seq<nat>, tree: seq<Entry>, arenas: seq<A.Arena>,
                        done: nat)
    requires done <= |addresses| && ValidTypes(types)
  {
    SetUp(cfg, types, addresses, tree, arenas, done) && Exact(cfg, types, tree, arenas)
  }

  lemma StageMore(cfg: Config, types: Types, addresses: seq<nat>, tree: seq<Entry>, arenas: seq<A.Arena>, done: nat,
                  arena: A.Arena, more: seq<Entry>)
    requires ValidTypes(types) && done < |addresses| && Stage(cfg, types, addresses, tree, arenas, done)
    requires arena.data == addresses[done] && AddsExactly(cfg, types, done + 1, arena, more)
    ensures Stage(cfg, types, addresses, tree + more, arenas + [arena], done + 1)
  {
    SetUpMore(cfg, types, addresses, tree, arenas, done, arena, more);
    ExactMore(cfg, types, tree, arenas, arena, more);
  }

  /**
   * Setting up with an allocator that answers with the given addresses. What stops it is a context
   * out of order, an actor in no context or of no registered type, or a context that needs too much.
   */
  method CreateContextArgs(cfg: Config, types: Types, addresses: seq<nat>) returns (r: Result)
    requires ValidTypes(types) && |addresses| >= |cfg.contextIds|
    ensures r.Ready? ==>
      && EachOnce(cfg, types, r.tree) && WellPlaced(r.tree, r.arenas)
      && |r.arenas| == |cfg.contextIds| && AtAddresses(r.arenas, addresses)
    ensures r.Ready? ==> Exact(cfg, types, r.tree, r.arenas)
    ensures r.Ready? ==> forall c :: 1 <= c <= |r.arenas| ==>
      Known(cfg, types, c) && A.WorstExtent(Layouts(cfg, types, c), r.arenas[c - 1].capacity)
    ensures r.BadContextNames? <==> !NamedInOrder(cfg.contextIds)
    ensures r.NoSuchContext? <==>
      NamedInOrder(cfg.contextIds) && exists i :: 0 <= i < |cfg.actors| && !ContextExists(cfg, i)
    ensures r.NoSuchContext? ==>
      r.actor < |cfg.actors| && !ContextExists(cfg, r.actor) && forall i :: 0 <= i < r.actor ==> ContextExists(cfg, i)
    ensures r.NoSuchType? ==> TypeFails(cfg, types, r.actor)
    ensures r.TooLarge? ==> SizeFails(cfg, types, r.context)
    ensures r.Ready? ==> forall c :: 1 <= c <= |cfg.contextIds| ==> Fits(cfg, types, c)
    ensures r.Ready? ==> forall i :: 0 <= i < |cfg.actors| ==>
      ContextExists(cfg, i) && cfg.actors[i].typename in types
  {
    for i := 0 to |cfg.contextIds|
      invariant forall j :: 0 <= j < i ==> cfg.contextIds[j] == j + 1
    {
      if cfg.contextIds[i] != i + 1 {
        return BadContextNames;
      }
    }
    var buckets, bad := Distribute(cfg);
    if bad < |cfg.actors| {
      return NoSuchContext(bad);
    }
    r := LayOut(cfg, types, addresses, buckets);
    if r.Ready? {
      AllFit(cfg, types, r.tree, r.arenas);
      AllReserved(cfg, types, r.arenas);
      AllListed(cfg, types, r.tree);
    }
  }

  lemma AllReserved(cfg: Config, types: Types, arenas: seq<A.Arena>)
    requires ValidTypes(types) && forall d :: 0 <= d < |arenas| ==> Reserved(cfg, types, d + 1, arenas[d])
    ensures forall c :: 1 <= c <= |arenas| ==>
      Known(cfg, types, c) && A.WorstExtent(Layouts(cfg, types, c), arenas[c - 1].capacity)
  {
    forall c | 1 <= c <= |arenas|
      ensures Known(cfg, types, c) && A.WorstExtent(Layouts(cfg, types, c), arenas[c - 1].capacity)
    {
      assert Reserved(cfg, types, (c - 1) + 1, arenas[c - 1]);
    }
  }

  lemma AllListed(cfg: Config, types: Types, tree: seq<Entry>)
    requires OnceSoFar(cfg, types, tree, |cfg.contextIds|)
    requires forall i :: 0 <= i < |cfg.actors| ==> ContextExists(cfg, i)
    ensures EachOnce(cfg, types, tree)
    ensures forall i :: 0 <= i < |cfg.actors| ==> cfg.actors[i].typename in types
  {
    forall i | 0 <= i < |cfg.actors|
      ensures Listed(tree, i) && cfg.actors[i].typename in types
    {
      assert ContextExists(cfg, i);
      var p :| 0 <= p < |tree| && tree[p].id == i + 1;
      assert Matches(cfg, types, tree[p]);
    }
  }
}
