/** Detecting cycles among the dependence relations by a depth-first search with three node states. */
module Graph {

  type ActorId = nat

  datatype Relation = Relation(from: ActorId, to: ActorId)

  datatype Mark = Unvisited | Visiting | Visited

  type Edges = map<ActorId, set<ActorId>>

  /** Consecutive nodes of `p` are connected. */
  predicate Walk(g: Edges, p: seq<ActorId>) {
    forall i :: 0 <= i < |p| - 1 ==> p[i] in g && p[i + 1] in g[p[i]]
  }

  ghost predicate HasCycle(g: Edges) {
    exists p :: |p| > 1 && Walk(g, p) && p[0] == p[|p| - 1]
  }

  /** A non-empty chain of relations that leads from an actor back to itself. */
  predicate Chain(relations: seq<Relation>, p: seq<ActorId>) {
    forall i :: 0 <= i < |p| - 1 ==> Relation(p[i], p[i + 1]) in relations
  }

  ghost predicate Cyclic(relations: seq<Relation>) {
    exists p :: |p| > 1 && Chain(relations, p) && p[0] == p[|p| - 1]
  }

  /** The edges leaving nodes of `nodes`. */
  function EdgesFrom(g: Edges, nodes: set<ActorId>): set<(ActorId, ActorId)> {
    set n, c | n in nodes && n in g && c in g[n] :: (n, c)
  }

  /** An order in which every node comes after all its children. */
  predicate ChildrenFirst(g: Edges, order: seq<ActorId>) {
    forall i :: 0 <= i < |order| ==> order[i] in g && forall c :: c in g[order[i]] ==> c in order[..i]
  }

  lemma TailOfWalk(g: Edges, p: seq<ActorId>)
    requires Walk(g, p) && p != []
    ensures Walk(g, p[1..])
  {
    forall i | 0 <= i < |p| - 2
      ensures p[1..][i] in g && p[1..][i + 1] in g[p[1..][i]]
    {
      assert p[i + 1] in g && p[i + 2] in g[p[i + 1]];
    }
  }

  lemma {:induction false} WalkDescends(g: Edges, order: seq<ActorId>, p: seq<ActorId>, i: nat) returns (j: nat)
    requires ChildrenFirst(g, order) && Walk(g, p) && |p| > 1
    requires i < |order| && order[i] == p[0]
    ensures j < i && order[j] == p[|p| - 1]
    decreases |p|
  {
    assert p[1] in order[..i];
    j :| 0 <= j < i && order[j] == p[1];
    if |p| > 2 {
      var rest := p[1..];
      TailOfWalk(g, p);
      j := WalkDescends(g, order, rest, j);
    }
  }

  /** A walk never returns to a node of such an order. */
  lemma {:induction false} NoReturn(g: Edges, order: seq<ActorId>, p: seq<ActorId>, i: nat)
    requires ChildrenFirst(g, order) && Walk(g, p) && |p| > 1
    requires i < |order| && order[i] == p[0]
    ensures p[0] != p[|p| - 1]
    decreases i
  {
    var j := WalkDescends(g, order, p, i);
    if p[0] == p[|p| - 1] {
      NoReturn(g, order, p, j);
    }
  }

  lemma EdgesFromDisjoint(g: Edges, a: set<ActorId>, b: set<ActorId>)
    requires a !! b
    ensures |EdgesFrom(g, a + b)| == |EdgesFrom(g, a)| + |EdgesFrom(g, b)|
  {
    assert EdgesFrom(g, a + b) == EdgesFrom(g, a) + EdgesFrom(g, b);
    assert EdgesFrom(g, a) !! EdgesFrom(g, b);
  }

  function EdgesTo(n: ActorId, cs: set<ActorId>): set<(ActorId, ActorId)> {
    set c | c in cs :: (n, c)
  }

  lemma {:induction false} EdgesToCount(n: ActorId, cs: set<ActorId>)
    ensures |EdgesTo(n, cs)| == |cs|
    decreases cs
  {
    if cs != {} {
      var c0 :| c0 in cs;
      EdgesToCount(n, cs - {c0});
      assert EdgesTo(n, cs) == EdgesTo(n, cs - {c0}) + {(n, c0)};
    }
  }

  lemma EdgesFromOne(g: Edges, n: ActorId)
    requires n in g
    ensures |EdgesFrom(g, {n})| == |g[n]|
  {
    EdgesToCount(n, g[n]);
    assert EdgesFrom(g, {n}) == EdgesTo(n, g[n]);
  }

  lemma SubsetSize<T>(a: set<T>, b: set<T>)
    requires a <= b
    ensures |a| <= |b|
  {
    assert b == a + (b - a);
  }

  type Marks = map<ActorId, Mark>

  function UnvisitedIn(marks: Marks): set<ActorId> {
    set n | n in marks && marks[n] == Unvisited
  }

  /** The nodes that have left `Unvisited` on the way from `a` to `b`. */
  function Opened(a: Marks, b: Marks): set<ActorId> {
    UnvisitedIn(a) - UnvisitedIn(b)
  }

  function VisitedIn(marks: Marks): set<ActorId> {
    set n | n in marks && marks[n] == Visited
  }

  /** No node ever goes back to `Unvisited`, and a visited one stays so. */
  predicate Onward(a: Marks, b: Marks) {
    a.Keys == b.Keys && UnvisitedIn(b) <= UnvisitedIn(a) && VisitedIn(a) <= VisitedIn(b)
  }

  /** Visited nodes come after their children; `order` lists them. */
  ghost predicate Consistent(g: Edges, marks: Marks, order: seq<ActorId>) {
    && g.Keys == marks.Keys
    && (forall n :: n in g ==> g[n] <= g.Keys)
    && ChildrenFirst(g, order)
    && (forall n :: n in order <==> n in marks && marks[n] == Visited)
  }

  /** The nodes being visited are those of the walk that leads to `node`. */
  ghost predicate LeadsTo(g: Edges, marks: Marks, path: seq<ActorId>, node: ActorId) {
    && Walk(g, path + [node])
    && forall n :: n in path <==> n in marks && marks[n] == Visiting
  }

  ghost predicate SameVisiting(a: Marks, b: Marks) {
    forall n :: n in a && a[n] == Visiting <==> n in b && b[n] == Visiting
  }

  lemma CycleClosed(g: Edges, marks: Marks, path: seq<ActorId>, node: ActorId)
    requires LeadsTo(g, marks, path, node) && node in marks && marks[node] == Visiting
    ensures HasCycle(g)
  {
    var k :| 0 <= k < |path| && path[k] == node;
    var p := path[k..] + [node];
    forall i | 0 <= i < |p| - 1
      ensures p[i] in g && p[i + 1] in g[p[i]]
    {
      assert (path + [node])[k + i] == p[i] && (path + [node])[k + i + 1] == p[i + 1];
    }
    assert |p| > 1 && Walk(g, p) && p[0] == p[|p| - 1];
  }

  lemma ExtendPath(g: Edges, before: Marks, marks: Marks, path: seq<ActorId>, node: ActorId, child: ActorId)
    requires LeadsTo(g, before, path, node) && node in before && node in g && child in g[node]
    requires SameVisiting(before[node := Visiting], marks)
    ensures LeadsTo(g, marks, path + [node], child)
  {
    var p, q := path + [node], path + [node] + [child];
    forall i | 0 <= i < |q| - 1
      ensures q[i] in g && q[i + 1] in g[q[i]]
    {
      if i < |p| - 1 {
        assert q[i] == p[i] && q[i + 1] == p[i + 1];
      }
    }
    forall n
      ensures n in p <==> n in marks && marks[n] == Visiting
    {
      var expanding := before[node := Visiting];
      assert n in expanding && expanding[n] == Visiting <==> n in marks && marks[n] == Visiting;
      assert n in p <==> n in path || n == node;
    }
  }

  lemma OpenedTwice(g: Edges, a: Marks, b: Marks, c: Marks)
    requires Onward(a, b) && Onward(b, c)
    ensures |EdgesFrom(g, Opened(a, c))| == |EdgesFrom(g, Opened(a, b))| + |EdgesFrom(g, Opened(b, c))|
  {
    assert Opened(a, c) == Opened(a, b) + Opened(b, c);
    EdgesFromDisjoint(g, Opened(a, b), Opened(b, c));
  }

  /** Expanding `node` pays for one call a child and for whatever those calls expand. */
  lemma ExpansionCost(g: Edges, node: ActorId, before: Marks, now: Marks, taken: set<ActorId>)
    requires node in g && node in before && before[node] == Unvisited && taken <= g[node]
    requires Onward(before[node := Visiting], now)
    ensures |taken| + |EdgesFrom(g, Opened(before[node := Visiting], now))| <= |EdgesFrom(g, Opened(before, now))|
    ensures Onward(before, now)
  {
    var expanding := before[node := Visiting];
    assert UnvisitedIn(expanding) == UnvisitedIn(before) - {node};
    assert Opened(before, expanding) == {node};
    OpenedTwice(g, before, expanding, now);
    EdgesFromOne(g, node);
    SubsetSize(taken, g[node]);
  }

  lemma OpeningShrinks(before: Marks, node: ActorId, now: Marks)
    requires node in before && before[node] == Unvisited && Onward(before[node := Visiting], now)
    ensures |UnvisitedIn(now)| < |UnvisitedIn(before)|
    ensures Onward(before, now)
  {
    assert UnvisitedIn(before[node := Visiting]) == UnvisitedIn(before) - {node};
    SubsetSize(UnvisitedIn(now), UnvisitedIn(before) - {node});
  }

  /** While the children of `node` are gone through, those in `done` have been visited. */
  ghost predicate Exploring(g: Edges, before: Marks, node: ActorId, marks: Marks, done: set<ActorId>) {
    && node in g && node in before && before[node] == Unvisited && done <= g[node]
    && Onward(before[node := Visiting], marks)
    && SameVisiting(before[node := Visiting], marks)
    && forall c :: c in done ==> c in marks && marks[c] == Visited
  }

  /** One call a child gone through, and what those calls have expanded. */
  ghost function Cost(g: Edges, before: Marks, node: ActorId, marks: Marks, done: set<ActorId>): nat {
    |done| + |EdgesFrom(g, Opened(before[node := Visiting], marks))|
  }

  lemma BeforeChild(g: Edges, before: Marks, node: ActorId, marks: Marks, done: set<ActorId>,
                    path: seq<ActorId>, child: ActorId)
    requires Exploring(g, before, node, marks, done) && LeadsTo(g, before, path, node) && child in g[node]
    ensures LeadsTo(g, marks, path + [node], child)
    ensures |UnvisitedIn(marks)| <= |UnvisitedIn(before[node := Visiting])|
  {
    ExtendPath(g, before, marks, path, node, child);
    SubsetSize(UnvisitedIn(marks), UnvisitedIn(before[node := Visiting]));
  }

  /** However far the children of `node` have been gone through, what that cost is paid for. */
  lemma ExploringCost(g: Edges, before: Marks, node: ActorId, marks: Marks, done: set<ActorId>)
    requires node in g && node in before && before[node] == Unvisited && done <= g[node]
    requires Onward(before[node := Visiting], marks)
    ensures Cost(g, before, node, marks, done) <= |EdgesFrom(g, Opened(before, marks))|
    ensures Onward(before, marks)
  {
    ExpansionCost(g, node, before, marks, done);
  }

  lemma AfterChild(g: Edges, before: Marks, node: ActorId, marks: Marks, done: set<ActorId>,
                   child: ActorId, marks': Marks, found: bool)
    requires Exploring(g, before, node, marks, done) && g.Keys == marks.Keys
    requires child in g[node] && child !in done && child in g && Onward(marks, marks')
    requires !found ==> marks'[child] == Visited && SameVisiting(marks, marks')
    ensures !found ==> Exploring(g, before, node, marks', done + {child})
    ensures Cost(g, before, node, marks', done + {child})
         == Cost(g, before, node, marks, done) + 1 + |EdgesFrom(g, Opened(marks, marks'))|
    ensures Onward(before[node := Visiting], marks')
  {
    OpenedTwice(g, before[node := Visiting], marks, marks');
    assert forall c :: c in done ==> c in VisitedIn(marks);
  }

  /** A round of the loop over the children: `todo` is left, and `calls` have been made since `calls0`. */
  ghost predicate Round(g: Edges, before: Marks, node: ActorId, marks: Marks, done: set<ActorId>,
                        todo: set<ActorId>, calls0: nat, calls: nat)
  {
    && Exploring(g, before, node, marks, done)
    && todo + done == g[node] && todo !! done
    && calls <= calls0 + Cost(g, before, node, marks, done)
  }

  lemma FirstRound(g: Edges, before: Marks, node: ActorId, calls: nat)
    requires node in g && node in before && before[node] == Unvisited
    ensures Round(g, before, node, before[node := Visiting], {}, g[node], calls, calls)
  {
  }

  lemma NextRound(g: Edges, before: Marks, node: ActorId, marks: Marks, done: set<ActorId>, todo: set<ActorId>,
                  calls0: nat, calls: nat, child: ActorId, marks': Marks, calls': nat, found: bool)
    requires Round(g, before, node, marks, done, todo, calls0, calls) && g.Keys == marks.Keys
    requires child in todo && child in g && Onward(marks, marks')
    requires !found ==> marks'[child] == Visited && SameVisiting(marks, marks')
    requires calls' <= calls + 1 + |EdgesFrom(g, Opened(marks, marks'))|
    ensures !found ==> Round(g, before, node, marks', done + {child}, todo - {child}, calls0, calls')
    ensures calls' <= calls0 + |EdgesFrom(g, Opened(before, marks'))|
    ensures Onward(before, marks')
  {
    AfterChild(g, before, node, marks, done, child, marks', found);
    ExploringCost(g, before, node, marks', done + {child});
  }

  lemma LastRound(g: Edges, before: Marks, node: ActorId, marks: Marks, done: set<ActorId>, calls0: nat, calls: nat)
    requires Round(g, before, node, marks, done, {}, calls0, calls)
    ensures Exploring(g, before, node, marks, g[node])
    ensures calls <= calls0 + |EdgesFrom(g, Opened(before, marks))|
    ensures Onward(before, marks)
  {
    assert done == g[node];
    ExploringCost(g, before, node, marks, done);
  }

  /** All children visited: closing `node` keeps the order and puts the visiting nodes back. */
  lemma CloseNode(g: Edges, before: Marks, marks: Marks, order: seq<ActorId>, node: ActorId)
    requires Consistent(g, marks, order) && node in before && before[node] == Unvisited
    requires SameVisiting(before[node := Visiting], marks) && Onward(before[node := Visiting], marks)
    requires forall c :: c in g[node] ==> marks[c] == Visited
    ensures Consistent(g, marks[node := Visited], order + [node])
    ensures SameVisiting(before, marks[node := Visited])
    ensures UnvisitedIn(marks[node := Visited]) == UnvisitedIn(marks)
    ensures Onward(before, marks[node := Visited])
  {
    var expanding := before[node := Visiting];
    assert node in expanding && expanding[node] == Visiting;
    assert marks[node] == Visiting;
    assert VisitedIn(before) <= VisitedIn(expanding);
    assert VisitedIn(marks) <= VisitedIn(marks[node := Visited]);
    var order' := order + [node];
    forall i | 0 <= i < |order'|
      ensures forall c :: c in g[order'[i]] ==> c in order'[..i]
    {
      assert order'[..i] == order[..i];
    }
    forall n
      ensures n in before && before[n] == Visiting <==> n in marks && marks[node := Visited][n] == Visiting
    {
      assert n in expanding && expanding[n] == Visiting <==> n in marks && marks[n] == Visiting;
    }
  }

  function Nodes(relations: seq<Relation>): set<ActorId> {
    (set r | r in relations :: r.from) + (set r | r in relations :: r.to)
  }

  /** The graph that the relations describe. */
  ghost predicate Describes(g: Edges, relations: seq<Relation>) {
    && g.Keys == Nodes(relations)
    && forall n, c :: n in g && c in g[n] <==> Relation(n, c) in relations
  }

  /** `g'` is `g` with the edge of one more relation, and its nodes if they are new. */
  predicate Extends(g: Edges, r: Relation, g': Edges) {
    && g'.Keys == g.Keys + {r.from, r.to}
    && forall n :: n in g' ==> g'[n] == (if n in g then g[n] else {}) + (if n == r.from then {r.to} else {})
  }

  lemma NodesOfMore(relations: seq<Relation>, r: Relation)
    ensures Nodes(relations + [r]) == Nodes(relations) + {r.from, r.to}
    ensures forall x :: x in relations + [r] <==> x in relations || x == r
  {
  }

  lemma DescribesMore(g: Edges, relations: seq<Relation>, r: Relation, g': Edges)
    requires Describes(g, relations) && Extends(g, r, g')
    ensures Describes(g', relations + [r])
  {
    NodesOfMore(relations, r);
    forall n, c
      ensures n in g' && c in g'[n] <==> Relation(n, c) in relations || Relation(n, c) == r
    {
      assert n in g && c in g[n] <==> Relation(n, c) in relations;
    }
  }

  function WithNode(g: Edges, n: ActorId): Edges {
    if n in g then g else g[n := {}]
  }

  lemma EdgeExtends(g: Edges, r: Relation, g': Edges)
    requires g' == WithNode(WithNode(g, r.from), r.to)
    ensures r.from in g' && Extends(g, r, g'[r.from := g'[r.from] + {r.to}])
  {
  }

  /** Between the calls from the top: nothing is being visited, and all roots but `todo` have been. */
  ghost predicate Swept(g: Edges, start: Marks, marks: Marks, todo: set<ActorId>) {
    && todo <= g.Keys
    && Onward(start, marks)
    && (forall n :: n in marks ==> marks[n] != Visiting)
    && g.Keys - todo <= VisitedIn(marks)
  }

  ghost function RootCost(g: Edges, start: Marks, marks: Marks, todo: set<ActorId>): nat {
    |g.Keys - todo| + |EdgesFrom(g, Opened(start, marks))|
  }

  lemma NoPathYet(g: Edges, marks: Marks, root: ActorId)
    requires forall n :: n in marks ==> marks[n] != Visiting
    ensures LeadsTo(g, marks, [], root)
  {
  }

  lemma SweepBegins(g: Edges, start: Marks)
    requires g.Keys == start.Keys && forall n :: n in start ==> start[n] == Unvisited
    ensures Swept(g, start, start, g.Keys)
    ensures RootCost(g, start, start, g.Keys) == 0
  {
    assert Opened(start, start) == {};
    assert g.Keys - g.Keys == {};
  }

  lemma NoCycleWhenAllOrdered(g: Edges, order: seq<ActorId>)
    requires ChildrenFirst(g, order) && forall n :: n in g ==> n in order
    ensures !HasCycle(g)
  {
    forall p | |p| > 1 && Walk(g, p)
      ensures p[0] != p[|p| - 1]
    {
      assert p[0] in order;
      var i :| 0 <= i < |order| && order[i] == p[0];
      NoReturn(g, order, p, i);
    }
  }

  lemma SweepEnds(g: Edges, start: Marks, marks: Marks, order: seq<ActorId>)
    requires Consistent(g, marks, order) && Swept(g, start, marks, {})
    ensures !HasCycle(g)
  {
    forall n | n in g
      ensures n in order
    {
      assert n in VisitedIn(marks);
    }
    NoCycleWhenAllOrdered(g, order);
  }

  lemma AfterRoot(g: Edges, start: Marks, marks: Marks, todo: set<ActorId>, root: ActorId, marks': Marks, found: bool)
    requires Swept(g, start, marks, todo) && root in todo && g.Keys == marks.Keys
    requires Onward(marks, marks')
    requires !found ==> marks'[root] == Visited && SameVisiting(marks, marks')
    ensures !found ==> Swept(g, start, marks', todo - {root})
    ensures RootCost(g, start, marks', todo - {root})
         == RootCost(g, start, marks, todo) + 1 + |EdgesFrom(g, Opened(marks, marks'))|
  {
    OpenedTwice(g, start, marks, marks');
    assert g.Keys - (todo - {root}) == (g.Keys - todo) + {root};
  }

  lemma TotalCost(g: Edges, start: Marks, marks: Marks, todo: set<ActorId>)
    requires start.Keys == g.Keys
    ensures RootCost(g, start, marks, todo) <= |g.Keys| + |EdgesFrom(g, g.Keys)|
  {
    SubsetSize(g.Keys - todo, g.Keys);
    SubsetSize(EdgesFrom(g, Opened(start, marks)), EdgesFrom(g, g.Keys));
  }

  lemma WalkIsChain(g: Edges, relations: seq<Relation>, p: seq<ActorId>)
    requires Describes(g, relations)
    ensures Walk(g, p) <==> Chain(relations, p)
  {
    if Walk(g, p) {
      forall i | 0 <= i < |p| - 1
        ensures Relation(p[i], p[i + 1]) in relations
      {
        assert p[i] in g && p[i + 1] in g[p[i]];
      }
    }
    if Chain(relations, p) {
      forall i | 0 <= i < |p| - 1
        ensures p[i] in g && p[i + 1] in g[p[i]]
      {
        assert Relation(p[i], p[i + 1]) in relations;
        assert p[i] in Nodes(relations);
      }
    }
  }

  lemma CycleIsChain(g: Edges, relations: seq<Relation>)
    requires Describes(g, relations)
    ensures HasCycle(g) <==> Cyclic(relations)
  {
    if HasCycle(g) {
      var p :| |p| > 1 && Walk(g, p) && p[0] == p[|p| - 1];
      WalkIsChain(g, relations, p);
    }
    if Cyclic(relations) {
      var p :| |p| > 1 && Chain(relations, p) && p[0] == p[|p| - 1];
      WalkIsChain(g, relations, p);
    }
  }

  lemma EdgesAreRelations(g: Edges, relations: seq<Relation>)
    requires Describes(g, relations)
    ensures |EdgesFrom(g, g.Keys)| == |set r | r in relations|
  {
    var edges := EdgesFrom(g, g.Keys);
    var rs := set r | r in relations;
    assert rs == set e | e in edges :: Relation(e.0, e.1) by {
      forall r | r in rs
        ensures r in set e | e in edges :: Relation(e.0, e.1)
      {
        assert (r.from, r.to) in edges;
      }
    }
    MapSize(edges);
  }

  lemma {:induction false} MapSize(edges: set<(ActorId, ActorId)>)
    ensures |set e | e in edges :: Relation(e.0, e.1)| == |edges|
    decreases edges
  {
    if edges != {} {
      var e0 :| e0 in edges;
      MapSize(edges - {e0});
      assert (set e | e in edges :: Relation(e.0, e.1))
          == (set e | e in edges - {e0} :: Relation(e.0, e.1)) + {Relation(e0.0, e0.1)};
    }
  }

  lemma EdgeKeepsConsistent(g: Edges, marks: Marks, r: Relation)
    requires Consistent(g, marks, []) && r.from in g && r.to in g
    ensures Consistent(g[r.from := g[r.from] + {r.to}], marks, [])
  {
  }

  class Search {
    var children: Edges
    var state: Marks
    ghost var order: seq<ActorId>
    ghost var calls: nat

    ghost predicate Valid()
      reads this
    {
      Consistent(children, state, order)
    }

    ghost predicate Untouched()
      reads this
    {
      Valid() && order == [] && calls == 0 && forall n :: n in state ==> state[n] == Unvisited
    }

    /** The graph of the relations, inserted one by one. */
    constructor (relations: seq<Relation>)
      ensures Untouched() && Describes(children, relations)
    {
      children, state := map[], map[];
      order, calls := [], 0;
      new;
      for i := 0 to |relations|
        invariant Untouched() && Describes(children, relations[..i])
      {
        ghost var g := children;
        AddRelation(relations[i]);
        DescribesMore(g, relations[..i], relations[i], children);
        assert relations[..i + 1] == relations[..i] + [relations[i]];
      }
      assert relations[..|relations|] == relations;
    }

    method AddNode(n: ActorId)
      requires Untouched()
      modifies this
      ensures Untouched()
      ensures children == WithNode(old(children), n)
    {
      if n !in children {
        children := children[n := {}];
        state := state[n := Unvisited];
      }
    }

    method AddRelation(r: Relation)
      requires Untouched()
      modifies this
      ensures Untouched()
      ensures Extends(old(children), r, children)
    {
      AddNode(r.from);
      AddNode(r.to);
      EdgeExtends(old(children), r, children);
      EdgeKeepsConsistent(children, state, r);
      children := children[r.from := children[r.from] + {r.to}];
    }

    /** Whether the search finds a node that is still being visited. */
    method Dfs(node: ActorId, ghost path: seq<ActorId>) returns (found: bool)
      requires Valid() && node in children && LeadsTo(children, state, path, node)
      modifies this`state, this`order, this`calls
      ensures Valid() && Onward(old(state), state)
      ensures found ==> HasCycle(children)
      ensures !found ==> state[node] == Visited && SameVisiting(old(state), state)
      ensures calls <= old(calls) + 1 + |EdgesFrom(children, Opened(old(state), state))|
      decreases |UnvisitedIn(state)|, 0
    {
      calls := calls + 1;
      match state[node]
      case Visiting =>
        CycleClosed(children, state, path, node);
        return true;
      case Visited =>
        return false;
      case Unvisited =>
        ghost var before := state;
        state := state[node := Visiting];
        OpeningShrinks(before, node, state);
        found := DfsChildren(node, path, before);
        if !found {
          CloseNode(children, before, state, order, node);
          state := state[node := Visited];
          order := order + [node];
        }
    }

    /** The loop over the children of `node`, which has just been marked as being visited. */
    method DfsChildren(node: ActorId, ghost path: seq<ActorId>, ghost before: Marks) returns (found: bool)
      requires Valid() && node in before && before[node] == Unvisited && state == before[node := Visiting]
      requires node in children && LeadsTo(children, before, path, node)
      modifies this`state, this`order, this`calls
      ensures Valid() && Onward(before, state)
      ensures found ==> HasCycle(children)
      ensures !found ==> Exploring(children, before, node, state, children[node])
      ensures calls <= old(calls) + |EdgesFrom(children, Opened(before, state))|
      decreases |UnvisitedIn(state)|, 1
    {
      ghost var done := {};
      var todo := children[node];
      FirstRound(children, before, node, calls);
      while todo != {}
        invariant Valid() && Round(children, before, node, state, done, todo, old(calls), calls)
        decreases todo
      {
        var child :| child in todo;
        ghost var marks, made := state, calls;
        BeforeChild(children, before, node, marks, done, path, child);
        found := Dfs(child, path + [node]);
        NextRound(children, before, node, marks, done, todo, old(calls), made, child, state, calls, found);
        done, todo := done + {child}, todo - {child};
        if found {
          return true;
        }
      }
      LastRound(children, before, node, state, done, old(calls), calls);
      return false;
    }

    /** The search from every node that is left, in any order, until it finds a cycle. */
    method FromEveryNode() returns (found: bool)
      requires Untouched()
      modifies this`state, this`order, this`calls
      ensures found <==> HasCycle(children)
      ensures calls <= |children.Keys| + |EdgesFrom(children, children.Keys)|
    {
      ghost var start := state;
      SweepBegins(children, start);
      found := false;
      var todo := children.Keys;
      while todo != {} && !found
        invariant Valid()
        invariant found ==> HasCycle(children)
        invariant !found ==> Swept(children, start, state, todo)
        invariant calls <= RootCost(children, start, state, todo)
        decreases todo
      {
        var root :| root in todo;
        ghost var marks := state;
        NoPathYet(children, marks, root);
        found := Dfs(root, []);
        AfterRoot(children, start, marks, todo, root, state, found);
        todo := todo - {root};
      }
      TotalCost(children, start, state, todo);
      if !found {
        SweepEnds(children, start, state, order);
      }
    }
  }

  /**
   * True exactly when some actor reaches itself by a non-empty chain of relations, in whatever order
   * nodes and children are taken; and the search makes at most one call a node and one a distinct edge.
   */
  method HasCycles(relations: seq<Relation>) returns (cyclic: bool, ghost calls: nat)
    ensures cyclic <==> Cyclic(relations)
    ensures calls <= |Nodes(relations)| + |set r | r in relations|
  {
    var s := new Search(relations);
    EdgesAreRelations(s.children, relations);
    CycleIsChain(s.children, relations);
    cyclic := s.FromEveryNode();
    calls := s.calls;
  }
}
