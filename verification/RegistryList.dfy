/**
 * The lock-free list of registration nodes: concurrent pushes by compare-and-swap, which may also fail
 * for no reason, and a walk from the head that may run while nodes are still being pushed.
 */
module RegistryList {

  datatype Pointer = Null | Node(id: nat)

  /** Where a push of a node stands: about to load the head, to store its link, to swap; or done. */
  datatype Pc = Loading | Storing(prev: Pointer) | Swapping(prev: Pointer) | Pushed

  /** The walk: not begun, or at a pointer with the nodes it has run so far. */
  datatype Walk = NotBegun | At(ptr: Pointer, ran: seq<nat>)

  /** `list` and `seen` are history: the pushed nodes newest first, and those when the walk began. */
  datatype State = State(
    head: Pointer,
    next: seq<Pointer>,
    pcs: seq<Pc>,
    walk: Walk,
    list: seq<nat>,
    seen: seq<nat>)

  datatype Action = Push(i: nat, spurious: bool) | Step

  function Initial(n: nat): State {
    State(Null, seq(n, _ => Null), seq(n, _ => Loading), NotBegun, [], [])
  }

  predicate Enabled(s: State, a: Action) {
    match a
    case Push(i, _) => i < |s.pcs| && i < |s.next| && !s.pcs[i].Pushed?
    case Step =>
      match s.walk
      case NotBegun => true
      case At(Null, _) => false
      case At(Node(id), _) => id < |s.next|
  }

  function Apply(s: State, a: Action): State
    requires Enabled(s, a)
  {
    match a
    case Push(i, spurious) =>
      (match s.pcs[i]
       case Loading => s.(pcs := s.pcs[i := Storing(s.head)])
       case Storing(prev) => s.(next := s.next[i := prev], pcs := s.pcs[i := Swapping(prev)])
       case Swapping(prev) =>
         if s.head == prev && !spurious
         then s.(head := Node(i), pcs := s.pcs[i := Pushed], list := [i] + s.list)
         else s.(pcs := s.pcs[i := Storing(s.head)]))
    case Step =>
      match s.walk
      case NotBegun => s.(walk := At(s.head, []), seen := s.list)
      case At(Node(id), ran) => s.(walk := At(s.next[id], ran + [id]))
  }

  predicate Reaches(s: State, run: seq<Action>, s': State)
    decreases run
  {
    if run == [] then s' == s
    else Enabled(s, run[0]) && Reaches(Apply(s, run[0]), run[1..], s')
  }

  function First(list: seq<nat>): Pointer {
    if list == [] then Null else Node(list[0])
  }

  /** Following `next` from the first node runs through `list` and ends. */
  predicate Linked(next: seq<Pointer>, list: seq<nat>) {
    forall k :: 0 <= k < |list| ==> list[k] < |next| && next[list[k]] == First(list[k + 1..])
  }

  predicate Distinct(list: seq<nat>) {
    forall a, b :: 0 <= a < b < |list| ==> list[a] != list[b]
  }

  ghost predicate Inv(s: State) {
    && |s.next| == |s.pcs|
    && s.head == First(s.list)
    && Linked(s.next, s.list)
    && Distinct(s.list)
    && (forall i: nat :: i in s.list <==> i < |s.pcs| && s.pcs[i].Pushed?)
    && (forall i :: 0 <= i < |s.pcs| && s.pcs[i].Swapping? ==> s.next[i] == s.pcs[i].prev)
    && (s.walk.At? ==> Walked(s))
  }

  /** What the walk has run and what lies before it make up the list it began with, unmoved by pushes. */
  ghost predicate Walked(s: State)
    requires s.walk.At?
  {
    && (exists newer :: s.list == newer + s.seen)
    && |s.walk.ran| <= |s.seen| && s.walk.ran == s.seen[..|s.walk.ran|]
    && s.walk.ptr == First(s.seen[|s.walk.ran|..])
  }

  lemma WalkedDespiteSwap(s: State, s': State, i: nat)
    requires s.walk.At? && Walked(s)
    requires s'.walk == s.walk && s'.seen == s.seen && s'.list == [i] + s.list
    ensures Walked(s')
  {
    var newer :| s.list == newer + s.seen;
    assert s'.list == ([i] + newer) + s.seen;
  }

  lemma PushedAfterSwap(s: State, i: nat)
    requires Inv(s) && i < |s.pcs| && !s.pcs[i].Pushed?
    ensures i !in s.list
    ensures forall x: nat :: x in [i] + s.list <==> x < |s.pcs| && s.pcs[i := Pushed][x].Pushed?
  {
    assert i !in s.list;
  }

  lemma SwapKeepsInv(s: State, i: nat)
    requires Inv(s) && i < |s.pcs| && s.pcs[i].Swapping? && s.head == s.pcs[i].prev
    ensures Inv(Apply(s, Push(i, false)))
  {
    var s' := Apply(s, Push(i, false));
    PushedAfterSwap(s, i);
    if s.walk.At? {
      WalkedDespiteSwap(s, s', i);
    }
    assert s'.head == First(s'.list);
  }

  lemma PushKeepsInv(s: State, i: nat, spurious: bool)
    requires Inv(s) && Enabled(s, Push(i, spurious))
    ensures Inv(Apply(s, Push(i, spurious)))
  {
    match s.pcs[i]
    case Loading =>
    case Storing(prev) =>
    case Swapping(prev) =>
      if s.head == prev && !spurious {
        SwapKeepsInv(s, i);
      }
  }

  /** One move of the walk along a list whose tail it began with. */
  lemma WalkOn(next: seq<Pointer>, list: seq<nat>, newer: seq<nat>, seen: seq<nat>, done: nat)
    requires Linked(next, list) && list == newer + seen && done < |seen|
    ensures seen[done] < |next|
    ensures First(seen[done..]) == Node(seen[done])
    ensures next[seen[done]] == First(seen[done + 1..])
  {
    var k := |newer| + done;
    assert list[k] == seen[done];
    assert list[k + 1..] == seen[done + 1..];
  }

  lemma StepKeepsInv(s: State)
    requires Inv(s) && Enabled(s, Step)
    ensures Inv(Apply(s, Step))
  {
    match s.walk
    case NotBegun =>
      assert s.list == [] + s.list;
    case At(Node(id), ran) =>
      var newer :| s.list == newer + s.seen;
      if |ran| < |s.seen| {
        WalkOn(s.next, s.list, newer, s.seen, |ran|);
        assert s.seen[..|ran| + 1] == s.seen[..|ran|] + [id];
      }
  }

  lemma {:induction false} RunKeepsInv(s: State, run: seq<Action>, s': State)
    requires Inv(s) && Reaches(s, run, s')
    ensures Inv(s')
    decreases run
  {
    if run != [] {
      match run[0] {
        case Push(i, spurious) => PushKeepsInv(s, i, spurious);
        case Step => StepKeepsInv(s);
      }
      RunKeepsInv(Apply(s, run[0]), run[1..], s');
    }
  }

  /**
   * In every interleaving, with any spurious failures, the list from the head is finite and holds
   * exactly the nodes whose swap succeeded, once each.
   */
  lemma ListHoldsExactlyThePushed(n: nat, run: seq<Action>, s: State)
    requires Reaches(Initial(n), run, s)
    ensures s.head == First(s.list) && Linked(s.next, s.list) && Distinct(s.list)
    ensures forall i: nat :: i in s.list <==> i < |s.pcs| && s.pcs[i].Pushed?
  {
    RunKeepsInv(Initial(n), run, s);
  }

  /** Newest first: a step that pushes puts its node in front and moves no other. */
  lemma ListGrowsAtTheFront(s: State, a: Action)
    requires Inv(s) && Enabled(s, a)
    ensures Apply(s, a).list == s.list || (a.Push? && Apply(s, a).list == [a.i] + s.list)
    ensures Apply(s, a).list != s.list <==> a.Push? && Apply(s, a).pcs[a.i].Pushed?
  {
  }

  /**
   * A walk that has come to the end has run each node that was pushed when it began, exactly once and
   * newest first, even if others were pushed meanwhile.
   */
  lemma WalkRunsEachOnce(n: nat, run: seq<Action>, s: State)
    requires Reaches(Initial(n), run, s) && s.walk.At?
    ensures s.walk.ran <= s.seen && Distinct(s.seen)
    ensures s.walk.ptr == Null <==> s.walk.ran == s.seen
  {
    RunKeepsInv(Initial(n), run, s);
    var newer :| s.list == newer + s.seen;
    SuffixDistinct(newer, s.seen);
  }

  lemma {:induction false} RunKeepsNodes(s: State, run: seq<Action>, s': State)
    requires Reaches(s, run, s')
    ensures |s'.pcs| == |s.pcs|
    decreases run
  {
    if run != [] {
      RunKeepsNodes(Apply(s, run[0]), run[1..], s');
    }
  }

  /** Nothing that happens after the walk began changes what it has set out to run. */
  lemma {:induction false} SeenIsKept(s: State, run: seq<Action>, s': State)
    requires Reaches(s, run, s') && s.walk.At?
    ensures s'.walk.At? && s'.seen == s.seen
    decreases run
  {
    if run != [] {
      SeenIsKept(Apply(s, run[0]), run[1..], s');
    }
  }

  /** How a walk goes: `mid` is the state in which it begins, and in `s` it has come to its end. */
  ghost predicate WalksFrom(n: nat, before: seq<Action>, mid: State, after: seq<Action>, s: State) {
    && Reaches(Initial(n), before, mid) && mid.walk.NotBegun?
    && Reaches(Apply(mid, Step), after, s) && s.walk.At? && s.walk.ptr == Null
  }

  /** It has run the nodes whose push was done when it began, and no others, newest first and once each. */
  lemma WalkRunsThePushed(n: nat, before: seq<Action>, mid: State, after: seq<Action>, s: State)
    requires WalksFrom(n, before, mid, after, s)
    ensures s.walk.ran == mid.list && Distinct(s.walk.ran)
    ensures forall i: nat :: i in s.walk.ran <==> i < n && i < |mid.pcs| && mid.pcs[i].Pushed?
  {
    RunKeepsInv(Initial(n), before, mid);
    RunKeepsNodes(Initial(n), before, mid);
    StepKeepsInv(mid);
    RunKeepsInv(Apply(mid, Step), after, s);
    SeenIsKept(Apply(mid, Step), after, s);
    FinishedWalk(s);
  }

  lemma FinishedWalk(s: State)
    requires s.walk.At? && s.walk.ptr == Null && Walked(s)
    ensures s.walk.ran == s.seen
  {
    assert First(s.seen[|s.walk.ran|..]) == Null;
    assert s.seen[..|s.seen|] == s.seen;
  }

  // ---------- no push is held up, and a walk can always go on ----------

  lemma ReachesOne(s: State, a: Action)
    requires Enabled(s, a)
    ensures Reaches(s, [a], Apply(s, a))
  {
    assert [a][1..] == [];
    assert Reaches(Apply(s, a), [], Apply(s, a));
  }

  lemma ReachesThen(s: State, a: Action, run: seq<Action>, s': State)
    requires Enabled(s, a) && Reaches(Apply(s, a), run, s')
    ensures Reaches(s, [a] + run, s')
  {
    assert ([a] + run)[1..] == run;
  }

  /** A push that nobody disturbs is done after at most four more steps: its swap finds the head it loaded. */
  lemma {:induction false} UndisturbedPush(s: State, i: nat) returns (run: seq<Action>, s': State)
    requires |s.next| == |s.pcs| && i < |s.pcs| && !s.pcs[i].Pushed?
    ensures Reaches(s, run, s') && |run| == Behind(s, i) <= 4 && forall a :: a in run ==> a == Push(i, false)
    ensures |s'.pcs| == |s.pcs| && s'.pcs[i].Pushed? && s'.list == [i] + s.list && s'.head == Node(i)
    decreases Behind(s, i)
  {
    var a := Push(i, false);
    var mid := Apply(s, a);
    if mid.pcs[i].Pushed? {
      run, s' := [a], mid;
      ReachesOne(s, a);
    } else {
      var more;
      more, s' := UndisturbedPush(mid, i);
      run := [a] + more;
      ReachesThen(s, a, more, s');
    }
  }

  function Behind(s: State, i: nat): nat
    requires i < |s.pcs|
  {
    match s.pcs[i]
    case Loading => 3
    case Storing(prev) => if s.head == prev then 2 else 4
    case Swapping(prev) => if s.head == prev then 1 else 3
    case Pushed => 0
  }

  /** A walk that goes on by itself comes to its end. */
  lemma {:induction false} WalkEnds(s: State) returns (run: seq<Action>, s': State)
    requires Inv(s) && s.walk.At?
    ensures Reaches(s, run, s') && s'.walk.At? && s'.walk.ptr == Null
    decreases |s.seen| - |s.walk.ran|
  {
    if s.walk.ptr == Null {
      run, s' := [], s;
    } else {
      var newer :| s.list == newer + s.seen;
      WalkOn(s.next, s.list, newer, s.seen, |s.walk.ran|);
      StepKeepsInv(s);
      var more;
      more, s' := WalkEnds(Apply(s, Step));
      run := [Step] + more;
      ReachesThen(s, Step, more, s');
    }
  }

  lemma SuffixDistinct(newer: seq<nat>, seen: seq<nat>)
    requires Distinct(newer + seen)
    ensures Distinct(seen)
  {
    forall a, b | 0 <= a < b < |seen|
      ensures seen[a] != seen[b]
    {
      assert (newer + seen)[|newer| + a] == seen[a] && (newer + seen)[|newer| + b] == seen[b];
    }
  }

  /** So no walk takes more steps than there are nodes. */
  lemma WalkIsBounded(n: nat, run: seq<Action>, s: State)
    requires Reaches(Initial(n), run, s) && s.walk.At?
    ensures |s.walk.ran| <= |s.pcs|
  {
    RunKeepsInv(Initial(n), run, s);
    forall k | 0 <= k < |s.list|
      ensures s.list[k] < |s.pcs|
    {
      assert s.list[k] in s.list;
    }
    DistinctBounded(s.list, |s.pcs|);
  }

  lemma DistinctBounded(list: seq<nat>, n: nat)
    requires Distinct(list) && forall k :: 0 <= k < |list| ==> list[k] < n
    ensures |list| <= n
  {
    BelowHolds(n);
    DistinctSize(list, Below(n));
  }

  function Below(n: nat): set<nat> {
    if n == 0 then {} else Below(n - 1) + {n - 1}
  }

  lemma {:induction false} BelowHolds(n: nat)
    ensures |Below(n)| == n && forall i: nat :: i in Below(n) <==> i < n
  {
    if n > 0 {
      BelowHolds(n - 1);
    }
  }

  lemma {:induction false} DistinctSize(list: seq<nat>, s: set<nat>)
    requires Distinct(list) && forall k :: 0 <= k < |list| ==> list[k] in s
    ensures |list| <= |s|
    decreases |list|
  {
    if list != [] {
      DistinctSize(list[..|list| - 1], s - {list[|list| - 1]});
    }
  }

  /** The loop of the walk, when no push interferes: it ends, and runs the list. */
  method Get(head: Pointer, next: seq<Pointer>, ghost list: seq<nat>) returns (ran: seq<nat>)
    requires head == First(list) && Linked(next, list)
    ensures ran == list
  {
    ran := [];
    var ptr := head;
    while ptr != Null
      invariant |ran| <= |list| && ran == list[..|ran|] && ptr == First(list[|ran|..])
      decreases |list| - |ran|
    {
      assert list[|ran|] == ptr.id && list[|ran| + 1..] == list[|ran|..][1..];
      ran, ptr := ran + [ptr.id], next[ptr.id];
    }
  }
}
