/**
 * What happens to the messages between contexts over a whole run: per sender and destination nothing
 * is lost, duplicated or reordered, except what initialisation left unsent in a context that never
 * handled an event.
 */
module Delivery {
  import opened Sequences
  import opened Sums
  import opened Messages
  import opened Links
  import opened Protocol

  function BatchOf(p: Phase): seq<Send> {
    if p.Flushing? then p.batch else []
  }

  /** The messages that `o` pushed among `items`, in order. */
  function FromOrigin(items: seq<Item>, o: Origin): seq<Msg> {
    if items == [] then []
    else (if items[0].Event? && items[0].from == o then [items[0].msg] else []) + FromOrigin(items[1..], o)
  }

  /** The messages among `sends` that the route of context `i` takes to context `j`, in order. */
  function RoutedTo(c: Config, n: nat, i: nat, sends: seq<Send>, j: nat): seq<Msg> {
    if sends == [] then []
    else (if Routes(c, n, i, sends[0].dest, j) then [sends[0].msg] else []) + RoutedTo(c, n, i, sends[1..], j)
  }

  predicate Routes(c: Config, n: nat, i: nat, d: nat, j: nat) {
    InTable(n, c.route(i, d)) && LinkTarget(i, c.route(i, d)) == j
  }

  function StopCount(items: seq<Item>): nat {
    Sum(ItemStops, items)
  }

  function ItemStops(item: Item): nat {
    if item.Stop? then 1 else 0
  }

  /** Of each destination's messages some are pushed, some about to be, some unsent: in this order. */
  ghost predicate Conserved(t: Thread) {
    forall d: nat ::
      ToDest(t.produced, d) == ToDest(t.pushed, d) + ToDest(BatchOf(t.phase), d) + ToDest(t.unsent, d)
  }

  /** Outside a handling, unsent messages exist only before the first one. */
  predicate UnsentOnlyFromInit(t: Thread) {
    && (t.phase.Handling? || t.phase.Draining? || t.phase.Flushing? ==> t.handledAny)
    && (t.handledAny && !t.phase.Handling? && !t.phase.Draining? ==> t.unsent == [])
    && (!t.handledAny ==> t.pushed == [] && t.unsent == t.produced)
  }

  ghost predicate ThreadHistory(t: Thread) {
    Conserved(t) && UnsentOnlyFromInit(t)
  }

  /** Only a Stop makes a context other than the one that sends them exit, and it takes one only. */
  predicate StopHistory(s: State, j: nat)
    requires j < |s.threads|
  {
    StopCount(s.threads[j].received)
      == if s.threads[j].phase.Exited? && !(s.last.ByHandler? && s.last.id == j) then 1 else 0
  }

  predicate Arrived(c: Config, s: State, i: nat, j: nat)
    requires i < |s.threads| && j < |s.threads|
  {
    FromOrigin(s.threads[j].received + s.threads[j].inbox, Context(i))
      == RoutedTo(c, |s.threads|, i, s.threads[i].pushed, j)
  }

  ghost predicate History(c: Config, s: State) {
    && (forall i :: 0 <= i < |s.threads| ==> ThreadHistory(s.threads[i]))
    && (forall j :: 0 <= j < |s.threads| ==> StopHistory(s, j))
    && (forall i, j :: 0 <= i < |s.threads| && 0 <= j < |s.threads| ==> Arrived(c, s, i, j))
  }

  // ---------- sequences ----------

  lemma {:induction false} FromOriginConcat(xs: seq<Item>, ys: seq<Item>, o: Origin)
    ensures FromOrigin(xs + ys, o) == FromOrigin(xs, o) + FromOrigin(ys, o)
  {
    if xs == [] {
      Empty(ys);
    } else {
      HeadAndTail(xs, ys);
      FromOriginConcat(xs[1..], ys, o);
      var head := if xs[0].Event? && xs[0].from == o then [xs[0].msg] else [];
      Associative(head, FromOrigin(xs[1..], o), FromOrigin(ys, o));
    }
  }

  lemma {:induction false} RoutedToAppend(c: Config, n: nat, i: nat, sends: seq<Send>, x: Send, j: nat)
    ensures RoutedTo(c, n, i, sends + [x], j)
         == RoutedTo(c, n, i, sends, j) + if Routes(c, n, i, x.dest, j) then [x.msg] else []
  {
    var last := if Routes(c, n, i, x.dest, j) then [x.msg] else [];
    if sends == [] {
      SingleTail(x);
      Empty([x]);
      Empty(last);
    } else {
      HeadAndTail(sends, [x]);
      RoutedToAppend(c, n, i, sends[1..], x, j);
      var head := if Routes(c, n, i, sends[0].dest, j) then [sends[0].msg] else [];
      Associative(head, RoutedTo(c, n, i, sends[1..], j), last);
    }
  }

  lemma ArrivalAppended(t: Thread, item: Item, o: Origin)
    ensures FromOrigin(t.received + (t.inbox + [item]), o)
         == FromOrigin(t.received + t.inbox, o) + if item.Event? && item.from == o then [item.msg] else []
  {
    Associative(t.received, t.inbox, [item]);
    FromOriginConcat(t.received + t.inbox, [item], o);
    SingleTail(item);
  }

  // ---------- one thread's history ----------

  lemma DeliverConserves(i: nat, t: Thread, sends: seq<Send>)
    requires Conserved(t)
    ensures Conserved(Deliver(i, t, sends))
  {
    var more := RemotePart(i, sends);
    forall d: nat
      ensures ToDest(t.produced + more, d)
           == ToDest(t.pushed, d) + ToDest(BatchOf(t.phase), d) + ToDest(t.unsent + more, d)
    {
      ToDestConcat(t.produced, more, d);
      ToDestConcat(t.unsent, more, d);
    }
  }

  lemma GroupingConserves(t: Thread)
    requires Conserved(t) && BatchOf(t.phase) == []
    ensures Conserved(t.(phase := Flushing(Grouped(t.unsent)), unsent := []))
  {
    GroupedIsStableSort(t.unsent);
  }

  /** Moving the head of a batch to the end of what has been pushed moves it for its destination too. */
  lemma MovesOver(pushed: seq<Send>, batch: seq<Send>, d: nat)
    requires batch != []
    ensures ToDest(pushed + [batch[0]], d) + ToDest(batch[1..], d) == ToDest(pushed, d) + ToDest(batch, d)
  {
    ToDestConcat(pushed, [batch[0]], d);
    ToDestSingle(batch[0], d);
    Associative(ToDest(pushed, d), ToDest([batch[0]], d), ToDest(batch[1..], d));
  }

  lemma PushingConserves(t: Thread, after: Phase)
    requires Conserved(t) && t.phase.Flushing? && t.phase.batch != []
    requires BatchOf(after) == t.phase.batch[1..]
    ensures Conserved(t.(phase := after, pushed := t.pushed + [t.phase.batch[0]]))
  {
    var x, rest := t.phase.batch[0], t.phase.batch[1..];
    forall d: nat
      ensures ToDest(t.produced, d) == ToDest(t.pushed + [x], d) + ToDest(rest, d) + ToDest(t.unsent, d)
    {
      MovesOver(t.pushed, t.phase.batch, d);
    }
  }

  // ---------- how the parts of a step carry the history ----------

  /** Thread `i` moves without taking a Stop or pushing anything. */
  lemma HistoryPut(c: Config, s: State, i: nat, t: Thread, s': State)
    requires History(c, s) && i < |s.threads|
    requires s'.threads == s.threads[i := t]
    requires ThreadHistory(t)
    requires t.received + t.inbox == s.threads[i].received + s.threads[i].inbox && t.pushed == s.threads[i].pushed
    requires forall j :: 0 <= j < |s.threads| ==> StopHistory(s', j)
    ensures History(c, s')
  {
    forall x, j | 0 <= x < |s.threads| && 0 <= j < |s.threads|
      ensures Arrived(c, s', x, j)
    {
      assert Arrived(c, s, x, j);
    }
  }

  /** Something that no context sent is pushed to `j`. */
  lemma HistoryForeignPush(c: Config, s: State, j: nat, item: Item, s': State)
    requires History(c, s) && j < |s.threads|
    requires !(item.Event? && item.from.Context?)
    requires s'.threads == s.threads[j := s.threads[j].(inbox := s.threads[j].inbox + [item])]
    requires s'.last == s.last
    ensures History(c, s')
  {
    forall x | 0 <= x < |s.threads|
      ensures StopHistory(s', x)
    {
      assert StopHistory(s, x);
    }
    forall x, y | 0 <= x < |s.threads| && 0 <= y < |s.threads|
      ensures Arrived(c, s', x, y)
    {
      assert Arrived(c, s, x, y);
      ArrivalAppended(s.threads[j], item, Context(x));
    }
  }

  lemma StopHistoryKept(s: State, s': State)
    requires |s'.threads| == |s.threads|
    requires forall j :: 0 <= j < |s.threads| ==> StopHistory(s, j)
    requires forall j :: 0 <= j < |s.threads| ==>
      && s'.threads[j].received == s.threads[j].received
      && (s'.threads[j].phase.Exited? <==> s.threads[j].phase.Exited?)
    requires s'.last == s.last || forall j :: 0 <= j < |s.threads| ==> !s.threads[j].phase.Exited?
    ensures forall j :: 0 <= j < |s.threads| ==> StopHistory(s', j)
  {
    forall j | 0 <= j < |s.threads|
      ensures StopHistory(s', j)
    {
      assert StopHistory(s, j);
    }
  }

  /** Thread `i` moves, staying in the loop, without touching any queue. */
  lemma PrivateMove(c: Config, s: State, i: nat, t: Thread, s': State)
    requires History(c, s) && i < |s.threads|
    requires s'.threads == s.threads[i := t]
    requires s'.last == s.last || forall j :: 0 <= j < |s.threads| ==> !s.threads[j].phase.Exited?
    requires ThreadHistory(t)
    requires !t.phase.Exited? && !s.threads[i].phase.Exited?
    requires t.received == s.threads[i].received && t.inbox == s.threads[i].inbox
    requires t.pushed == s.threads[i].pushed
    ensures History(c, s')
  {
    StopHistoryKept(s, s');
    HistoryPut(c, s, i, t, s');
  }
}
