/** Settling the count after a message and handing the unsent messages to the other contexts. */
module Settle {
  import opened Sequences
  import opened Messages
  import opened Links
  import opened ControlBlock
  import opened Protocol
  import opened Drain

  class RemoteQueue {
    var items: seq<Item>
    var receiverGone: bool

    /** Fails exactly when the receiver no longer exists. */
    method Send(item: Item) returns (ok: bool)
      modifies this
      ensures ok <==> !old(receiverGone)
      ensures receiverGone == old(receiverGone)
      ensures items == if ok then old(items) + [item] else old(items)
    {
      if receiverGone {
        return false;
      }
      items := items + [item];
      ok := true;
    }
  }

  datatype Outcome =
    | Continue
    | LastEvent
    | IndexPanic(dest: nat)
    | SendPanic

  /** The messages that `route` takes through link `k`, as they are queued there, in order. */
  function Through(route: (nat, nat) -> int, id: nat, sends: seq<Send>, k: nat): seq<Item> {
    if sends == [] then []
    else (if route(id, sends[0].dest) == k then [Event(sends[0].msg, Context(id))] else [])
         + Through(route, id, sends[1..], k)
  }

  ghost predicate Routable(route: (nat, nat) -> int, id: nat, links: nat, sends: seq<Send>) {
    forall x :: x in sends ==> 0 <= route(id, x.dest) < links
  }

  lemma {:induction false} ThroughAppend(route: (nat, nat) -> int, id: nat, sends: seq<Send>, x: Send, k: nat)
    ensures Through(route, id, sends + [x], k)
         == Through(route, id, sends, k) + if route(id, x.dest) == k then [Event(x.msg, Context(id))] else []
  {
    var last := if route(id, x.dest) == k then [Event(x.msg, Context(id))] else [];
    if sends == [] {
      SingleTail(x);
      Empty([x]);
      Empty(last);
    } else {
      HeadAndTail(sends, [x]);
      ThroughAppend(route, id, sends[1..], x, k);
      var head := if route(id, sends[0].dest) == k then [Event(sends[0].msg, Context(id))] else [];
      Associative(head, Through(route, id, sends[1..], k), last);
    }
  }

  /** The first `p` messages of the batch have gone through their links, to the queues that held `before`. */
  ghost predicate Flushed(route: (nat, nat) -> int, id: nat, batch: seq<Send>, p: nat,
                          before: seq<seq<Item>>, now: seq<seq<Item>>)
  {
    && p <= |batch| && |now| == |before|
    && Routable(route, id, |before|, batch[..p])
    && forall k :: 0 <= k < |before| ==> now[k] == before[k] + Through(route, id, batch[..p], k)
  }

  lemma FlushedMore(route: (nat, nat) -> int, id: nat, batch: seq<Send>, p: nat,
                    before: seq<seq<Item>>, now: seq<seq<Item>>)
    requires p < |batch| && Flushed(route, id, batch, p, before, now)
    requires 0 <= route(id, batch[p].dest) < |now|
    ensures var index := route(id, batch[p].dest);
      Flushed(route, id, batch, p + 1, before, now[index := now[index] + [Event(batch[p].msg, Context(id))]])
  {
    var index, item := route(id, batch[p].dest), Event(batch[p].msg, Context(id));
    var now' := now[index := now[index] + [item]];
    assert batch[..p + 1] == batch[..p] + [batch[p]];
    forall k | 0 <= k < |before|
      ensures now'[k] == before[k] + Through(route, id, batch[..p + 1], k)
    {
      ThroughAppend(route, id, batch[..p], batch[p], k);
      if k == index {
        Associative(before[k], Through(route, id, batch[..p], k), [item]);
      } else {
        Empty(Through(route, id, batch[..p], k));
      }
    }
  }

  lemma AllFlushed(route: (nat, nat) -> int, id: nat, batch: seq<Send>, before: seq<seq<Item>>, now: seq<seq<Item>>)
    requires Flushed(route, id, batch, |batch|, before, now)
    ensures Routable(route, id, |before|, batch)
    ensures forall k :: 0 <= k < |before| ==> now[k] == before[k] + Through(route, id, batch, k)
  {
    assert batch[..|batch|] == batch;
  }

  function AsEvents(id: nat, sends: seq<Send>): seq<Item> {
    if sends == [] then [] else [Event(sends[0].msg, Context(id))] + AsEvents(id, sends[1..])
  }

  /** With the index that inverts the table, link `k` carries exactly its context's messages, in order. */
  lemma {:induction false} IntendedLinkCarriesItsOwn(route: (nat, nat) -> int, id: nat, sends: seq<Send>, k: nat)
    requires forall x: nat, d: nat :: route(x, d) == IntendedLink(x, d)
    requires forall x :: x in sends ==> x.dest != id
    ensures Through(route, id, sends, k) == AsEvents(id, ToDest(sends, LinkTarget(id, k)))
  {
    if sends != [] {
      IntendedLinkCarriesItsOwn(route, id, sends[1..], k);
      assert route(id, sends[0].dest) == k <==> sends[0].dest == LinkTarget(id, k);
      var rest := ToDest(sends[1..], LinkTarget(id, k));
      assert ([sends[0]] + rest)[1..] == rest && [] + rest == rest;
    }
  }

  /** The route takes `x` to one of the links, and the receiver of that is not gone. */
  predicate Goes(route: (nat, nat) -> int, id: nat, gone: seq<bool>, x: Send) {
    0 <= route(id, x.dest) < |gone| && !gone[route(id, x.dest)]
  }

  ghost predicate AllGo(route: (nat, nat) -> int, id: nat, gone: seq<bool>, sends: seq<Send>) {
    forall x :: x in sends ==> Goes(route, id, gone, x)
  }

  /** `d` is the least destination among those of messages that do not go through. */
  ghost predicate LeastStuck(route: (nat, nat) -> int, id: nat, gone: seq<bool>, sends: seq<Send>, d: nat) {
    && (exists x :: x in sends && x.dest == d && !Goes(route, id, gone, x))
    && forall x :: x in sends && !Goes(route, id, gone, x) ==> d <= x.dest
  }

  /** All messages before position `p` go through, and the one there, if any, is the first that does not. */
  ghost predicate StuckAt(route: (nat, nat) -> int, id: nat, gone: seq<bool>, batch: seq<Send>, p: nat) {
    && p <= |batch| && AllGo(route, id, gone, batch[..p])
    && (p < |batch| ==> !Goes(route, id, gone, batch[p]))
  }

  lemma OneMoreGoes(route: (nat, nat) -> int, id: nat, gone: seq<bool>, batch: seq<Send>, p: nat)
    requires p < |batch| && AllGo(route, id, gone, batch[..p]) && Goes(route, id, gone, batch[p])
    ensures AllGo(route, id, gone, batch[..p + 1])
  {
    assert batch[..p + 1] == batch[..p] + [batch[p]];
  }

  lemma StuckMeans(route: (nat, nat) -> int, id: nat, gone: seq<bool>, batch: seq<Send>, p: nat)
    requires StuckAt(route, id, gone, batch, p)
    ensures p == |batch| <==> AllGo(route, id, gone, batch)
  {
    assert batch[..|batch|] == batch;
    if p < |batch| {
      assert batch[p] in batch;
    }
  }

  lemma BehindThePrefix(batch: seq<Send>, p: nat, x: Send)
    requires p <= |batch| && x in batch && x !in batch[..p]
    ensures x in batch[p..]
  {
    assert batch == batch[..p] + batch[p..];
  }

  /** In a sorted batch the first message that is stuck has the least destination of those that are. */
  lemma FirstIsLeast(route: (nat, nat) -> int, id: nat, gone: seq<bool>, batch: seq<Send>, p: nat)
    requires SortedByDest(batch) && StuckAt(route, id, gone, batch, p) && p < |batch|
    ensures LeastStuck(route, id, gone, batch, batch[p].dest)
  {
    assert batch[p] in batch;
    forall x | x in batch && !Goes(route, id, gone, x)
      ensures batch[p].dest <= x.dest
    {
      BehindThePrefix(batch, p, x);
      var q :| 0 <= q < |batch| - p && batch[p..][q] == x;
      assert batch[p + q] == x;
    }
  }

  lemma SameStuck(route: (nat, nat) -> int, id: nat, gone: seq<bool>, sends: seq<Send>, batch: seq<Send>)
    requires forall x :: x in batch <==> x in sends
    ensures AllGo(route, id, gone, batch) <==> AllGo(route, id, gone, sends)
    ensures forall d :: LeastStuck(route, id, gone, batch, d) <==> LeastStuck(route, id, gone, sends, d)
  {
  }

  /** What becomes of the first `p` messages of the batch decides about the outcome. */
  ghost predicate Ends(route: (nat, nat) -> int, id: nat, links: nat, batch: seq<Send>, p: nat, r: Outcome) {
    && p <= |batch|
    && r == if p == |batch| then Continue
            else if 0 <= route(id, batch[p].dest) < links then SendPanic else IndexPanic(batch[p].dest)
  }

  lemma LeastIsUnique(route: (nat, nat) -> int, id: nat, gone: seq<bool>, sends: seq<Send>, d: nat, e: nat)
    requires LeastStuck(route, id, gone, sends, d) && LeastStuck(route, id, gone, sends, e)
    ensures d == e
  {
  }

  /** All goes well if everything goes through; else the least destination that is stuck is what fails. */
  ghost predicate LeastStuckIsTheOutcome(route: (nat, nat) -> int, id: nat, gone: seq<bool>, sends: seq<Send>,
                                         r: Outcome)
  {
    && (r == Continue <==> AllGo(route, id, gone, sends))
    && (r != Continue ==> exists d :: LeastStuck(route, id, gone, sends, d))
    && forall d :: LeastStuck(route, id, gone, sends, d) ==>
         r == if 0 <= route(id, d) < |gone| then SendPanic else IndexPanic(d)
  }

  lemma LeastStuckDecides(route: (nat, nat) -> int, id: nat, gone: seq<bool>, sends: seq<Send>, p: nat, r: Outcome)
    requires StuckAt(route, id, gone, Grouped(sends), p) && Ends(route, id, |gone|, Grouped(sends), p, r)
    ensures LeastStuckIsTheOutcome(route, id, gone, sends, r)
  {
    var batch := Grouped(sends);
    GroupedIsStableSort(sends);
    GroupedMembers(sends);
    SameStuck(route, id, gone, sends, batch);
    StuckMeans(route, id, gone, batch, p);
    if p < |batch| {
      FirstIsLeast(route, id, gone, batch, p);
      forall d | LeastStuck(route, id, gone, sends, d)
        ensures d == batch[p].dest
      {
        LeastIsUnique(route, id, gone, sends, d, batch[p].dest);
      }
    }
  }

  /** The same with live receivers: then only the route can be at fault. */
  lemma AllRoutableGo(route: (nat, nat) -> int, id: nat, gone: seq<bool>, sends: seq<Send>)
    requires forall k :: 0 <= k < |gone| ==> !gone[k]
    ensures AllGo(route, id, gone, sends) <==> Routable(route, id, |gone|, sends)
  {
  }

  class Outbox {
    const id: nat
    const links: seq<RemoteQueue>
    const block: ControlBlock
    var unsentMessages: seq<Send>

    constructor (id: nat, links: seq<RemoteQueue>, block: ControlBlock)
      ensures this.id == id && this.links == links && this.block == block && unsentMessages == []
    {
      this.id, this.links, this.block := id, links, block;
      unsentMessages := [];
    }

    /** The links lead to different queues. */
    predicate Valid()
    {
      forall j, k :: 0 <= j < k < |links| ==> links[j] != links[k]
    }

    ghost predicate AllAlive()
      reads links
    {
      forall k :: 0 <= k < |links| ==> !links[k].receiverGone
    }

    ghost function Gone(): (gone: seq<bool>)
      reads links
      ensures |gone| == |links| && forall k :: 0 <= k < |gone| ==> gone[k] == links[k].receiverGone
    {
      seq(|links|, k requires 0 <= k < |links| reads links => links[k].receiverGone)
    }

    /**
     * With nothing unsent the event is counted off, and whoever counts off the last one learns it.
     * Otherwise the count becomes one per message, and each link's queue gets, in order of production
     * per destination, exactly the messages routed through it. The least destination that has no link,
     * or a link to nobody, stops that with a panic, after the messages before it.
     */
    method SettleAndFlush(route: (nat, nat) -> int) returns (r: Outcome, ghost p: nat)
      requires Valid() && !block.freed
      modifies this, block, links
      ensures block.freed == old(block.freed) && Gone() == old(Gone())
      ensures old(unsentMessages) == [] ==>
        && block.unhandledEvents == old(block.unhandledEvents) - 1
        && r == (if old(block.unhandledEvents) <= 1 then LastEvent else Continue)
        && unsentMessages == []
        && forall k :: 0 <= k < |links| ==> links[k].items == old(links[k].items)
      ensures old(unsentMessages) != [] ==>
        && block.unhandledEvents == old(block.unhandledEvents) + |old(unsentMessages)| - 1
        && unsentMessages == []
        && (old(AllAlive()) ==> (r == Continue <==> Routable(route, id, |links|, old(unsentMessages))))
        && (r == Continue ==> forall k :: 0 <= k < |links| ==>
              links[k].items == old(links[k].items) + Through(route, id, Grouped(old(unsentMessages)), k))
      ensures old(unsentMessages) != [] ==>
        && LeastStuckIsTheOutcome(route, id, Gone(), old(unsentMessages), r)
        && StuckAt(route, id, Gone(), Grouped(old(unsentMessages)), p)
        && Flushed(route, id, Grouped(old(unsentMessages)), p, old(Queues()), Queues())
    {
      var n := |unsentMessages|;
      p := 0;
      if n == 0 {
        var unhandled := block.unhandledEvents;
        block.unhandledEvents := block.unhandledEvents - 1;
        return if unhandled <= 1 then LastEvent else Continue, 0;
      }
      if n > 1 {
        block.unhandledEvents := block.unhandledEvents + n - 1;
      }
      var sends := unsentMessages;
      unsentMessages := [];
      assert Queues() == old(Queues()) && Gone() == old(Gone()) && (AllAlive() <==> old(AllAlive()));
      r, p := HandOut(route, sends);
    }

    /** Hands out what was unsent: a single message as it is, several sorted by destination. */
    method HandOut(route: (nat, nat) -> int, sends: seq<Send>) returns (r: Outcome, ghost p: nat)
      requires Valid() && sends != []
      modifies links
      ensures Gone() == old(Gone())
      ensures old(AllAlive()) ==> (r == Continue <==> Routable(route, id, |links|, sends))
      ensures r == Continue ==> forall k :: 0 <= k < |links| ==>
        links[k].items == old(links[k].items) + Through(route, id, Grouped(sends), k)
      ensures LeastStuckIsTheOutcome(route, id, Gone(), sends, r)
      ensures StuckAt(route, id, Gone(), Grouped(sends), p)
      ensures Flushed(route, id, Grouped(sends), p, old(Queues()), Queues())
    {
      ghost var before := Queues();
      if |sends| == 1 {
        assert Grouped(sends) == [sends[0]] == sends;
        r, p := FlushOne(route, sends[0]);
      } else {
        r, p := FlushAll(route, Grouped(sends));
      }
      HandedOut(route, sends, before, p, r);
    }

    lemma HandedOut(route: (nat, nat) -> int, sends: seq<Send>, before: seq<seq<Item>>, p: nat, r: Outcome)
      requires Flushed(route, id, Grouped(sends), p, before, Queues())
      requires StuckAt(route, id, Gone(), Grouped(sends), p) && Ends(route, id, |links|, Grouped(sends), p, r)
      ensures AllAlive() ==> (r == Continue <==> Routable(route, id, |links|, sends))
      ensures r == Continue ==> forall k :: 0 <= k < |links| ==>
        links[k].items == before[k] + Through(route, id, Grouped(sends), k)
      ensures LeastStuckIsTheOutcome(route, id, Gone(), sends, r)
    {
      LeastStuckDecides(route, id, Gone(), sends, p, r);
      if AllAlive() {
        AllRoutableGo(route, id, Gone(), sends);
      }
      if r == Continue {
        AllFlushed(route, id, Grouped(sends), before, Queues());
      }
    }

    /** A single message needs no sorting. */
    method FlushOne(route: (nat, nat) -> int, send: Send) returns (r: Outcome, ghost p: nat)
      requires Valid()
      modifies links
      ensures Gone() == old(Gone())
      ensures old(AllAlive()) ==> (r == Continue <==> Routable(route, id, |links|, [send]))
      ensures r == Continue ==> forall k :: 0 <= k < |links| ==>
        links[k].items == old(links[k].items) + Through(route, id, [send], k)
      ensures StuckAt(route, id, Gone(), [send], p) && Flushed(route, id, [send], p, old(Queues()), Queues())
      ensures Ends(route, id, |links|, [send], p, r)
    {
      var index := route(id, send.dest);
      if !(0 <= index < |links|) {
        assert send in [send];
        return IndexPanic(send.dest), 0;
      }
      ghost var before := Queues();
      FlushedMore(route, id, [send], 0, before, before);
      var ok := PushThrough(index, Event(send.msg, Context(id)));
      if !ok {
        return SendPanic, 0;
      }
      AllFlushed(route, id, [send], before, Queues());
      return Continue, 1;
    }

    /** The batch goes out in order, up to the first message that does not go through. */
    method FlushAll(route: (nat, nat) -> int, batch: seq<Send>) returns (r: Outcome, ghost p: nat)
      requires Valid()
      modifies links
      ensures Gone() == old(Gone())
      ensures old(AllAlive()) ==> (r == Continue <==> Routable(route, id, |links|, batch))
      ensures r == Continue ==> forall k :: 0 <= k < |links| ==>
        links[k].items == old(links[k].items) + Through(route, id, batch, k)
      ensures StuckAt(route, id, Gone(), batch, p) && Flushed(route, id, batch, p, old(Queues()), Queues())
      ensures Ends(route, id, |links|, batch, p, r)
    {
      ghost var before := Queues();
      for k := 0 to |batch|
        invariant Gone() == old(Gone())
        invariant Flushed(route, id, batch, k, before, Queues())
        invariant AllGo(route, id, Gone(), batch[..k])
      {
        var send := batch[k];
        var index := route(id, send.dest);
        if !(0 <= index < |links|) {
          assert send in batch;
          return IndexPanic(send.dest), k;
        }
        FlushedMore(route, id, batch, k, before, Queues());
        var ok := PushThrough(index, Event(send.msg, Context(id)));
        if !ok {
          return SendPanic, k;
        }
        OneMoreGoes(route, id, Gone(), batch, k);
      }
      AllFlushed(route, id, batch, before, Queues());
      return Continue, |batch|;
    }

    ghost function Queues(): (q: seq<seq<Item>>)
      reads links
      ensures |q| == |links| && forall k :: 0 <= k < |q| ==> q[k] == links[k].items
    {
      seq(|links|, k requires 0 <= k < |links| reads links => links[k].items)
    }

    method PushThrough(index: nat, item: Item) returns (ok: bool)
      requires Valid() && index < |links|
      modifies links
      ensures Gone() == old(Gone())
      ensures ok <==> !old(links[index].receiverGone)
      ensures Queues() == if ok then old(Queues())[index := old(Queues())[index] + [item]] else old(Queues())
    {
      ok := links[index].Send(item);
    }

    /** Every other context is told to stop, up to the first that is gone. */
    method SendStops() returns (r: Outcome)
      requires Valid()
      modifies links
      ensures Gone() == old(Gone())
      ensures r == if AllAlive() then LastEvent else SendPanic
      ensures r == LastEvent ==> forall k :: 0 <= k < |links| ==> links[k].items == old(links[k].items) + [Stop]
    {
      for p := 0 to |links|
        invariant Gone() == old(Gone()) && forall k :: 0 <= k < p ==> !links[k].receiverGone
        invariant forall k :: 0 <= k < |links| ==>
          links[k].items == old(links[k].items) + if k < p then [Stop] else []
      {
        var ok := links[p].Send(Stop);
        if !ok {
          return SendPanic;
        }
      }
      r := LastEvent;
    }
  }

  // ---------- the same in the step machine ----------

  /** Each queue has got what the batch sends through its link, and nothing else has changed. */
  ghost predicate FlushedTo(c: Config, s: State, i: nat, batch: seq<Send>, s': State)
    requires i < |s.threads|
  {
    && |s'.threads| == |s.threads|
    && s' == s.(threads := s'.threads)
    && s'.threads[i] == s.threads[i].(phase := Waiting, pushed := s.threads[i].pushed + batch)
    && forall k: nat :: InTable(|s.threads|, k) ==> Received(s, s', LinkTarget(i, k), Through(c.route, i, batch, k))
  }

  predicate Received(s: State, s': State, j: nat, items: seq<Item>) {
    && j < |s.threads| && j < |s'.threads|
    && s'.threads[j] == s.threads[j].(inbox := s.threads[j].inbox + items)
  }

  function FirstThrough(route: (nat, nat) -> int, id: nat, batch: seq<Send>, k: nat): seq<Item>
    requires batch != []
  {
    if route(id, batch[0].dest) == k then [Event(batch[0].msg, Context(id))] else []
  }

  /** The first message of the batch has gone through its link. */
  ghost predicate FlushedOne(c: Config, s: State, i: nat, batch: seq<Send>, s': State)
    requires i < |s.threads| && batch != []
  {
    && |s'.threads| == |s.threads|
    && s' == s.(threads := s'.threads)
    && s'.threads[i] == s.threads[i].(phase := if |batch| == 1 then Waiting else Flushing(batch[1..]),
                                      pushed := s.threads[i].pushed + [batch[0]])
    && forall k: nat :: InTable(|s.threads|, k) ==>
         Received(s, s', LinkTarget(i, k), FirstThrough(c.route, i, batch, k))
  }

  ghost predicate NobodyExited(s: State) {
    forall j :: 0 <= j < |s.threads| ==> !s.threads[j].phase.Exited?
  }

  lemma FlushOneStep(c: Config, s: State, i: nat) returns (s': State)
    requires s.fault.NoFault? && i < |s.threads| && s.threads[i].phase.Flushing? && s.threads[i].phase.batch != []
    requires Routable(c.route, i, |s.threads| - 1, s.threads[i].phase.batch) && NobodyExited(s)
    ensures Enabled(s, ThreadMoves(i)) && Apply(c, s, ThreadMoves(i)) == s'
    ensures NobodyExited(s') && FlushedOne(c, s, i, s.threads[i].phase.batch, s')
  {
    var batch := s.threads[i].phase.batch;
    assert batch[0] in batch;
    s' := Apply(c, s, ThreadMoves(i));
    IntendedLinkInvertsTable(|s.threads|, i);
    forall k: nat | InTable(|s.threads|, k)
      ensures Received(s, s', LinkTarget(i, k), FirstThrough(c.route, i, batch, k))
    {
      Empty(s.threads[LinkTarget(i, k)].inbox);
    }
  }

  lemma FlushedInTurn(c: Config, s: State, i: nat, batch: seq<Send>, mid: State, s': State)
    requires i < |s.threads| && |batch| > 1
    requires FlushedOne(c, s, i, batch, mid) && FlushedTo(c, mid, i, batch[1..], s')
    ensures FlushedTo(c, s, i, batch, s')
  {
    Associative(s.threads[i].pushed, [batch[0]], batch[1..]);
    assert [batch[0]] + batch[1..] == batch;
    forall k: nat | InTable(|s.threads|, k)
      ensures Received(s, s', LinkTarget(i, k), Through(c.route, i, batch, k))
    {
      var j := LinkTarget(i, k);
      assert Received(s, mid, j, FirstThrough(c.route, i, batch, k));
      assert Received(mid, s', j, Through(c.route, i, batch[1..], k));
      Associative(s.threads[j].inbox, FirstThrough(c.route, i, batch, k), Through(c.route, i, batch[1..], k));
    }
  }

  /** Left to itself a flushing thread reaches, in one step a message, what the loop is proved to reach. */
  lemma {:induction false} FlushingIsARun(c: Config, s: State, i: nat) returns (s': State)
    requires s.fault.NoFault? && i < |s.threads| && s.threads[i].phase.Flushing? && s.threads[i].phase.batch != []
    requires Routable(c.route, i, |s.threads| - 1, s.threads[i].phase.batch) && NobodyExited(s)
    ensures Reaches(c, s, Moves(i, |s.threads[i].phase.batch|), s')
    ensures FlushedTo(c, s, i, s.threads[i].phase.batch, s')
    decreases |s.threads[i].phase.batch|
  {
    var batch := s.threads[i].phase.batch;
    var mid := FlushOneStep(c, s, i);
    HeadAndTail([ThreadMoves(i)], Moves(i, |batch| - 1));
    SingleTail(ThreadMoves(i));
    Empty(Moves(i, |batch| - 1));
    if |batch| == 1 {
      s' := mid;
    } else {
      s' := FlushingIsARun(c, mid, i);
      FlushedInTurn(c, s, i, batch, mid, s');
    }
  }

  /** With the index as written, in a system of two contexts every flush of anything panics. */
  lemma TwoContextsNeverFlush(route: (nat, nat) -> int, id: nat, sends: seq<Send>)
    requires forall x: nat, d: nat :: route(x, d) == CodedLink(x, d)
    requires id < 2 && sends != [] && forall x :: x in sends ==> x.dest < 2 && x.dest != id
    ensures !Routable(route, id, 1, sends)
  {
    assert sends[0] in sends;
    CodedLinkMissesEveryTarget(2, id, sends[0].dest);
  }
}
