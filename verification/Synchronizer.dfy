/** Merging event streams: always the head that compares greatest is dispatched next. */
module Synchronizer {

  datatype Event = Event(timestamp: int, tieBreak: nat, obj: nat)

  datatype Ordering = Less | Equal | Greater

  /** How the heap compares its entries: by timestamp, then by tie break. */
  function Compare(a: Event, b: Event): Ordering {
    if a.timestamp < b.timestamp then Less
    else if a.timestamp > b.timestamp then Greater
    else if a.tieBreak < b.tieBreak then Less
    else if a.tieBreak > b.tieBreak then Greater
    else Equal
  }

  predicate AtMost(a: Event, b: Event) {
    !Compare(a, b).Greater?
  }

  predicate SameKey(a: Event, b: Event) {
    a.timestamp == b.timestamp && a.tieBreak == b.tieBreak
  }

  type Streams = seq<seq<Event>>

  /** Stream `i` has a head that no other head exceeds. */
  predicate GreatestHead(rest: Streams, i: nat) {
    && i < |rest| && rest[i] != []
    && forall j :: 0 <= j < |rest| && rest[j] != [] ==> AtMost(rest[j][0], rest[i][0])
  }

  function Advance(rest: Streams, i: nat): Streams
    requires i < |rest| && rest[i] != []
  {
    rest[i := rest[i][1..]]
  }

  /** Each step of `picks` takes a greatest head. */
  predicate ValidPicks(streams: Streams, picks: seq<nat>)
    decreases picks
  {
    picks == [] || (GreatestHead(streams, picks[0]) && ValidPicks(Advance(streams, picks[0]), picks[1..]))
  }

  /** What `picks` leaves of the streams. */
  function After(streams: Streams, picks: seq<nat>): (rest: Streams)
    requires ValidPicks(streams, picks)
    ensures |rest| == |streams|
    decreases picks
  {
    if picks == [] then streams else After(Advance(streams, picks[0]), picks[1..])
  }

  predicate Exhausted(streams: Streams) {
    forall i :: 0 <= i < |streams| ==> streams[i] == []
  }

  predicate Merges(streams: Streams, picks: seq<nat>) {
    ValidPicks(streams, picks) && Exhausted(After(streams, picks))
  }

  /** What is dispatched: the accessor used, and the event. */
  function Output(streams: Streams, picks: seq<nat>): (out: seq<(nat, Event)>)
    requires ValidPicks(streams, picks)
    ensures |out| == |picks|
    decreases picks
  {
    if picks == [] then []
    else [(picks[0], streams[picks[0]][0])] + Output(Advance(streams, picks[0]), picks[1..])
  }

  /** The events dispatched through accessor `i`, in order. */
  function Through(out: seq<(nat, Event)>, i: nat): seq<Event> {
    if out == [] then [] else (if out[0].0 == i then [out[0].1] else []) + Through(out[1..], i)
  }

  function Events(out: seq<(nat, Event)>): (events: seq<Event>)
    ensures |events| == |out|
    ensures forall k :: 0 <= k < |out| ==> events[k] == out[k].1
  {
    if out == [] then [] else [out[0].1] + Events(out[1..])
  }

  predicate NonIncreasing(s: seq<Event>) {
    forall a, b :: 0 <= a < b < |s| ==>
      s[b].timestamp < s[a].timestamp || (s[b].timestamp == s[a].timestamp && s[b].tieBreak <= s[a].tieBreak)
  }

  predicate NonDecreasing(s: seq<Event>) {
    forall a, b :: 0 <= a < b < |s| ==>
      s[a].timestamp < s[b].timestamp || (s[a].timestamp == s[b].timestamp && s[a].tieBreak <= s[b].tieBreak)
  }

  function TotalLength(streams: Streams): nat {
    if streams == [] then 0 else |streams[0]| + TotalLength(streams[1..])
  }

  lemma {:induction false} AdvanceShortens(rest: Streams, i: nat)
    requires i < |rest| && rest[i] != []
    ensures TotalLength(Advance(rest, i)) + 1 == TotalLength(rest)
  {
    if i == 0 {
      assert Advance(rest, 0)[1..] == rest[1..];
    } else {
      assert Advance(rest, i)[1..] == Advance(rest[1..], i - 1);
      AdvanceShortens(rest[1..], i - 1);
    }
  }

  /** Each stream comes out completely through its accessor, each event once and in stream order. */
  lemma {:induction false} EveryStreamComesOut(streams: Streams, picks: seq<nat>, i: nat)
    requires Merges(streams, picks) && i < |streams|
    ensures Through(Output(streams, picks), i) == streams[i]
    decreases picks
  {
    if picks != [] {
      EveryStreamComesOut(Advance(streams, picks[0]), picks[1..], i);
    }
  }

  /** And nothing else comes out. */
  lemma {:induction false} NothingElseComesOut(streams: Streams, picks: seq<nat>)
    requires Merges(streams, picks)
    ensures |Output(streams, picks)| == TotalLength(streams)
    decreases picks
  {
    if picks == [] {
      EmptyStreams(streams);
    } else {
      AdvanceShortens(streams, picks[0]);
      NothingElseComesOut(Advance(streams, picks[0]), picks[1..]);
    }
  }

  lemma {:induction false} EmptyStreams(streams: Streams)
    requires Exhausted(streams)
    ensures TotalLength(streams) == 0
  {
    if streams != [] {
      EmptyStreams(streams[1..]);
    }
  }

  /** Latest first: if every stream is non-increasing so is the whole output. */
  lemma {:induction false} LatestFirst(streams: Streams, picks: seq<nat>)
    requires ValidPicks(streams, picks)
    requires forall i :: 0 <= i < |streams| ==> NonIncreasing(streams[i])
    ensures NonIncreasing(Events(Output(streams, picks)))
    ensures forall e :: e in Events(Output(streams, picks)) ==>
      exists i :: 0 <= i < |streams| && streams[i] != [] && AtMost(e, streams[i][0])
    decreases picks
  {
    if picks != [] {
      var i := picks[0];
      var rest, top := Advance(streams, i), streams[i][0];
      NonIncreasingTail(streams[i]);
      LatestFirst(rest, picks[1..]);
      var out := Events(Output(rest, picks[1..]));
      forall e | e in out
        ensures AtMost(e, top)
      {
        var j :| 0 <= j < |rest| && rest[j] != [] && AtMost(e, rest[j][0]);
        assert AtMost(rest[j][0], top);
      }
      TopInFront(top, out);
    }
  }

  lemma NonIncreasingTail(s: seq<Event>)
    requires s != [] && NonIncreasing(s)
    ensures NonIncreasing(s[1..]) && (|s| > 1 ==> AtMost(s[1], s[0]))
  {
  }

  lemma TopInFront(top: Event, out: seq<Event>)
    requires NonIncreasing(out) && forall e :: e in out ==> AtMost(e, top)
    ensures NonIncreasing([top] + out) && forall e :: e in [top] + out ==> AtMost(e, top)
  {
    assert forall k :: 0 <= k < |out| ==> out[k] in out;
  }

  /** The event of stream `j` that is next after the first `k` dispatches, if the stream has one left. */
  predicate IsNext(streams: Streams, dispatched: seq<(nat, Event)>, k: nat, j: nat, h: Event)
    requires k <= |dispatched| && j < |streams|
  {
    var taken := |Through(dispatched[..k], j)|;
    taken < |streams[j]| && streams[j][taken] == h
  }

  /** No event that could be next is later than the one dispatched, or as late with a greater tie break. */
  lemma {:induction false} NoneIsLater(streams: Streams, picks: seq<nat>, k: nat, j: nat, h: Event)
    requires ValidPicks(streams, picks) && k < |picks| && j < |streams|
    requires IsNext(streams, Output(streams, picks), k, j, h)
    ensures var d := Output(streams, picks)[k].1;
      h.timestamp < d.timestamp || (h.timestamp == d.timestamp && h.tieBreak <= d.tieBreak)
    decreases k
  {
    var out := Output(streams, picks);
    if k == 0 {
      assert Through(out[..0], j) == [];
      assert AtMost(streams[j][0], streams[picks[0]][0]);
    } else {
      var rest := Advance(streams, picks[0]);
      var more := Output(rest, picks[1..]);
      assert out == [(picks[0], streams[picks[0]][0])] + more;
      assert out[..k][0] == out[0] && out[..k][1..] == more[..k - 1];
      NoneIsLater(rest, picks[1..], k - 1, j, h);
    }
  }

  // ---------- the loop over the heap ----------

  /** The accessor and the rest of the stream travel with the next event. */
  datatype HeapEntry = HeapEntry(nextEvent: Event, acc: nat, stream: seq<Event>)

  /** The heap holds an entry for every stream that is not exhausted. */
  ghost predicate Holds(heap: set<HeapEntry>, rest: Streams) {
    forall e :: e in heap <==>
      e.acc < |rest| && rest[e.acc] != [] && e.nextEvent == rest[e.acc][0] && e.stream == rest[e.acc][1..]
  }

  lemma {:induction false} SomeGreatest(heap: set<HeapEntry>)
    requires heap != {}
    ensures exists e :: e in heap && forall o :: o in heap ==> AtMost(o.nextEvent, e.nextEvent)
    decreases heap
  {
    var x :| x in heap;
    if heap - {x} == {} {
      assert heap == {x};
      assert forall o :: o in heap ==> AtMost(o.nextEvent, x.nextEvent);
    } else {
      SomeGreatest(heap - {x});
      var e :| e in heap - {x} && forall o :: o in heap - {x} ==> AtMost(o.nextEvent, e.nextEvent);
      var best := if AtMost(x.nextEvent, e.nextEvent) then e else x;
      assert forall o :: o in heap ==> o == x || o in heap - {x};
      assert best in heap && forall o :: o in heap ==> AtMost(o.nextEvent, best.nextEvent);
    }
  }

  lemma PickAppended(streams: Streams, picks: seq<nat>, i: nat)
    requires ValidPicks(streams, picks) && GreatestHead(After(streams, picks), i)
    ensures ValidPicks(streams, picks + [i])
    ensures After(streams, picks + [i]) == Advance(After(streams, picks), i)
    ensures Output(streams, picks + [i]) == Output(streams, picks) + [(i, After(streams, picks)[i][0])]
    decreases picks
  {
    if picks == [] {
      assert [] + [i] == [i] && [i][1..] == [];
    } else {
      assert (picks + [i])[1..] == picks[1..] + [i];
      PickAppended(Advance(streams, picks[0]), picks[1..], i);
    }
  }

  lemma HeadOfHeap(heap: set<HeapEntry>, rest: Streams, e: HeapEntry)
    requires Holds(heap, rest) && e in heap
    requires forall o :: o in heap ==> AtMost(o.nextEvent, e.nextEvent)
    ensures GreatestHead(rest, e.acc)
  {
    forall j | 0 <= j < |rest| && rest[j] != []
      ensures AtMost(rest[j][0], rest[e.acc][0])
    {
      assert HeapEntry(rest[j][0], j, rest[j][1..]) in heap;
    }
  }

  lemma HoldsAdvanced(heap: set<HeapEntry>, rest: Streams, e: HeapEntry)
    requires Holds(heap, rest) && e in heap
    ensures Holds(heap - {e} + (if e.stream == [] then {} else {HeapEntry(e.stream[0], e.acc, e.stream[1..])}),
                  Advance(rest, e.acc))
  {
  }

  lemma EmptyHeap(heap: set<HeapEntry>, rest: Streams)
    requires Holds(heap, rest) && heap == {}
    ensures Exhausted(rest)
  {
    forall i | 0 <= i < |rest|
      ensures rest[i] == []
    {
      var e := if rest[i] == [] then HeapEntry(Event(0, 0, 0), i, []) else HeapEntry(rest[i][0], i, rest[i][1..]);
      assert e !in heap;
    }
  }

  /** The background task over finite streams; ties may be resolved in any way. */
  method BackgroundTask(streams: Streams) returns (dispatched: seq<(nat, Event)>, ghost picks: seq<nat>)
    ensures Merges(streams, picks) && dispatched == Output(streams, picks)
    ensures forall i :: 0 <= i < |streams| ==> Through(dispatched, i) == streams[i]
    ensures |dispatched| == TotalLength(streams)
    ensures forall k, j, h ::
      0 <= k < |dispatched| && 0 <= j < |streams| && IsNext(streams, dispatched, k, j, h) ==>
        var d := dispatched[k].1;
        h.timestamp < d.timestamp || (h.timestamp == d.timestamp && h.tieBreak <= d.tieBreak)
  {
    var heap: set<HeapEntry> := {};
    for i := 0 to |streams|
      invariant forall e :: e in heap <==>
        e.acc < i && streams[e.acc] != [] && e.nextEvent == streams[e.acc][0] && e.stream == streams[e.acc][1..]
    {
      if streams[i] != [] {
        heap := heap + {HeapEntry(streams[i][0], i, streams[i][1..])};
      }
    }
    dispatched, picks := [], [];
    ghost var rest := streams;
    while heap != {}
      invariant ValidPicks(streams, picks) && rest == After(streams, picks)
      invariant dispatched == Output(streams, picks)
      invariant Holds(heap, rest)
      decreases TotalLength(rest)
    {
      SomeGreatest(heap);
      var e :| e in heap && forall o :: o in heap ==> AtMost(o.nextEvent, e.nextEvent);
      HeadOfHeap(heap, rest, e);
      PickAppended(streams, picks, e.acc);
      HoldsAdvanced(heap, rest, e);
      AdvanceShortens(rest, e.acc);
      heap := heap - {e};
      dispatched := dispatched + [(e.acc, e.nextEvent)];
      if e.stream != [] {
        heap := heap + {HeapEntry(e.stream[0], e.acc, e.stream[1..])};
      }
      picks := picks + [e.acc];
      rest := Advance(rest, e.acc);
    }
    EmptyHeap(heap, rest);
    forall i | 0 <= i < |streams|
      ensures Through(dispatched, i) == streams[i]
    {
      EveryStreamComesOut(streams, picks, i);
    }
    NothingElseComesOut(streams, picks);
    forall k, j, h | 0 <= k < |dispatched| && 0 <= j < |streams| && IsNext(streams, dispatched, k, j, h)
      ensures var d := dispatched[k].1;
        h.timestamp < d.timestamp || (h.timestamp == d.timestamp && h.tieBreak <= d.tieBreak)
    {
      NoneIsLater(streams, picks, k, j, h);
    }
  }

  // ---------- when the output is in chronological order ----------

  predicate AllSameKey(streams: Streams) {
    forall i, j, a, b :: 0 <= i < |streams| && 0 <= j < |streams| && 0 <= a < |streams[i]| && 0 <= b < |streams[j]|
      ==> SameKey(streams[i][a], streams[j][b])
  }

  predicate AtMostOneBusy(streams: Streams) {
    forall i, j :: 0 <= i < |streams| && 0 <= j < |streams| && streams[i] != [] && streams[j] != [] ==> i == j
  }

  /** Whatever way ties are resolved. */
  ghost predicate AlwaysChronological(streams: Streams) {
    forall picks :: Merges(streams, picks) ==> NonDecreasing(Events(Output(streams, picks)))
  }

  lemma {:induction false} Completion(streams: Streams) returns (picks: seq<nat>)
    ensures Merges(streams, picks)
    decreases TotalLength(streams)
  {
    if Exhausted(streams) {
      picks := [];
    } else {
      var heap := set i | 0 <= i < |streams| && streams[i] != [] :: HeapEntry(streams[i][0], i, streams[i][1..]);
      var i0 :| 0 <= i0 < |streams| && streams[i0] != [];
      assert HeapEntry(streams[i0][0], i0, streams[i0][1..]) in heap;
      SomeGreatest(heap);
      var e :| e in heap && forall o :: o in heap ==> AtMost(o.nextEvent, e.nextEvent);
      HeadOfHeap(heap, streams, e);
      AdvanceShortens(streams, e.acc);
      var more := Completion(Advance(streams, e.acc));
      picks := [e.acc] + more;
      assert picks[1..] == more;
    }
  }

  lemma {:induction false} ThroughMember(out: seq<(nat, Event)>, i: nat, e: Event) returns (k: nat)
    requires e in Through(out, i)
    ensures k < |out| && out[k] == (i, e)
  {
    if out[0] == (i, e) {
      k := 0;
    } else {
      var k' := ThroughMember(out[1..], i, e);
      k := k' + 1;
    }
  }

  /**
   * If a stream that may be picked first goes beyond the head of another one, some way of resolving
   * ties dispatches it first: that run is out of chronological order.
   */
  lemma {:induction false} OvertakingRun(streams: Streams, s: nat, t: nat, k: nat) returns (picks: seq<nat>)
    requires s < |streams| && t < |streams| && s != t && streams[t] != [] && k < |streams[s]|
    requires GreatestHead(streams, s) && NonDecreasing(streams[s])
    requires !AtMost(streams[s][k], streams[t][0])
    ensures Merges(streams, picks) && !NonDecreasing(Events(Output(streams, picks)))
    decreases k
  {
    var rest := Advance(streams, s);
    if k == 0 {
      var more := OvertakenNext(rest, t);
      picks := [s] + more;
      PickFirst(streams, s, more);
      var tail := Events(Output(rest, more));
      var at :| 0 <= at < |tail| && tail[at] == streams[t][0];
      assert Events(Output(streams, picks))[at + 1] == streams[t][0];
    } else {
      var more := OvertakingRun(rest, s, t, k - 1);
      picks := [s] + more;
      PickFirst(streams, s, more);
      DisorderStays(Events(Output(rest, more)), streams[s][0]);
    }
  }

  /** The head of stream `t` comes out some time. */
  lemma OvertakenNext(rest: Streams, t: nat) returns (more: seq<nat>)
    requires t < |rest| && rest[t] != []
    ensures Merges(rest, more) && rest[t][0] in Events(Output(rest, more))
  {
    more := Completion(rest);
    EveryStreamComesOut(rest, more, t);
    var at := ThroughMember(Output(rest, more), t, rest[t][0]);
    assert Events(Output(rest, more))[at] == rest[t][0];
  }

  lemma PickFirst(streams: Streams, s: nat, more: seq<nat>)
    requires GreatestHead(streams, s) && Merges(Advance(streams, s), more)
    ensures Merges(streams, [s] + more)
    ensures Events(Output(streams, [s] + more)) == [streams[s][0]] + Events(Output(Advance(streams, s), more))
  {
    var picks := [s] + more;
    assert picks[1..] == more;
    var out := Output(Advance(streams, s), more);
    assert ([(s, streams[s][0])] + out)[1..] == out;
  }

  lemma DisorderStays(tail: seq<Event>, head: Event)
    requires !NonDecreasing(tail)
    ensures !NonDecreasing([head] + tail)
  {
    var a, b :| 0 <= a < b < |tail| && !AtMost(tail[a], tail[b]);
    var out := [head] + tail;
    assert out[a + 1] == tail[a] && out[b + 1] == tail[b];
    if NonDecreasing(out) {
      assert AtMost(out[a + 1], out[b + 1]);
    }
  }

  lemma {:induction false} LoneStreamComesOut(streams: Streams, picks: seq<nat>)
    requires Merges(streams, picks) && AtMostOneBusy(streams)
    requires forall i :: 0 <= i < |streams| ==> NonDecreasing(streams[i])
    ensures NonDecreasing(Events(Output(streams, picks)))
    ensures forall i :: 0 <= i < |streams| && streams[i] != [] ==> Events(Output(streams, picks)) == streams[i]
    decreases picks
  {
    if picks != [] {
      var i := picks[0];
      var rest := Advance(streams, i);
      assert NonDecreasing(streams[i]);
      LoneStreamComesOut(rest, picks[1..]);
      if rest[i] == [] {
        assert Exhausted(rest);
        EmptyStreams(rest);
        NothingElseComesOut(rest, picks[1..]);
      }
      assert Events(Output(streams, picks)) == streams[i];
    }
  }

  lemma {:induction false} OutputFromStreams(streams: Streams, picks: seq<nat>, k: nat)
    requires ValidPicks(streams, picks) && k < |picks|
    ensures exists i, a ::
      (0 <= i < |streams| && 0 <= a < |streams[i]| && streams[i][a] == Events(Output(streams, picks))[k])
    decreases picks
  {
    if k == 0 {
      assert streams[picks[0]][0] == Events(Output(streams, picks))[0];
    } else {
      var rest := Advance(streams, picks[0]);
      OutputFromStreams(rest, picks[1..], k - 1);
      var i, a :| 0 <= i < |rest| && 0 <= a < |rest[i]| && rest[i][a] == Events(Output(rest, picks[1..]))[k - 1];
      var b := if i == picks[0] then a + 1 else a;
      assert streams[i][b] == Events(Output(streams, picks))[k];
    }
  }

  /**
   * For streams that are each in chronological order, the replay is in chronological order whatever
   * way ties are resolved if and only if at most one stream has events, or all events have one key.
   */
  lemma ChronologicalIff(streams: Streams)
    requires forall i :: 0 <= i < |streams| ==> NonDecreasing(streams[i])
    ensures AlwaysChronological(streams) <==> AtMostOneBusy(streams) || AllSameKey(streams)
  {
    if AtMostOneBusy(streams) || AllSameKey(streams) {
      forall picks | Merges(streams, picks)
        ensures NonDecreasing(Events(Output(streams, picks)))
      {
        if AtMostOneBusy(streams) {
          LoneStreamComesOut(streams, picks);
        } else {
          SameKeyIsChronological(streams, picks);
        }
      }
    } else {
      var picks := DisorderedRun(streams);
    }
  }

  lemma SameKeyIsChronological(streams: Streams, picks: seq<nat>)
    requires Merges(streams, picks) && AllSameKey(streams)
    ensures NonDecreasing(Events(Output(streams, picks)))
  {
    var out := Events(Output(streams, picks));
    forall a, b | 0 <= a < b < |out|
      ensures AtMost(out[a], out[b])
    {
      OutputFromStreams(streams, picks, a);
      OutputFromStreams(streams, picks, b);
    }
  }

  lemma DisorderedRun(streams: Streams) returns (picks: seq<nat>)
    requires forall i :: 0 <= i < |streams| ==> NonDecreasing(streams[i])
    requires !AtMostOneBusy(streams) && !AllSameKey(streams)
    ensures Merges(streams, picks) && !NonDecreasing(Events(Output(streams, picks)))
  {
    var first := Completion(streams);
    var i, j :| 0 <= i < |streams| && 0 <= j < |streams| && streams[i] != [] && streams[j] != [] && i != j;
    assert first != [];
    var g := first[0];
    if h :| 0 <= h < |streams| && streams[h] != [] && !SameKey(streams[h][0], streams[g][0]) {
      picks := OvertakingRun(streams, g, h, 0);
    } else {
      var s, k := BeyondHeads(streams, g);
      var t := if s == i then j else i;
      assert AtMost(streams[s][0], streams[g][0]) && AtMost(streams[g][0], streams[s][0]);
      picks := OvertakingRun(streams, s, t, k);
    }
  }

  /** If all heads have one key but not all events do, some stream goes beyond it. */
  lemma BeyondHeads(streams: Streams, g: nat) returns (s: nat, k: nat)
    requires g < |streams| && streams[g] != [] && !AllSameKey(streams)
    requires forall i :: 0 <= i < |streams| ==> NonDecreasing(streams[i])
    requires forall h :: 0 <= h < |streams| && streams[h] != [] ==> SameKey(streams[h][0], streams[g][0])
    ensures s < |streams| && k < |streams[s]| && !AtMost(streams[s][k], streams[g][0])
  {
    var i, j, a, b :| 0 <= i < |streams| && 0 <= j < |streams| && 0 <= a < |streams[i]| && 0 <= b < |streams[j]|
      && !SameKey(streams[i][a], streams[j][b]);
    assert NonDecreasing(streams[i]) && NonDecreasing(streams[j]);
    assert AtMost(streams[i][0], streams[i][a]) && AtMost(streams[j][0], streams[j][b]);
    if !SameKey(streams[i][a], streams[g][0]) {
      s, k := i, a;
    } else {
      s, k := j, b;
    }
  }
}
