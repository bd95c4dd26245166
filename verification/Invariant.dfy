/** What every step of every interleaving keeps: the counter counts tokens, and the end is orderly. */
module Invariant {
  import opened Sums
  import opened Links
  import opened Protocol

  // ---------- tokens ----------

  function ItemTokens(item: Item): nat {
    if item.Stop? then 0 else 1
  }

  /** One for a context that has not detached, one for what it is handling, one per unflushed send. */
  function PhaseTokens(p: Phase): nat {
    match p
    case Initialising(_) | DrainingInit | Handling(_) | Draining | HandlingDrop => 1
    case Flushing(batch) => |batch|
    case FreeingOnDetach | Waiting | Stopping(_, _) | FreeingLast | Exited => 0
  }

  function ThreadTokens(t: Thread): nat {
    Sum(ItemTokens, t.inbox) + PhaseTokens(t.phase)
  }

  /** One for being alive, one more for a send that has counted but not yet pushed. */
  function AccessorTokens(a: Accessor): nat {
    match a.stage
    case Idle => 1
    case Counted => 2
    case Dropped => 0
  }

  function Tokens(s: State): nat {
    Sum(ThreadTokens, s.threads) + Sum(AccessorTokens, s.accessors)
  }

  // ---------- the invariant ----------

  predicate ThreadShape(t: Thread) {
    && (t.local != [] ==> t.phase.Initialising? || t.phase.DrainingInit? || t.phase.Draining?)
    && (t.phase.Initialising? || t.phase.DrainingInit? ==> t.received == [] && !t.handledAny)
    && (t.phase.Flushing? ==> t.phase.batch != [])
  }

  predicate AccessorShape(n: nat, a: Accessor) {
    a.dest < n && (a.stage.Counted? ==> a.todo != []) && (a.stage.Dropped? ==> a.todo == [])
  }

  /** A thread while the counter is positive. */
  predicate Live(t: Thread) {
    && !(t.phase.FreeingOnDetach? || t.phase.Stopping? || t.phase.FreeingLast? || t.phase.Exited?)
    && Stop !in t.inbox
  }

  predicate Running(s: State) {
    && s.last.NotYet? && !s.freed
    && forall j :: 0 <= j < |s.threads| ==> Live(s.threads[j])
  }

  predicate AtRest(t: Thread) {
    t.phase.Waiting? && t.inbox == []
  }

  /** A context the Stop has been sent to: it has yet to take it, or has taken it and exited. */
  predicate Told(t: Thread) {
    (t.phase.Waiting? && t.inbox == [Stop]) || (t.phase.Exited? && t.inbox == [])
  }

  function StopsSent(n: nat, p: Phase): nat
    requires n > 0
  {
    if p.Stopping? then p.next else n - 1
  }

  predicate StoppedBy(s: State, i: nat, viaDrop: bool) {
    && i < |s.threads|
    && var t := s.threads[i];
    && t.inbox == []
    && ((t.phase.Stopping? && t.phase.next < |s.threads| && t.phase.thenFree == viaDrop)
        || (t.phase.FreeingLast? && viaDrop) || t.phase.Exited?)
    && (s.freed <==> viaDrop && t.phase.Exited?)
    && forall j :: 0 <= j < |s.threads| && j != i ==>
         if IntendedLink(i, j) < StopsSent(|s.threads|, t.phase) then Told(s.threads[j])
         else AtRest(s.threads[j])
  }

  predicate DetachedBy(s: State, i: nat) {
    && i < |s.threads|
    && s.threads[i].inbox == []
    && (s.threads[i].phase.Waiting? || s.threads[i].phase.FreeingOnDetach?)
    && (s.freed <==> s.threads[i].phase.Waiting?)
    && forall j :: 0 <= j < |s.threads| && j != i ==> AtRest(s.threads[j])
  }

  predicate Over(s: State) {
    match s.last
    case NotYet => false
    case ByDetach(i) => DetachedBy(s, i)
    case ByHandler(i, viaDrop) => StoppedBy(s, i, viaDrop)
  }

  predicate Inv(s: State) {
    && |s.threads| > 0
    && s.counter == Tokens(s)
    && (forall j :: 0 <= j < |s.threads| ==> ThreadShape(s.threads[j]))
    && (forall k :: 0 <= k < |s.accessors| ==> AccessorShape(|s.threads|, s.accessors[k]))
    && (if s.counter > 0 then Running(s) else Over(s))
  }

  /** The faults that remain possible: a bad index, or the lone context whose detach came last. */
  predicate AllowedFault(c: Config, s: State) {
    match s.fault
    case NoFault => true
    case BadLink(i, d) => !InTable(|s.threads|, c.route(i, d))
    case BadAccessorContext(d) => d >= |s.threads|
    case ReceiveDisconnected(i) => |s.threads| == 1 && i == 0 && s.last == ByDetach(0) && AtRest(s.threads[0])
    case BlockUsedAfterFree | BlockFreedTwice | SendToExited => false
  }

  ghost predicate Sound(c: Config, s: State) {
    Inv(s) && AllowedFault(c, s)
  }

  // ---------- token bookkeeping ----------

  lemma TokensPut(s: State, i: nat, t: Thread)
    requires i < |s.threads|
    ensures Tokens(s.Put(i, t)) == Tokens(s) - ThreadTokens(s.threads[i]) + ThreadTokens(t)
  {
    SumUpdate(ThreadTokens, s.threads, i, t);
  }

  lemma TokensPush(t: Thread, item: Item)
    ensures ThreadTokens(t.(inbox := t.inbox + [item])) == ThreadTokens(t) + ItemTokens(item)
  {
    SumAppend(ItemTokens, t.inbox, item);
  }

  lemma {:induction false} OnlyStopsLeft(inbox: seq<Item>)
    requires Sum(ItemTokens, inbox) == 0
    ensures forall x :: 0 <= x < |inbox| ==> inbox[x] == Stop
  {
    if inbox != [] {
      OnlyStopsLeft(inbox[1..]);
    }
  }

  lemma RestingThread(t: Thread)
    requires Live(t) && ThreadTokens(t) == 0
    requires ThreadShape(t)
    ensures AtRest(t)
  {
    OnlyStopsLeft(t.inbox);
  }

  /** When one token is left and `i` holds it, nobody else holds any. */
  lemma LastToken(s: State, i: nat)
    requires i < |s.threads| && Tokens(s) == 1 && ThreadTokens(s.threads[i]) > 0
    ensures ThreadTokens(s.threads[i]) == 1
    ensures forall j :: 0 <= j < |s.threads| && j != i ==> ThreadTokens(s.threads[j]) == 0
    ensures forall k :: 0 <= k < |s.accessors| ==> AccessorTokens(s.accessors[k]) == 0
  {
    SumBound(ThreadTokens, s.threads, i);
    SumZero(AccessorTokens, s.accessors);
    forall j | 0 <= j < |s.threads| && j != i
      ensures ThreadTokens(s.threads[j]) == 0
    {
      if j < i {
        SumBoundPair(ThreadTokens, s.threads, j, i);
      } else {
        SumBoundPair(ThreadTokens, s.threads, i, j);
      }
    }
  }
}
