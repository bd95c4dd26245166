/**
 * Configurations in which no woken context ever sends to another one: each message comes from an
 * accessor whose drop notice follows it, so that no message is the last thing to be settled.
 */
module LocalRuns {
  import opened Sums
  import opened Messages
  import opened Protocol
  import opened Invariant
  import opened InvariantSteps
  import opened Delivery
  import opened DeliverySteps
  import opened CleanStop
  import opened Runs
  import opened Confinement
  import opened Rerouting
  import opened Shutdown

  /** The set is closed, and its contexts send nothing to each other either. */
  predicate LocalOnly(c: Config, h: set<nat>) {
    Closed(Unrouted(c), h)
  }

  lemma NothingGoesOut(c: Config, h: set<nat>, u: nat, batch: seq<Send>)
    ensures batch != [] ==> exists x :: x in batch && !RemoteWithin(Unrouted(c), h, u, x)
  {
    if batch != [] {
      assert batch[0] in batch && !RemoteWithin(Unrouted(c), h, u, batch[0]);
    }
  }

  lemma NobodyFlushes(c: Config, h: set<nat>, s: State, i: nat)
    requires Sound(Unrouted(c), s) && History(Unrouted(c), s) && Confined(Unrouted(c), h, s) && i < |s.threads|
    ensures !s.threads[i].phase.Flushing?
  {
    var t := s.threads[i];
    assert ThreadShape(t) && ThreadHistory(t) && ThreadWithin(Unrouted(c), h, i, t);
    if t.phase.Flushing? {
      NothingGoesOut(c, h, i, t.phase.batch);
      assert false;
    }
  }

  // ---------- a message is followed by a drop notice ----------

  predicate Trailing(items: seq<Item>) {
    forall p :: 0 <= p < |items| && items[p].Event? ==> AccessorDropped in items[p + 1..]
  }

  predicate HandlesMessage(p: Phase) {
    p.Handling? || p.Draining?
  }

  /** Behind every message that waits or is being handled at `j` comes a notice, or will. */
  predicate Owed(s: State, j: nat) {
    j < |s.threads| ==>
      || HasLiveAccessor(s, j)
      || (Trailing(s.threads[j].inbox)
          && (HandlesMessage(s.threads[j].phase) ==> AccessorDropped in s.threads[j].inbox))
  }

  lemma TrailingMore(items: seq<Item>, item: Item)
    requires Trailing(items) && !item.Event?
    ensures Trailing(items + [item])
  {
    var more := items + [item];
    forall p | 0 <= p < |more| && more[p].Event?
      ensures AccessorDropped in more[p + 1..]
    {
      assert more[p + 1..] == items[p + 1..] + [item];
    }
  }

  lemma NoticeTrails(items: seq<Item>)
    ensures Trailing(items + [AccessorDropped])
  {
    var more := items + [AccessorDropped];
    forall p | 0 <= p < |more| && more[p].Event?
      ensures AccessorDropped in more[p + 1..]
    {
      assert more[p + 1..][|items| - p - 1] == AccessorDropped;
    }
  }

  lemma TrailingRest(items: seq<Item>)
    requires Trailing(items) && items != []
    ensures Trailing(items[1..]) && (items[0].Event? ==> AccessorDropped in items[1..])
  {
    forall p | 0 <= p < |items| - 1 && items[1..][p].Event?
      ensures AccessorDropped in items[1..][p + 1..]
    {
      assert items[1..][p + 1..] == items[p + 1 + 1..];
    }
  }

  lemma LiveAccessorKept(c: Config, s: State, i: nat, j: nat)
    requires ThreadEnabled(s, i) && HasLiveAccessor(s, j)
    ensures HasLiveAccessor(ThreadStep(c, s, i), j)
  {
    AccessorsFrame(c, s, i);
    var k :| 0 <= k < |s.accessors| && s.accessors[k].dest == j && !s.accessors[k].stage.Dropped?;
    assert ThreadStep(c, s, i).accessors[k] == s.accessors[k];
  }

  /** To another thread a step that is no flush adds at most a Stop. */
  lemma OtherOwed(c: Config, s: State, i: nat, j: nat)
    requires ThreadEnabled(s, i) && !s.threads[i].phase.Flushing? && i != j && j < |s.threads|
    requires Trailing(s.threads[j].inbox)
    requires HandlesMessage(s.threads[j].phase) ==> AccessorDropped in s.threads[j].inbox
    ensures Owed(ThreadStep(c, s, i), j)
  {
    ThreadFrame(c, s, i, j);
    var t, t' := s.threads[j], ThreadStep(c, s, i).threads[j];
    TrailingMore(t.inbox, Stop);
    StopAtMost(c, s, i, j);
  }

  lemma StopAtMost(c: Config, s: State, i: nat, j: nat)
    requires ThreadEnabled(s, i) && !s.threads[i].phase.Flushing? && i != j && j < |s.threads|
    ensures |ThreadStep(c, s, i).threads| == |s.threads|
    ensures var t, t' := s.threads[j], ThreadStep(c, s, i).threads[j];
      t' == t || t' == t.(inbox := t.inbox + [Stop])
  {
  }

  lemma OwnOwed(c: Config, s: State, i: nat)
    requires ThreadEnabled(s, i) && !s.threads[i].phase.Flushing?
    requires Trailing(s.threads[i].inbox)
    requires HandlesMessage(s.threads[i].phase) ==> AccessorDropped in s.threads[i].inbox
    ensures Owed(ThreadStep(c, s, i), i)
  {
    if s.threads[i].phase.Waiting? && s.threads[i].inbox != [] {
      ReceiveOwed(s, i);
    } else {
      OwnInboxKept(c, s, i);
    }
  }

  lemma ReceiveOwed(s: State, i: nat)
    requires ThreadEnabled(s, i) && s.threads[i].phase.Waiting? && s.threads[i].inbox != []
    requires Trailing(s.threads[i].inbox)
    ensures Owed(ReceiveStep(s, i), i)
  {
    TrailingRest(s.threads[i].inbox);
  }

  lemma OwnInboxKept(c: Config, s: State, i: nat)
    requires ThreadEnabled(s, i) && !s.threads[i].phase.Flushing?
    requires s.threads[i].phase.Waiting? ==> s.threads[i].inbox == []
    ensures |ThreadStep(c, s, i).threads| == |s.threads|
    ensures ThreadStep(c, s, i).threads[i].inbox == s.threads[i].inbox
    ensures ThreadStep(c, s, i).threads[i].handledAny == s.threads[i].handledAny
    ensures HandlesMessage(ThreadStep(c, s, i).threads[i].phase) ==> HandlesMessage(s.threads[i].phase)
  {
    if s.threads[i].phase.Stopping? {
      StopKeepsOwnInbox(s, i, s.threads[i].phase.next, s.threads[i].phase.thenFree);
    } else {
      assert |ThreadStep(c, s, i).threads| == |s.threads|;
    }
  }

  lemma StopKeepsOwnInbox(s: State, i: nat, next: nat, thenFree: bool)
    requires i < |s.threads| && s.threads[i].phase == Stopping(next, thenFree)
    ensures |StopStep(s, i, next, thenFree).threads| == |s.threads|
    ensures var t := StopStep(s, i, next, thenFree).threads[i];
      && t.inbox == s.threads[i].inbox && t.handledAny == s.threads[i].handledAny && !HandlesMessage(t.phase)
  {
  }

  lemma ThreadStepOwed(c: Config, s: State, i: nat, j: nat)
    requires ThreadEnabled(s, i) && !s.threads[i].phase.Flushing? && Owed(s, j) && j < |s.threads|
    ensures Owed(ThreadStep(c, s, i), j)
  {
    if HasLiveAccessor(s, j) {
      LiveAccessorKept(c, s, i, j);
    } else if i == j {
      OwnOwed(c, s, i);
    } else {
      OtherOwed(c, s, i, j);
    }
  }

  lemma AccessorStepOwed(s: State, k: nat, j: nat)
    requires AccessorEnabled(s, k) && Owed(s, j) && j < |s.threads|
    requires !AccessorStep(s, k).fault.SendToExited?
    ensures Owed(AccessorStep(s, k), j)
  {
    var a, s' := s.accessors[k], AccessorStep(s, k);
    if a.todo != [] {
      AccessorsStayAlive(s, k, j);
      if a.dest == j {
        assert s'.accessors[k].dest == j && !s'.accessors[k].stage.Dropped?;
      }
    } else if a.dest == j {
      NoticeTrails(s.threads[j].inbox);
    } else if x :| 0 <= x < |s.accessors| && s.accessors[x].dest == j && !s.accessors[x].stage.Dropped? {
      assert s'.accessors[x] == s.accessors[x];
    }
  }

  lemma AccessorsStayAlive(s: State, k: nat, j: nat)
    requires AccessorEnabled(s, k) && s.accessors[k].todo != []
    ensures HasLiveAccessor(s, j) ==> HasLiveAccessor(AccessorStep(s, k), j)
  {
    if x :| 0 <= x < |s.accessors| && s.accessors[x].dest == j && !s.accessors[x].stage.Dropped? {
      var s' := AccessorStep(s, k);
      assert s'.accessors[x].dest == j && !s'.accessors[x].stage.Dropped?;
    }
  }

  /** What is owed is a token besides that of the message being settled. */
  lemma OwedIsAnotherToken(s: State, i: nat)
    requires Inv(s) && i < |s.threads| && s.threads[i].phase.Draining? && Owed(s, i)
    ensures s.counter > 1
  {
    SumBound(ThreadTokens, s.threads, i);
    if k :| 0 <= k < |s.accessors| && s.accessors[k].dest == i && !s.accessors[k].stage.Dropped? {
      SumBound(AccessorTokens, s.accessors, k);
    } else {
      NoticeIsToken(s.threads[i].inbox);
    }
  }

  ghost predicate AllOwed(s: State) {
    forall j: nat :: Owed(s, j)
  }

  lemma StepOwed(c: Config, h: set<nat>, s: State, a: Action)
    requires Sound(Unrouted(c), s) && History(Unrouted(c), s) && Confined(Unrouted(c), h, s) && AllOwed(s)
    requires Enabled(s, a) && !BySettling(s.last)
    ensures AllOwed(Apply(Unrouted(c), s, a)) && !BySettling(Apply(Unrouted(c), s, a).last)
  {
    var c0 := Unrouted(c);
    StepSound(c0, s, a);
    StepKeepsContexts(c0, s, a);
    forall j: nat | j < |s.threads|
      ensures Owed(Apply(c0, s, a), j)
    {
      assert Owed(s, j);
      match a
      case ThreadMoves(i) =>
        NobodyFlushes(c, h, s, i);
        ThreadStepOwed(c0, s, i, j);
      case AccessorMoves(k) => AccessorStepOwed(s, k, j);
    }
    SettleStepRecorded(c0, s, a);
    if LastSettle(s, a) {
      OwedIsAnotherToken(s, a.i);
    }
  }

  lemma {:induction false} RunOwed(c: Config, h: set<nat>, s: State, run: seq<Action>, s': State)
    requires Sound(Unrouted(c), s) && History(Unrouted(c), s) && Confined(Unrouted(c), h, s) && AllOwed(s)
    requires |s.threads| == |c.scripts| && !BySettling(s.last) && Reaches(Unrouted(c), s, run, s')
    ensures !BySettling(s'.last)
    decreases run
  {
    if run != [] {
      var c0 := Unrouted(c);
      StepSound(c0, s, run[0]);
      StepKeepsContexts(c0, s, run[0]);
      StepHistory(c0, s, run[0]);
      StepConfined(c0, h, s, run[0]);
      StepOwed(c, h, s, run[0]);
      RunOwed(c, h, Apply(c0, s, run[0]), run[1..], s');
    }
  }

  /** If no woken context sends to another one, no run settles a message last. */
  lemma LocalOnlyNeverSettlesLast(c: Config, h: set<nat>, s: State)
    requires c.scripts != [] && LocalOnly(c, h) && Reachable(c, s)
    ensures !BySettling(s.last)
  {
    ReachableIfClosed(c, Unrouted(c), h, s);
    var run :| Reaches(Unrouted(c), Initial(Unrouted(c)), run, s);
    InitialSound(Unrouted(c));
    InitialHistory(Unrouted(c));
    InitialConfined(Unrouted(c), h);
    RunOwed(c, h, Initial(Unrouted(c)), run, s);
  }
}
