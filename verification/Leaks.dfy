/**
 * Which configurations can leak the counter block? Exactly those that never miss a table and in which
 * some woken context sends a message to another one: then all drop notices can be taken before it is.
 */
module Leaks {
  import opened Sequences
  import opened Sums
  import opened Messages
  import opened Links
  import opened Protocol
  import opened Invariant
  import opened InvariantSteps
  import opened Termination
  import opened Delivery
  import opened DeliverySteps
  import opened Addressing
  import opened CleanStop
  import opened Runs
  import opened Confinement
  import opened Routing
  import opened Rerouting
  import opened Shutdown
  import opened Waking
  import opened LocalRuns
  import opened Outsiders

  // ---------- runs in which nothing is ever pushed from one context to another ----------

  ghost predicate NothingPushed(s: State) {
    forall i :: 0 <= i < |s.threads| ==> s.threads[i].pushed == []
  }

  /** If a run reaches zero with nothing pushed, no woken context has anything to send to another. */
  lemma QuietEnd(c: Config, s: State)
    requires c.scripts != [] && Reachable(c, s) && s.counter == 0 && NothingPushed(s)
    ensures exists h :: LocalOnly(c, h)
  {
    ReachableByFewer(c, Unrouted(c), s);
    AwakeIsLeastClosed(Unrouted(c), s);
    assert LocalOnly(c, Awake(s));
  }

  // ---------- a schedule that takes all notices before any message between contexts ----------

  predicate IsSent(item: Item) {
    item.Event? && item.from.Context?
  }

  predicate NoneSent(items: seq<Item>) {
    forall p :: 0 <= p < |items| ==> !IsSent(items[p])
  }

  /** No drop notice waits behind a message from another context. */
  predicate NoticesFirst(items: seq<Item>) {
    forall p, q :: 0 <= p < q < |items| && IsSent(items[p]) ==> items[q] != AccessorDropped
  }

  /** No accessor is alive or yet to be created. */
  predicate AccessorsGone(s: State) {
    && (forall k :: 0 <= k < |s.accessors| ==> s.accessors[k].stage.Dropped?)
    && (forall i :: 0 <= i < |s.threads| ==> !s.threads[i].phase.Initialising?)
  }

  predicate Unmoved(t: Thread) {
    !t.handledAny && NoneSent(t.inbox)
  }

  /** Nothing is taken from a queue before the accessors are gone, nor unless it still holds a notice. */
  predicate MayReceive(s: State, i: nat)
    requires i < |s.threads|
  {
    AccessorsGone(s) && AccessorDropped in s.threads[i].inbox
  }

  predicate HeldBack(s: State, a: Action) {
    && a.ThreadMoves? && a.i < |s.threads|
    && ((s.threads[a.i].phase.Waiting? && !MayReceive(s, a.i)) || LastDetach(s, a))
  }

  /** While accessors remain nobody has handled anything; afterwards the notices are in front. */
  predicate Steady(s: State) {
    if AccessorsGone(s) then forall j :: 0 <= j < |s.threads| ==> NoticesFirst(s.threads[j].inbox)
    else forall j :: 0 <= j < |s.threads| ==> Unmoved(s.threads[j])
  }

  predicate SomeSent(s: State) {
    exists j :: 0 <= j < |s.threads| && !NoneSent(s.threads[j].inbox)
  }

  lemma NoneSentMore(items: seq<Item>, item: Item)
    requires NoneSent(items) && !IsSent(item)
    ensures NoneSent(items + [item])
  {
  }

  lemma NoticesFirstMore(items: seq<Item>, item: Item)
    requires NoticesFirst(items) && item != AccessorDropped
    ensures NoticesFirst(items + [item])
  {
  }

  /** With a notice behind it the head is no message from another context. */
  lemma HeadIsNotSent(items: seq<Item>)
    requires NoticesFirst(items) && AccessorDropped in items
    ensures items != [] && !IsSent(items[0]) && NoticesFirst(items[1..])
    ensures NoneSent(items[1..]) ==> NoneSent(items)
  {
    var q :| 0 <= q < |items| && items[q] == AccessorDropped;
    if NoneSent(items[1..]) {
      forall p | 0 <= p < |items|
        ensures !IsSent(items[p])
      {
        if p > 0 {
          assert items[1..][p - 1] == items[p];
        }
      }
    }
  }

  lemma EarlyThreadStep(c: Config, s: State, i: nat, j: nat)
    requires ThreadEnabled(s, i) && !s.threads[i].phase.Flushing? && !s.threads[i].phase.Waiting?
    requires j < |s.threads| && Unmoved(s.threads[j])
    ensures |ThreadStep(c, s, i).threads| == |s.threads| && Unmoved(ThreadStep(c, s, i).threads[j])
  {
    if i == j {
      OwnInboxKept(c, s, i);
    } else {
      StopAtMost(c, s, i, j);
      NoneSentMore(s.threads[j].inbox, Stop);
    }
  }

  lemma EarlyAccessorStep(s: State, k: nat, j: nat)
    requires AccessorEnabled(s, k) && j < |s.threads| && Unmoved(s.threads[j])
    ensures |AccessorStep(s, k).threads| == |s.threads| && Unmoved(AccessorStep(s, k).threads[j])
  {
    var a := s.accessors[k];
    NoneSentMore(s.threads[j].inbox, AccessorDropped);
    if a.todo != [] {
      NoneSentMore(s.threads[j].inbox, Event(a.todo[0], Outside(k)));
    }
  }

  lemma NoneSentIsNoticesFirst(items: seq<Item>)
    requires NoneSent(items)
    ensures NoticesFirst(items)
  {
  }

  lemma EarlyStep(c: Config, s: State, a: Action)
    requires History(c, s) && Enabled(s, a) && !HeldBack(s, a) && !AccessorsGone(s) && Steady(s)
    ensures forall j :: 0 <= j < |Apply(c, s, a).threads| ==> Unmoved(Apply(c, s, a).threads[j])
    ensures Steady(Apply(c, s, a))
  {
    StepKeepsContexts(c, s, a);
    var s' := Apply(c, s, a);
    forall j | 0 <= j < |s.threads|
      ensures Unmoved(s'.threads[j]) && NoticesFirst(s'.threads[j].inbox)
    {
      match a {
        case ThreadMoves(i) =>
          assert Unmoved(s.threads[i]) && ThreadHistory(s.threads[i]);
          EarlyThreadStep(c, s, i, j);
        case AccessorMoves(k) => EarlyAccessorStep(s, k, j);
      }
      NoneSentIsNoticesFirst(s'.threads[j].inbox);
    }
  }

  lemma GoneForGood(c: Config, s: State, i: nat)
    requires ThreadEnabled(s, i) && AccessorsGone(s)
    ensures AccessorsGone(ThreadStep(c, s, i))
  {
    OthersCreateNone(c, s, i);
    forall j | 0 <= j < |s.threads|
      ensures |ThreadStep(c, s, i).threads| == |s.threads| && !ThreadStep(c, s, i).threads[j].phase.Initialising?
    {
      if i == j {
        OwnFrame(c, s, i);
      } else {
        ThreadFrame(c, s, i, j);
      }
    }
  }

  /** What a thread pushes to another one is no notice. */
  ghost predicate OneMoreAtMost(t: Thread, t': Thread) {
    t' == t || exists item :: item != AccessorDropped && t' == t.(inbox := t.inbox + [item])
  }

  lemma NoNoticePushed(c: Config, s: State, i: nat, j: nat)
    requires ThreadEnabled(s, i) && j < |s.threads| && i != j
    ensures |ThreadStep(c, s, i).threads| == |s.threads|
    ensures OneMoreAtMost(s.threads[j], ThreadStep(c, s, i).threads[j])
  {
    if s.threads[i].phase.Flushing? {
      FlushedAtMost(c, s, i, s.threads[i].phase.batch, j);
    } else {
      StopAtMost(c, s, i, j);
    }
  }

  lemma FlushedAtMost(c: Config, s: State, i: nat, batch: seq<Send>, j: nat)
    requires i < |s.threads| && s.threads[i].phase == Flushing(batch) && j < |s.threads| && i != j
    ensures |FlushStep(c, s, i, batch).threads| == |s.threads|
    ensures OneMoreAtMost(s.threads[j], FlushStep(c, s, i, batch).threads[j])
  {
    var t' := FlushStep(c, s, i, batch).threads[j];
    if t' != s.threads[j] {
      assert t' == s.threads[j].(inbox := s.threads[j].inbox + [Event(batch[0].msg, Context(i))]);
    }
  }

  lemma LateThreadStep(c: Config, s: State, i: nat, j: nat)
    requires ThreadEnabled(s, i) && !HeldBack(s, ThreadMoves(i)) && j < |s.threads|
    requires AccessorsGone(s) && NoticesFirst(s.threads[j].inbox)
    ensures |ThreadStep(c, s, i).threads| == |s.threads|
    ensures NoticesFirst(ThreadStep(c, s, i).threads[j].inbox)
    ensures NoneSent(ThreadStep(c, s, i).threads[j].inbox) ==> NoneSent(s.threads[j].inbox)
  {
    var t := s.threads[j];
    if i != j {
      NoNoticePushed(c, s, i, j);
      var t' := ThreadStep(c, s, i).threads[j];
      if t' != t {
        var item :| item != AccessorDropped && t' == t.(inbox := t.inbox + [item]);
        NoticesFirstMore(t.inbox, item);
        assert forall p :: 0 <= p < |t.inbox| ==> t'.inbox[p] == t.inbox[p];
      }
    } else if t.phase.Waiting? {
      HeadIsNotSent(t.inbox);
    } else if t.phase.Flushing? {
      FlushKeepsOwnInbox(c, s, i, t.phase.batch);
    } else {
      OwnInboxKept(c, s, i);
    }
  }

  lemma FlushKeepsOwnInbox(c: Config, s: State, i: nat, batch: seq<Send>)
    requires i < |s.threads| && s.threads[i].phase == Flushing(batch)
    ensures |FlushStep(c, s, i, batch).threads| == |s.threads|
    ensures FlushStep(c, s, i, batch).threads[i].inbox == s.threads[i].inbox
  {
  }

  lemma LateStep(c: Config, s: State, a: Action)
    requires Enabled(s, a) && !HeldBack(s, a) && AccessorsGone(s) && Steady(s)
    ensures a.ThreadMoves? && Steady(Apply(c, s, a)) && (SomeSent(s) ==> SomeSent(Apply(c, s, a)))
  {
    assert a.ThreadMoves?;
    StepKeepsContexts(c, s, a);
    GoneForGood(c, s, a.i);
    var s' := Apply(c, s, a);
    forall j | 0 <= j < |s.threads|
      ensures NoticesFirst(s'.threads[j].inbox)
      ensures NoneSent(s'.threads[j].inbox) ==> NoneSent(s.threads[j].inbox)
    {
      LateThreadStep(c, s, a.i, j);
    }
  }

  /** Whatever has been pushed from one context to another still waits. */
  predicate SentStillWaits(s: State) {
    (forall i :: 0 <= i < |s.threads| ==> s.threads[i].pushed == []) || SomeSent(s)
  }

  lemma FlushSends(c: Config, s: State, i: nat, batch: seq<Send>)
    requires i < |s.threads| && s.threads[i].phase == Flushing(batch) && batch != [] && s.fault.NoFault?
    requires FlushStep(c, s, i, batch).fault.NoFault?
    ensures SomeSent(FlushStep(c, s, i, batch))
  {
    var s' := FlushStep(c, s, i, batch);
    var j := LinkTarget(i, c.route(i, batch[0].dest));
    var inbox := s.threads[j].inbox;
    assert s'.threads[j].inbox == inbox + [Event(batch[0].msg, Context(i))];
    assert IsSent(s'.threads[j].inbox[|inbox|]);
  }

  lemma StepSentStillWaits(c: Config, s: State, a: Action)
    requires Inv(s) && History(c, s) && Enabled(s, a) && !HeldBack(s, a) && Steady(s) && SentStillWaits(s)
    requires Apply(c, s, a).fault.NoFault?
    ensures SentStillWaits(Apply(c, s, a))
  {
    StepKeepsContexts(c, s, a);
    var s' := Apply(c, s, a);
    if a.ThreadMoves? && s.threads[a.i].phase.Flushing? {
      assert ThreadShape(s.threads[a.i]);
      FlushSends(c, s, a.i, s.threads[a.i].phase.batch);
    } else if SomeSent(s) {
      LateStep(c, s, a);
    } else {
      forall j | 0 <= j < |s.threads|
        ensures s'.threads[j].pushed == []
      {
        OthersPushNothing(c, s, a, j);
      }
    }
  }

  lemma OthersPushNothing(c: Config, s: State, a: Action, j: nat)
    requires Enabled(s, a) && (a.ThreadMoves? ==> !s.threads[a.i].phase.Flushing?) && j < |s.threads|
    ensures |Apply(c, s, a).threads| == |s.threads|
    ensures Apply(c, s, a).threads[j].pushed == s.threads[j].pushed
  {
    match a
    case ThreadMoves(i) =>
      if i == j {
        OnlyFlushPushes(c, s, i);
      } else {
        ThreadFrame(c, s, i, j);
      }
    case AccessorMoves(k) => AccessorFrame(s, k, j);
  }

  /** Everything that holds while the schedule is kept to. */
  ghost predicate Steered(c: Config, h: set<nat>, s: State) {
    && |s.threads| == |c.scripts| && Sound(c, s) && History(c, s) && WellAddressed(s) && s.fault.NoFault?
    && Confined(c, h, s) && Steady(s) && SentStillWaits(s) && !s.last.ByDetach?
  }

  lemma SteeredStep(c: Config, h: set<nat>, s: State, a: Action)
    requires Steered(c, h, s) && Enabled(s, a) && !HeldBack(s, a)
    ensures Steered(c, h, Apply(c, s, a))
  {
    StepSound(c, s, a);
    StepKeepsContexts(c, s, a);
    StepHistory(c, s, a);
    StepConfined(c, h, s, a);
    StepStaysInTable(c, h, s, a);
    DetachStepRecorded(c, s, a);
    match a {
      case ThreadMoves(i) => ThreadStepAddressed(c, s, i);
      case AccessorMoves(k) => AccessorStepAddressed(s, k);
    }
    if AccessorsGone(s) {
      LateStep(c, s, a);
    } else {
      EarlyStep(c, s, a);
    }
    StepSentStillWaits(c, s, a);
  }

  lemma {:induction false} RunSteered(c: Config, h: set<nat>, s: State) returns (run: seq<Action>, s': State)
    requires Steered(c, h, s)
    ensures Reaches(c, s, run, s') && Steered(c, h, s')
    ensures forall a :: Enabled(s', a) ==> HeldBack(s', a)
    decreases Measure(s)
  {
    if a :| Enabled(s, a) && !HeldBack(s, a) {
      SteeredStep(c, h, s, a);
      StepDecreases(c, s, a);
      var more;
      more, s' := RunSteered(c, h, Apply(c, s, a));
      run := [a] + more;
      HeadAndTail([a], more);
      SingleTail(a);
      Empty(more);
    } else {
      run, s' := [], s;
    }
  }

  // ---------- where that schedule ends ----------

  /** All that is left is messages: nobody can give up the last count but by settling one. */
  predicate OnlyMessagesLeft(s: State) {
    && AccessorsGone(s) && !s.last.ByDetach? && !(s.last.ByHandler? && s.last.viaDrop)
    && forall i :: 0 <= i < |s.threads| ==> MessagesOnly(s.threads[i])
  }

  predicate MessagesOnly(t: Thread) {
    AccessorDropped !in t.inbox && !t.phase.DrainingInit? && !t.phase.HandlingDrop?
  }

  lemma OwnMessagesOnly(c: Config, s: State, i: nat)
    requires ThreadEnabled(s, i) && MessagesOnly(s.threads[i]) && !s.threads[i].phase.Initialising?
    ensures |ThreadStep(c, s, i).threads| == |s.threads| && MessagesOnly(ThreadStep(c, s, i).threads[i])
    ensures ThreadStep(c, s, i).last == s.last || BySettling(ThreadStep(c, s, i).last)
  {
    var t := s.threads[i];
    if t.phase.Flushing? {
      FlushMessagesOnly(c, s, i, t.phase.batch);
    } else if !t.phase.Waiting? {
      OthersMessagesOnly(c, s, i);
    } else {
      ReceiveMessagesOnly(s, i);
    }
  }

  lemma FlushMessagesOnly(c: Config, s: State, i: nat, batch: seq<Send>)
    requires i < |s.threads| && s.threads[i].phase == Flushing(batch) && MessagesOnly(s.threads[i])
    ensures |FlushStep(c, s, i, batch).threads| == |s.threads| && FlushStep(c, s, i, batch).last == s.last
    ensures MessagesOnly(FlushStep(c, s, i, batch).threads[i])
  {
    FlushKeepsOwnInbox(c, s, i, batch);
  }

  lemma ReceiveMessagesOnly(s: State, i: nat)
    requires ThreadEnabled(s, i) && s.threads[i].phase.Waiting? && MessagesOnly(s.threads[i])
    ensures |ReceiveStep(s, i).threads| == |s.threads| && ReceiveStep(s, i).last == s.last
    ensures MessagesOnly(ReceiveStep(s, i).threads[i])
  {
    var t := s.threads[i];
    if t.inbox != [] {
      assert t.inbox[0] in t.inbox && forall item :: item in t.inbox[1..] ==> item in t.inbox;
    }
  }

  lemma OthersMessagesOnly(c: Config, s: State, i: nat)
    requires ThreadEnabled(s, i) && MessagesOnly(s.threads[i])
    requires !s.threads[i].phase.Initialising? && !s.threads[i].phase.Waiting? && !s.threads[i].phase.Flushing?
    ensures |ThreadStep(c, s, i).threads| == |s.threads| && MessagesOnly(ThreadStep(c, s, i).threads[i])
    ensures ThreadStep(c, s, i).last == s.last || BySettling(ThreadStep(c, s, i).last)
  {
    OwnInboxKept(c, s, i);
  }

  lemma MessagesStep(c: Config, s: State, a: Action)
    requires OnlyMessagesLeft(s) && Enabled(s, a)
    ensures OnlyMessagesLeft(Apply(c, s, a))
  {
    assert a.ThreadMoves?;
    StepKeepsContexts(c, s, a);
    GoneForGood(c, s, a.i);
    OwnMessagesOnly(c, s, a.i);
    forall j | 0 <= j < |s.threads|
      ensures MessagesOnly(Apply(c, s, a).threads[j])
    {
      if j != a.i {
        NoNoticePushed(c, s, a.i, j);
      }
    }
  }

  lemma {:induction false} MessagesRun(c: Config, s: State, run: seq<Action>, s': State)
    requires OnlyMessagesLeft(s) && Reaches(c, s, run, s')
    ensures OnlyMessagesLeft(s')
    decreases run
  {
    if run != [] {
      MessagesStep(c, s, run[0]);
      MessagesRun(c, Apply(c, s, run[0]), run[1..], s');
    }
  }

  /** Where no action is left but those held back. */
  ghost predicate Blocked(s: State) {
    forall a :: Enabled(s, a) ==> HeldBack(s, a)
  }

  lemma BlockedAccessors(s: State)
    requires Inv(s) && s.fault.NoFault? && Blocked(s)
    ensures forall k :: 0 <= k < |s.accessors| ==> s.accessors[k].stage.Dropped?
  {
    forall k | 0 <= k < |s.accessors|
      ensures s.accessors[k].stage.Dropped?
    {
      assert AccessorShape(|s.threads|, s.accessors[k]);
      assert !HeldBack(s, AccessorMoves(k)) && !Enabled(s, AccessorMoves(k));
    }
  }

  /** A thread that is held up waits without a notice, or is about to detach last. */
  lemma BlockedThread(s: State, i: nat)
    requires Inv(s) && s.fault.NoFault? && Blocked(s) && s.counter > 0 && i < |s.threads|
    ensures LastDetach(s, ThreadMoves(i)) || (s.threads[i].phase.Waiting? && !(MayReceive(s, i)))
  {
    assert Live(s.threads[i]);
    if Enabled(s, ThreadMoves(i)) {
      assert HeldBack(s, ThreadMoves(i));
    } else {
      assert s.threads[i].phase.Waiting? && s.threads[i].inbox == [];
    }
  }

  lemma BlockedIsGone(s: State)
    requires Inv(s) && s.fault.NoFault? && Blocked(s) && s.counter > 0
    ensures AccessorsGone(s)
  {
    BlockedAccessors(s);
    forall i | 0 <= i < |s.threads|
      ensures !s.threads[i].phase.Initialising?
    {
      BlockedThread(s, i);
    }
  }

  /** If nobody is about to detach last, only messages are left. */
  lemma BlockedOnMessages(s: State)
    requires Inv(s) && s.fault.NoFault? && Blocked(s) && s.counter > 0
    requires forall i :: 0 <= i < |s.threads| ==> !LastDetach(s, ThreadMoves(i))
    ensures OnlyMessagesLeft(s)
  {
    BlockedIsGone(s);
    forall i | 0 <= i < |s.threads|
      ensures MessagesOnly(s.threads[i])
    {
      BlockedThread(s, i);
    }
  }

  lemma {:induction false} NoTokensNoneSent(items: seq<Item>)
    requires Sum(ItemTokens, items) == 0
    ensures NoneSent(items)
  {
    OnlyStopsLeft(items);
  }

  /** Without any token but that of `t`, nothing that was pushed waits, so nothing was pushed. */
  lemma LastDetachIsQuiet(c: Config, h: set<nat>, s: State, t: nat)
    requires Steered(c, h, s) && t < |s.threads| && LastDetach(s, ThreadMoves(t))
    ensures Enabled(s, ThreadMoves(t)) && NothingPushed(s)
    ensures Apply(c, s, ThreadMoves(t)).counter == 0 && NothingPushed(Apply(c, s, ThreadMoves(t)))
    ensures Apply(c, s, ThreadMoves(t)).fault.NoFault?
  {
    SumBound(ThreadTokens, s.threads, t);
    LastToken(s, t);
    forall j | 0 <= j < |s.threads|
      ensures NoneSent(s.threads[j].inbox)
    {
      NoTokensNoneSent(s.threads[j].inbox);
    }
    assert !SomeSent(s);
  }

  lemma ZeroIsQuiet(c: Config, h: set<nat>, s: State)
    requires Steered(c, h, s) && s.counter == 0
    ensures NothingPushed(s)
  {
    NoTokensLeft(s);
    forall j | 0 <= j < |s.threads|
      ensures NoneSent(s.threads[j].inbox)
    {
      NoTokensNoneSent(s.threads[j].inbox);
    }
    assert !SomeSent(s);
  }

  lemma InitialSteered(c: Config, h: set<nat>)
    requires c.scripts != [] && ValidKeys(c) && Closed(c, h)
    ensures Steered(c, h, Initial(c))
  {
    InitialSound(c);
    InitialHistory(c);
    InitialAddressed(c);
    InitialConfined(c, h);
    assert Initial(c).threads[0].phase.Initialising?;
  }

  /** The schedule ends with nothing but messages left. */
  lemma SteeredEnd(c: Config, h: set<nat>) returns (run: seq<Action>, s: State)
    requires c.scripts != [] && ValidKeys(c) && Closed(c, h) && !exists g :: LocalOnly(c, g)
    ensures Reaches(c, Initial(c), run, s) && Steered(c, h, s) && OnlyMessagesLeft(s) && s.counter > 0
  {
    InitialSteered(c, h);
    run, s := RunSteered(c, h, Initial(c));
    if s.counter == 0 {
      ZeroIsQuiet(c, h, s);
      QuietEnd(c, s);
    } else if t :| 0 <= t < |s.threads| && LastDetach(s, ThreadMoves(t)) {
      LastDetachIsQuiet(c, h, s, t);
      var zero := Apply(c, s, ThreadMoves(t));
      SingleTail(ThreadMoves(t));
      assert Reaches(c, s, [ThreadMoves(t)], zero);
      ReachesOn(c, Initial(c), run, s, [ThreadMoves(t)], zero);
      QuietEnd(c, zero);
    } else {
      BlockedOnMessages(s);
    }
  }

  /** The program has stopped in good order and left the block behind. */
  ghost predicate Leaked(s: State) {
    Complete(s) && AllExited(s) && s.fault.NoFault? && !s.freed
  }

  lemma LeakingRun(c: Config, h: set<nat>) returns (s: State)
    requires c.scripts != [] && ValidKeys(c) && Closed(c, h) && !exists g :: LocalOnly(c, g)
    ensures Reachable(c, s) && Leaked(s)
  {
    var run, mid := SteeredEnd(c, h);
    var more;
    more, s := RunToEnd(c, mid);
    ReachesOn(c, Initial(c), run, mid, more, s);
    MessagesRun(c, mid, more, s);
    ClosedNeverMissesTable(c, h, s);
    NoBadKeyFault(c, s);
    CompleteRunsEndInOneOfTwoWays(c, s);
    ReachableIsSound(c, s);
  }

  lemma LeakedBySettling(c: Config, s: State)
    requires c.scripts != [] && Reachable(c, s) && Leaked(s)
    ensures s.counter == 0 && BySettling(s.last)
  {
    CompleteRunsEndInOneOfTwoWays(c, s);
    ReachableIsSound(c, s);
  }

  /**
   * Some run leaks the counter block if and only if no index is ever outside its table and in some
   * run a woken context sends a message to another one.
   */
  lemma SomeRunLeaksIff(c: Config)
    requires c.scripts != [] && ValidKeys(c)
    ensures (exists s :: Reachable(c, s) && Leaked(s)) <==>
      (exists h :: Closed(c, h)) && !exists h :: LocalOnly(c, h)
  {
    if s :| Reachable(c, s) && Leaked(s) {
      LeakedBySettling(c, s);
      AwakeIsLeastClosed(c, s);
      forall h | LocalOnly(c, h)
        ensures false
      {
        LocalOnlyNeverSettlesLast(c, h, s);
      }
    } else if h :| Closed(c, h) && !exists g :: LocalOnly(c, g) {
      var s := LeakingRun(c, h);
    }
  }
}
