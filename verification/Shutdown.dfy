/** The main results about shutting down, over every run of every configuration. */
module Shutdown {
  import opened Sums
  import opened Links
  import opened Protocol
  import opened Invariant
  import opened InvariantSteps
  import opened Termination
  import opened Delivery
  import opened Runs
  import opened Addressing
  import opened Routing
  import opened CleanStop

  /** Nothing can move: the program has ended, hangs, or has panicked. */
  ghost predicate Complete(s: State) {
    forall a: Action :: !Enabled(s, a)
  }

  predicate AllExited(s: State) {
    forall i :: 0 <= i < |s.threads| ==> s.threads[i].phase.Exited?
  }

  predicate AllAtRest(s: State) {
    forall i :: 0 <= i < |s.threads| ==> AtRest(s.threads[i])
  }

  // ---------- the counter ----------

  function UndetachedCount(t: Thread): nat {
    if Undetached(t) then 1 else 0
  }

  function QueuedCount(t: Thread): nat {
    Sum(ItemTokens, t.inbox)
  }

  /** What a thread is handling, or has settled for and not yet pushed. */
  function InHandCount(t: Thread): nat {
    match t.phase
    case Handling(_) | Draining | HandlingDrop => 1
    case Flushing(batch) => |batch|
    case _ => 0
  }

  function AliveCount(a: Accessor): nat {
    if a.stage.Dropped? then 0 else 1
  }

  function CountedCount(a: Accessor): nat {
    if a.stage.Counted? then 1 else 0
  }

  lemma {:induction false} ThreadTokensSplit(threads: seq<Thread>)
    ensures Sum(ThreadTokens, threads)
         == Sum(UndetachedCount, threads) + Sum(QueuedCount, threads) + Sum(InHandCount, threads)
  {
    if threads != [] {
      ThreadTokensSplit(threads[1..]);
    }
  }

  lemma {:induction false} AccessorTokensSplit(accessors: seq<Accessor>)
    ensures Sum(AccessorTokens, accessors) == Sum(AliveCount, accessors) + Sum(CountedCount, accessors)
  {
    if accessors != [] {
      AccessorTokensSplit(accessors[1..]);
    }
  }

  /** In every reachable state the counter is exactly the number of things it stands for. */
  lemma CounterIsExact(c: Config, s: State)
    requires c.scripts != [] && Reachable(c, s)
    ensures s.counter
         == Sum(UndetachedCount, s.threads)
          + Sum(AliveCount, s.accessors) + Sum(CountedCount, s.accessors)
          + Sum(QueuedCount, s.threads) + Sum(InHandCount, s.threads)
  {
    ReachableIsSound(c, s);
    ThreadTokensSplit(s.threads);
    AccessorTokensSplit(s.accessors);
  }

  /** It never wraps: a decrement always finds at least one. */
  lemma DecrementNeverUnderflows(c: Config, s: State, a: Action)
    requires c.scripts != [] && Reachable(c, s) && Enabled(s, a)
    ensures 0 <= Apply(c, s, a).counter
    ensures Apply(c, s, a).counter < s.counter ==> s.counter > 0
  {
    ReachableIsSound(c, s);
    StepSound(c, s, a);
  }

  // ---------- faults ----------

  /**
   * No run uses the counter block after it is freed, frees it twice, or sends to a context that has
   * gone. What can go wrong is an index outside its table, or a lone context that waits for events
   * although its own detach was the last decrement.
   */
  lemma OnlyIndexFaultsAndLoneReceive(c: Config, s: State)
    requires c.scripts != [] && Reachable(c, s)
    ensures match s.fault
      case NoFault => true
      case BadLink(i, d) => !InTable(|c.scripts|, c.route(i, d))
      case BadAccessorContext(d) => d >= |c.scripts|
      case ReceiveDisconnected(i) => |c.scripts| == 1 && s.last == ByDetach(0)
      case BlockUsedAfterFree | BlockFreedTwice | SendToExited => false
  {
    ReachableIsSound(c, s);
  }

  /** With keys of existing contexts, only a link outside the table and the lone receive are left. */
  lemma NoBadKeyFault(c: Config, s: State)
    requires c.scripts != [] && Reachable(c, s) && ValidKeys(c)
    ensures match s.fault
      case NoFault => true
      case BadLink(i, d) => !InTable(|c.scripts|, c.route(i, d))
      case ReceiveDisconnected(i) => |c.scripts| == 1 && i == 0 && s.last == ByDetach(0)
      case _ => false
  {
    ReachableIsSound(c, s);
    var run :| Reaches(c, Initial(c), run, s);
    InitialAddressed(c);
    RunAddressed(c, Initial(c), run, s);
  }

  // ---------- reaching zero ----------

  /** Nothing runs, nothing is queued but Stops, no accessor is left. */
  predicate Idle(s: State) {
    && s.counter == 0
    && (forall k :: 0 <= k < |s.accessors| ==> s.accessors[k].stage.Dropped?)
    && forall i :: 0 <= i < |s.threads| ==>
         && s.threads[i].local == []
         && (forall x :: 0 <= x < |s.threads[i].inbox| ==> s.threads[i].inbox[x] == Stop)
         && match s.threads[i].phase
            case Waiting | FreeingOnDetach | Stopping(_, _) | FreeingLast | Exited => true
            case _ => false
  }

  /** The counter is zero only when the system is idle: termination is detected exactly. */
  lemma ZeroMeansIdle(c: Config, s: State)
    requires c.scripts != [] && Reachable(c, s) && s.counter == 0
    ensures Idle(s)
  {
    ReachableIsSound(c, s);
    NoTokensLeft(s);
    forall i | 0 <= i < |s.threads|
      ensures forall x :: 0 <= x < |s.threads[i].inbox| ==> s.threads[i].inbox[x] == Stop
    {
      OnlyStopsLeft(s.threads[i].inbox);
    }
  }

  /** Once zero it stays zero: from then on no run queues anything but Stops, and no message runs. */
  lemma {:induction false} ZeroIsForever(c: Config, s: State, run: seq<Action>, s': State)
    requires c.scripts != [] && Reachable(c, s) && s.counter == 0
    requires Reaches(c, s, run, s')
    ensures Idle(s') && s'.last == s.last
    decreases run
  {
    ZeroMeansIdle(c, s);
    if run != [] {
      ReachableIsSound(c, s);
      var mid := Apply(c, s, run[0]);
      ZeroStep(c, s, run[0]);
      var before :| Reaches(c, Initial(c), before, s);
      assert Reaches(c, s, [run[0]], mid) by {
        assert [run[0]][1..] == [];
      }
      ReachesOn(c, Initial(c), before, s, [run[0]], mid);
      ZeroIsForever(c, mid, run[1..], s');
    }
  }

  lemma ZeroStep(c: Config, s: State, a: Action)
    requires Sound(c, s) && Enabled(s, a) && s.counter == 0
    ensures Apply(c, s, a).counter == 0 && Apply(c, s, a).last == s.last
  {
    NoTokensLeft(s);
    assert a.ThreadMoves?;
    assert ThreadTokens(s.threads[a.i]) == 0 && ThreadShape(s.threads[a.i]);
    TokenlessStep(c, s, a.i);
  }

  /** A thread that holds no token leaves the counter alone. */
  lemma TokenlessStep(c: Config, s: State, i: nat)
    requires ThreadEnabled(s, i) && ThreadShape(s.threads[i]) && PhaseTokens(s.threads[i].phase) == 0
    ensures ThreadStep(c, s, i).counter == s.counter && ThreadStep(c, s, i).last == s.last
  {
  }

  /** And while it is positive no Stop exists anywhere and nobody has left. */
  lemma PositiveMeansRunning(c: Config, s: State)
    requires c.scripts != [] && Reachable(c, s) && s.counter > 0
    ensures !s.freed && s.last.NotYet?
    ensures forall i :: 0 <= i < |s.threads| ==>
      && Stop !in s.threads[i].inbox && StopCount(s.threads[i].received) == 0
      && !s.threads[i].phase.Stopping? && !s.threads[i].phase.Exited?
  {
    ReachableIsSound(c, s);
    forall i | 0 <= i < |s.threads|
      ensures Live(s.threads[i]) && StopCount(s.threads[i].received) == 0
    {
      assert StopHistory(s, i);
    }
  }

  // ---------- the Stops ----------

  /** Only the context that made the last decrement ever sends Stops or frees the block afterwards. */
  lemma OneContextStopsTheOthers(c: Config, s: State, i: nat)
    requires c.scripts != [] && Reachable(c, s) && i < |s.threads|
    requires s.threads[i].phase.Stopping? || s.threads[i].phase.FreeingLast?
    ensures s.last.ByHandler? && s.last.id == i
  {
    ReachableIsSound(c, s);
    assert s.counter > 0 ==> Live(s.threads[i]);
  }

  /** A context that has exited leaves an empty queue; unless it sent the Stops, it took exactly one. */
  lemma ExitedAfterOneStop(c: Config, s: State, i: nat)
    requires c.scripts != [] && Reachable(c, s) && i < |s.threads| && s.threads[i].phase.Exited?
    ensures s.threads[i].inbox == []
    ensures s.last.ByHandler?
    ensures StopCount(s.threads[i].received) == if s.last.id == i then 0 else 1
  {
    ReachableIsSound(c, s);
    assert s.counter > 0 ==> Live(s.threads[i]);
    assert StopHistory(s, i);
    if s.last.ByHandler? && s.last.id != i {
      IntendedLinkInvertsTable(|s.threads|, s.last.id);
    }
  }

  /** A Stop that waits in a queue is alone there: nothing is queued behind it or in front of it. */
  lemma StopIsAlone(c: Config, s: State, i: nat)
    requires c.scripts != [] && Reachable(c, s) && i < |s.threads| && Stop in s.threads[i].inbox
    ensures s.threads[i].inbox == [Stop] && s.last.ByHandler? && s.last.id != i
  {
    ReachableIsSound(c, s);
    assert s.counter > 0 ==> Live(s.threads[i]);
  }

  // ---------- termination ----------

  /** Every run is finite: it has no more steps than the measure of the initial state. */
  lemma EveryRunIsFinite(c: Config, run: seq<Action>, s: State)
    requires c.scripts != [] && Reaches(c, Initial(c), run, s)
    ensures |run| <= Measure(Initial(c))
  {
    InitialSound(c);
    RunIsBounded(c, Initial(c), run, s);
  }

  /**
   * A run that cannot go on without a fault has one of two ends: every context has exited, or a detach
   * was last and every context waits on an empty queue for ever.
   */
  lemma CompleteRunsEndInOneOfTwoWays(c: Config, s: State)
    requires c.scripts != [] && Reachable(c, s) && s.fault.NoFault?
    ensures Complete(s) <==> AllExited(s) || (s.last.ByDetach? && s.freed && |s.threads| > 1)
    ensures Complete(s) && s.last.ByHandler? ==> AllExited(s)
    ensures Complete(s) && s.last.ByDetach? ==> AllAtRest(s)
    ensures Complete(s) ==> s.counter == 0
  {
    ReachableIsSound(c, s);
    if Complete(s) {
      CompleteHasNoTokens(c, s);
      match s.last
      case ByHandler(i, viaDrop) => CompleteAfterHandler(c, s);
      case ByDetach(i) => CompleteAfterDetach(c, s);
    }
    if AllExited(s) || (s.last.ByDetach? && s.freed && |s.threads| > 1) {
      EndsAreComplete(c, s);
    }
  }

  lemma CompleteHasNoTokens(c: Config, s: State)
    requires Sound(c, s) && s.fault.NoFault? && Complete(s)
    ensures s.counter == 0
  {
    forall i | 0 <= i < |s.threads|
      ensures ThreadTokens(s.threads[i]) == 0
    {
      assert !Enabled(s, ThreadMoves(i));
      assert s.counter > 0 ==> Live(s.threads[i]);
      if s.counter <= 0 {
        NoTokensLeft(s);
      }
    }
    forall k | 0 <= k < |s.accessors|
      ensures AccessorTokens(s.accessors[k]) == 0
    {
      assert !Enabled(s, AccessorMoves(k));
      assert AccessorShape(|s.threads|, s.accessors[k]);
    }
    SumAllZero(ThreadTokens, s.threads);
    SumAllZero(AccessorTokens, s.accessors);
  }

  lemma CompleteAfterHandler(c: Config, s: State)
    requires Sound(c, s) && s.fault.NoFault? && Complete(s) && s.counter == 0 && s.last.ByHandler?
    ensures AllExited(s)
  {
    var i := s.last.id;
    assert !Enabled(s, ThreadMoves(i));
    IntendedLinkInvertsTable(|s.threads|, i);
    forall j | 0 <= j < |s.threads|
      ensures s.threads[j].phase.Exited?
    {
      assert !Enabled(s, ThreadMoves(j));
    }
  }

  lemma CompleteAfterDetach(c: Config, s: State)
    requires Sound(c, s) && s.fault.NoFault? && Complete(s) && s.counter == 0 && s.last.ByDetach?
    ensures AllAtRest(s) && s.freed && |s.threads| > 1
  {
    var i := s.last.id;
    assert !Enabled(s, ThreadMoves(i));
    NoTokensLeft(s);
    if |s.threads| == 1 {
      assert false;
    }
  }

  lemma EndsAreComplete(c: Config, s: State)
    requires Sound(c, s) && s.fault.NoFault?
    requires AllExited(s) || (s.last.ByDetach? && s.freed && |s.threads| > 1)
    ensures Complete(s)
  {
    assert s.counter > 0 ==> Live(s.threads[0]);
    NoTokensLeft(s);
    forall a: Action
      ensures !Enabled(s, a)
    {
      if a.ThreadMoves? && a.i < |s.threads| && !AllExited(s) {
        CompanyKeepsConnected(s, a.i);
      }
    }
  }

  // ---------- when does everybody stop? ----------

  /** The guard that goes wrong: a detach about to find itself the holder of the last count. */
  predicate LastDetach(s: State, a: Action) {
    && a.ThreadMoves? && a.i < |s.threads| && s.threads[a.i].phase.DrainingInit? && s.threads[a.i].local == []
    && s.counter <= 1
  }

  predicate SomeLastDetach(c: Config, s: State, run: seq<Action>)
    decreases run
  {
    run != [] && Enabled(s, run[0]) && (LastDetach(s, run[0]) || SomeLastDetach(c, Apply(c, s, run[0]), run[1..]))
  }

  lemma {:induction false} DetachRecorded(c: Config, s: State, run: seq<Action>, s': State)
    requires Sound(c, s) && Reaches(c, s, run, s')
    ensures s'.last.ByDetach? <==> s.last.ByDetach? || SomeLastDetach(c, s, run)
    decreases run
  {
    if run != [] {
      var mid := Apply(c, s, run[0]);
      StepSound(c, s, run[0]);
      DetachRecorded(c, mid, run[1..], s');
      DetachStepRecorded(c, s, run[0]);
    }
  }

  lemma DetachStepRecorded(c: Config, s: State, a: Action)
    requires Sound(c, s) && Enabled(s, a)
    ensures Apply(c, s, a).last.ByDetach? <==> s.last.ByDetach? || LastDetach(s, a)
  {
    if s.counter == 0 {
      ZeroStep(c, s, a);
      NoTokensLeft(s);
    }
  }

  // ---------- is the counter block freed? ----------

  /** The guard that leaks it: a message about to be settled with nothing unsent as the last count. */
  predicate LastSettle(s: State, a: Action) {
    && a.ThreadMoves? && a.i < |s.threads| && s.threads[a.i].phase.Draining?
    && s.threads[a.i].local == [] && s.threads[a.i].unsent == [] && s.counter <= 1
  }

  predicate SomeLastSettle(c: Config, s: State, run: seq<Action>)
    decreases run
  {
    run != [] && Enabled(s, run[0]) && (LastSettle(s, run[0]) || SomeLastSettle(c, Apply(c, s, run[0]), run[1..]))
  }

  predicate BySettling(l: LastDecrement) {
    l.ByHandler? && !l.viaDrop
  }

  lemma {:induction false} SettleRecorded(c: Config, s: State, run: seq<Action>, s': State)
    requires Sound(c, s) && Reaches(c, s, run, s')
    ensures BySettling(s'.last) <==> BySettling(s.last) || SomeLastSettle(c, s, run)
    decreases run
  {
    if run != [] {
      StepSound(c, s, run[0]);
      SettleRecorded(c, Apply(c, s, run[0]), run[1..], s');
      SettleStepRecorded(c, s, run[0]);
    }
  }

  lemma SettleStepRecorded(c: Config, s: State, a: Action)
    requires Sound(c, s) && Enabled(s, a)
    ensures BySettling(Apply(c, s, a).last) <==> BySettling(s.last) || LastSettle(s, a)
  {
    if s.counter == 0 {
      ZeroStep(c, s, a);
      NoTokensLeft(s);
    }
  }

  /**
   * When a complete run without a fault is over, the block has been freed if and only if no message in
   * it was settled with nothing unsent while the counter was at one: otherwise it is leaked.
   */
  lemma BlockFreedUnlessLastSettle(c: Config, run: seq<Action>, s: State)
    requires c.scripts != [] && Reaches(c, Initial(c), run, s) && Complete(s) && s.fault.NoFault?
    ensures s.freed <==> !SomeLastSettle(c, Initial(c), run)
  {
    InitialSound(c);
    SettleRecorded(c, Initial(c), run, s);
    CompleteRunsEndInOneOfTwoWays(c, s);
    ReachableIsSound(c, s);
  }

  /**
   * A complete run without a fault stops every context if and only if no detach in it found the
   * counter at one or below.
   */
  lemma EveryoneStopsUnlessDetachIsLast(c: Config, run: seq<Action>, s: State)
    requires c.scripts != [] && Reaches(c, Initial(c), run, s) && Complete(s) && s.fault.NoFault?
    ensures AllExited(s) <==> !SomeLastDetach(c, Initial(c), run)
  {
    InitialSound(c);
    DetachRecorded(c, Initial(c), run, s);
    CompleteRunsEndInOneOfTwoWays(c, s);
    ReachableIsSound(c, s);
  }

  /**
   * If initialisation aims an accessor at every context, every complete run stops every context, unless
   * it has met an index outside a table.
   */
  lemma EveryoneStopsIfAllTargeted(c: Config, s: State)
    requires c.scripts != [] && ValidKeys(c) && EveryContextTargeted(c)
    requires Reachable(c, s) && Complete(s)
    ensures s.fault.BadLink? || (AllExited(s) && s.fault.NoFault?)
  {
    var run :| Reaches(c, Initial(c), run, s);
    InitialSound(c);
    NoBadKeyFault(c, s);
    ReachableIsSound(c, s);
    if s.last.ByDetach? {
      InitialSecured(c, s.last.id);
      RunSecured(c, Initial(c), run, s, s.last.id);
    }
    if s.fault.NoFault? {
      CompleteRunsEndInOneOfTwoWays(c, s);
    }
  }

  /** If initialisation creates no accessor at all, no context ever stops: they hang, or the lone one panics. */
  lemma NobodyStopsWithoutAccessors(c: Config, s: State)
    requires c.scripts != [] && CreatesNoAccessor(c)
    requires Reachable(c, s) && Complete(s)
    ensures AllAtRest(s) && s.last.ByDetach?
    ensures s.fault == if |c.scripts| == 1 then ReceiveDisconnected(0) else NoFault
  {
    var run :| Reaches(c, Initial(c), run, s);
    RunSilent(c, Initial(c), run, s);
    ReachableIsSound(c, s);
    if s.fault.NoFault? {
      CompleteRunsEndInOneOfTwoWays(c, s);
      assert Untouched(s.threads[0]);
    }
  }

  /** For a lone context that settles it: it stops cleanly if and only if it creates an accessor. */
  lemma LoneContextStopsIffItHasAccessor(c: Config, s: State)
    requires |c.scripts| == 1 && ValidKeys(c)
    requires Reachable(c, s) && Complete(s)
    ensures AllExited(s) && s.fault.NoFault? <==> !CreatesNoAccessor(c)
  {
    if CreatesNoAccessor(c) {
      NobodyStopsWithoutAccessors(c, s);
    } else {
      var p :| 0 <= p < |c.scripts[0]| && !c.scripts[0][p].InitSend?;
      assert c.scripts[0][p] in c.scripts[0];
      assert Creates(c.scripts[0], 0);
      assert Targeted(c, 0);
      EveryoneStopsIfAllTargeted(c, s);
      ServedIsClosed(c);
      ClosedNeverMissesTable(c, Contexts(c), s);
    }
  }
}
