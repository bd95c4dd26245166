/**
 * For which configurations does every run stop every context? Exactly for those in which every index
 * that is used lies in its table and no context can be left out by all accessors and all messages.
 */
module WhoStops {
  import opened Sums
  import opened Sequences
  import opened Messages
  import opened Links
  import opened Protocol
  import opened Invariant
  import opened InvariantSteps
  import opened Termination
  import opened Delivery
  import opened DeliverySteps
  import opened Addressing
  import opened CleanStop
  import opened Runs
  import opened Routing
  import opened Shutdown
  import opened Confinement
  import opened Waking

  /** No accessor is aimed at context `t`, and a closed set of contexts that can be woken excludes it. */
  ghost predicate LeftOut(c: Config, t: nat, h: set<nat>) {
    t < |c.scripts| && t !in h && !Targeted(c, t) && Closed(c, h)
  }

  // ---------- a run that ends by a detach leaves somebody out ----------

  predicate DetacherAsleep(s: State) {
    s.last.ByDetach? && s.last.id < |s.threads| ==> !s.threads[s.last.id].handledAny
  }

  lemma ZeroKeepsAsleep(c: Config, s: State, i: nat, j: nat)
    requires Sound(c, s) && s.fault.NoFault? && ThreadEnabled(s, i) && s.last == ByDetach(j)
    requires !s.threads[j].handledAny
    ensures ThreadStep(c, s, i).last == s.last
    ensures |ThreadStep(c, s, i).threads| == |s.threads| && !ThreadStep(c, s, i).threads[j].handledAny
  {
    ZeroStep(c, s, ThreadMoves(i));
    StepKeepsContexts(c, s, ThreadMoves(i));
    if i != j {
      ThreadFrame(c, s, i, j);
    }
  }

  lemma StepKeepsAsleep(c: Config, s: State, a: Action)
    requires Sound(c, s) && Enabled(s, a) && DetacherAsleep(s)
    ensures DetacherAsleep(Apply(c, s, a))
  {
    match a
    case ThreadMoves(i) =>
      if s.last.ByDetach? {
        ZeroKeepsAsleep(c, s, i, s.last.id);
      } else {
        assert ThreadShape(s.threads[i]);
        DetachStepRecorded(c, s, a);
      }
    case AccessorMoves(k) =>
      if s.counter == 0 {
        NoAccessorMovesAtTheEnd(s, k);
      }
  }

  lemma {:induction false} RunKeepsAsleep(c: Config, s: State, run: seq<Action>, s': State)
    requires Sound(c, s) && DetacherAsleep(s) && Reaches(c, s, run, s')
    ensures DetacherAsleep(s')
    decreases run
  {
    if run != [] {
      StepSound(c, s, run[0]);
      StepKeepsAsleep(c, s, run[0]);
      RunKeepsAsleep(c, Apply(c, s, run[0]), run[1..], s');
    }
  }

  lemma DetachLeavesOut(c: Config, s: State)
    requires c.scripts != [] && Reachable(c, s) && s.last.ByDetach?
    ensures LeftOut(c, s.last.id, Awake(s))
  {
    var run :| Reaches(c, Initial(c), run, s);
    var t := s.last.id;
    ReachableIsSound(c, s);
    InitialSound(c);
    RunKeepsAsleep(c, Initial(c), run, s);
    AwakeIsLeastClosed(c, s);
    if Targeted(c, t) {
      InitialSecured(c, t);
      RunSecured(c, Initial(c), run, s, t);
    }
  }

  // ---------- a context that is left out can be made to detach last ----------

  /** No accessor is aimed at `t`, nor will be. */
  predicate Untargeted(s: State, t: nat) {
    && t < |s.threads| && AccessorDropped !in s.threads[t].inbox
    && (forall k :: 0 <= k < |s.accessors| ==> s.accessors[k].dest != t)
    && (forall i :: 0 <= i < |s.threads| ==> CreatesElsewhere(s.threads[i].phase, t))
  }

  predicate CreatesElsewhere(p: Phase, t: nat) {
    p.Initialising? ==> forall op :: op in p.ops ==> op.NewAccessor? ==> op.dest != t
  }

  lemma PushUntargeted(s: State, j: nat, item: Item, t: nat)
    requires Untargeted(s, t) && j < |s.threads| && (item.AccessorDropped? ==> j != t)
    ensures Untargeted(Push(s, j, item), t)
  {
  }

  lemma OwnMoveUntargeted(s: State, i: nat, r: Thread, s': State, t: nat)
    requires Untargeted(s, t) && i < |s.threads|
    requires s'.threads == s.threads[i := r] && s'.accessors == s.accessors
    requires CreatesElsewhere(r.phase, t) && (forall item :: item in r.inbox ==> item in s.threads[i].inbox)
    ensures Untargeted(s', t)
  {
  }

  lemma InitUntargeted(s: State, i: nat, ops: seq<InitOp>, t: nat)
    requires Untargeted(s, t) && i < |s.threads| && s.threads[i].phase == Initialising(ops)
    ensures Untargeted(InitStep(s, i, ops), t)
  {
    assert CreatesElsewhere(s.threads[i].phase, t);
    var s' := InitStep(s, i, ops);
    if s'.accessors == s.accessors {
      OwnMoveUntargeted(s, i, s'.threads[i], s', t);
    } else {
      assert ops[0] in ops;
      OwnMoveUntargeted(s, i, s'.threads[i], s'.(accessors := s.accessors), t);
    }
  }

  lemma FlushUntargeted(c: Config, s: State, i: nat, batch: seq<Send>, t: nat)
    requires Untargeted(s, t) && i < |s.threads| && s.threads[i].phase == Flushing(batch)
    ensures Untargeted(FlushStep(c, s, i, batch), t)
  {
    var r := s.threads[i];
    if batch == [] {
      OwnMoveUntargeted(s, i, r.(phase := Waiting), FlushStep(c, s, i, batch), t);
    } else if InTable(|s.threads|, c.route(i, batch[0].dest)) {
      var after := if |batch| == 1 then Waiting else Flushing(batch[1..]);
      var mid := s.Put(i, r.(phase := after, pushed := r.pushed + [batch[0]]));
      OwnMoveUntargeted(s, i, mid.threads[i], mid, t);
      PushUntargeted(mid, LinkTarget(i, c.route(i, batch[0].dest)), Event(batch[0].msg, Context(i)), t);
    }
  }

  lemma StopUntargeted(s: State, i: nat, next: nat, thenFree: bool, t: nat)
    requires Untargeted(s, t) && i < |s.threads|
    ensures Untargeted(StopStep(s, i, next, thenFree), t)
  {
    var r := s.threads[i];
    if next + 1 >= |s.threads| {
      OwnMoveUntargeted(s, i, StopStep(s, i, next, thenFree).threads[i], StopStep(s, i, next, thenFree), t);
    } else {
      var mid := s.Put(i, r.(phase := Stopping(next + 1, thenFree)));
      OwnMoveUntargeted(s, i, mid.threads[i], mid, t);
      PushUntargeted(mid, LinkTarget(i, next), Stop, t);
    }
  }

  lemma ThreadStepUntargeted(c: Config, s: State, i: nat, t: nat)
    requires Untargeted(s, t) && ThreadEnabled(s, i)
    ensures Untargeted(ThreadStep(c, s, i), t)
  {
    var r := s.threads[i];
    var s' := ThreadStep(c, s, i);
    match r.phase
    case Initialising(ops) => InitUntargeted(s, i, ops, t);
    case Flushing(batch) => FlushUntargeted(c, s, i, batch, t);
    case Stopping(next, thenFree) => StopUntargeted(s, i, next, thenFree, t);
    case DrainingInit | FreeingOnDetach | Waiting | Handling(_) | Draining | HandlingDrop | FreeingLast =>
      OwnMoveUntargeted(s, i, s'.threads[i], s', t);
  }

  lemma AccessorStepUntargeted(s: State, k: nat, t: nat)
    requires Untargeted(s, t) && AccessorEnabled(s, k)
    ensures Untargeted(AccessorStep(s, k), t)
  {
    var a := s.accessors[k];
    if a.stage.Counted? && a.todo != [] {
      PushUntargeted(s.(accessors := s.accessors[k := HavingSent(a)]), a.dest,
                     Event(a.todo[0], Outside(k)), t);
    } else if a.todo == [] {
      PushUntargeted(s.(accessors := s.accessors[k := a.(stage := Dropped)]), a.dest, AccessorDropped, t);
    }
  }

  /** Everything that holds while context `t`, which is left out, is kept from detaching. */
  ghost predicate Delayed(c: Config, h: set<nat>, t: nat, s: State) {
    && ValidKeys(c) && |s.threads| == |c.scripts|
    && Sound(c, s) && History(c, s) && WellAddressed(s) && s.fault.NoFault?
    && t !in h && Confined(c, h, s) && Untargeted(s, t) && Undetached(s.threads[t])
  }

  predicate IsDetach(s: State, t: nat, a: Action)
    requires t < |s.threads|
  {
    a == ThreadMoves(t) && s.threads[t].phase.DrainingInit? && s.threads[t].local == []
  }

  lemma UndetachedIsRunning(s: State, t: nat)
    requires Inv(s) && t < |s.threads| && Undetached(s.threads[t])
    ensures s.counter > 0 && Running(s)
  {
    SumBound(ThreadTokens, s.threads, t);
  }

  lemma StaysUndetached(c: Config, s: State, t: nat, a: Action)
    requires Enabled(s, a) && t < |s.threads| && Undetached(s.threads[t]) && !IsDetach(s, t, a)
    ensures |Apply(c, s, a).threads| == |s.threads| && Undetached(Apply(c, s, a).threads[t])
  {
    StepKeepsContexts(c, s, a);
    match a
    case ThreadMoves(i) =>
      if i != t {
        ThreadFrame(c, s, i, t);
      }
    case AccessorMoves(k) => AccessorFrame(s, k, t);
  }

  lemma DelayedStep(c: Config, h: set<nat>, t: nat, s: State, a: Action)
    requires Delayed(c, h, t, s) && Enabled(s, a) && !IsDetach(s, t, a)
    ensures Delayed(c, h, t, Apply(c, s, a))
  {
    StepSound(c, s, a);
    StepHistory(c, s, a);
    StepConfined(c, h, s, a);
    StepStaysInTable(c, h, s, a);
    StaysUndetached(c, s, t, a);
    match a {
      case ThreadMoves(i) =>
        ThreadStepAddressed(c, s, i);
        ThreadStepUntargeted(c, s, i, t);
      case AccessorMoves(k) =>
        AccessorStepAddressed(s, k);
        AccessorStepUntargeted(s, k, t);
    }
    UndetachedIsRunning(Apply(c, s, a), t);
  }

  /** Let everything else run as far as it will go. */
  lemma {:induction false} RunDelayed(c: Config, h: set<nat>, t: nat, s: State) returns (run: seq<Action>, s': State)
    requires Delayed(c, h, t, s)
    ensures Reaches(c, s, run, s') && Delayed(c, h, t, s')
    ensures forall a :: Enabled(s', a) ==> IsDetach(s', t, a)
    decreases Measure(s)
  {
    if a :| Enabled(s, a) && !IsDetach(s, t, a) {
      DelayedStep(c, h, t, s, a);
      StepDecreases(c, s, a);
      var more;
      more, s' := RunDelayed(c, h, t, Apply(c, s, a));
      run := [a] + more;
      HeadAndTail([a], more);
      SingleTail(a);
      Empty(more);
    } else {
      run, s' := [], s;
    }
  }

  lemma NothingQueued(c: Config, h: set<nat>, t: nat, s: State)
    requires Delayed(c, h, t, s)
    ensures s.threads[t].inbox == []
  {
    UndetachedIsRunning(s, t);
    assert ThreadWithin(c, h, t, s.threads[t]);
    assert Live(s.threads[t]);
    SomeKindOfItem(s.threads[t].inbox);
  }

  lemma SomeKindOfItem(items: seq<Item>)
    ensures items != [] ==> !NoEvents(items) || AccessorDropped in items || Stop in items
  {
    if items != [] {
      assert items[0] in items;
      assert items[0].Event? || items[0] == AccessorDropped || items[0] == Stop;
    }
  }

  /** Then nothing but the detach of `t` is left. */
  lemma OnlyDetachLeft(c: Config, h: set<nat>, t: nat, s: State)
    requires Delayed(c, h, t, s) && forall a :: Enabled(s, a) ==> IsDetach(s, t, a)
    ensures s.counter == 1 && Enabled(s, ThreadMoves(t)) && IsDetach(s, t, ThreadMoves(t))
  {
    UndetachedIsRunning(s, t);
    NothingQueued(c, h, t, s);
    assert Enabled(s, ThreadMoves(t));
    forall u | 0 <= u < |s.threads| && u != t
      ensures ThreadTokens(s.threads[u]) == 0
    {
      assert !IsDetach(s, t, ThreadMoves(u)) && !Enabled(s, ThreadMoves(u));
      assert Live(s.threads[u]);
    }
    forall k | 0 <= k < |s.accessors|
      ensures AccessorTokens(s.accessors[k]) == 0
    {
      assert !IsDetach(s, t, AccessorMoves(k)) && !Enabled(s, AccessorMoves(k));
      assert AccessorShape(|s.threads|, s.accessors[k]);
    }
    SumAllZero(AccessorTokens, s.accessors);
    OneHolder(s, t);
  }

  /** If the others hold no token, the sum over all threads is what `t` holds. */
  lemma OneHolder(s: State, t: nat)
    requires t < |s.threads| && forall u :: 0 <= u < |s.threads| && u != t ==> ThreadTokens(s.threads[u]) == 0
    ensures Sum(ThreadTokens, s.threads) == ThreadTokens(s.threads[t])
  {
    var none := Thread(Exited, [], [], [], false, [], [], [], []);
    assert ThreadTokens(none) == 0;
    SumUpdate(ThreadTokens, s.threads, t, none);
    SumAllZero(ThreadTokens, s.threads[t := none]);
  }

  lemma InitialDelayed(c: Config, t: nat, h: set<nat>)
    requires c.scripts != [] && ValidKeys(c) && LeftOut(c, t, h)
    ensures Delayed(c, h, t, Initial(c))
  {
    InitialSound(c);
    InitialHistory(c);
    InitialAddressed(c);
    InitialConfined(c, h);
    forall i | 0 <= i < |c.scripts|
      ensures CreatesElsewhere(Initial(c).threads[i].phase, t)
    {
      assert !Creates(c.scripts[i], t);
    }
  }

  lemma LeftOutHangs(c: Config, t: nat, h: set<nat>) returns (s: State)
    requires c.scripts != [] && ValidKeys(c) && LeftOut(c, t, h)
    ensures Reachable(c, s) && Complete(s) && s.last == ByDetach(t) && !AllExited(s)
  {
    InitialDelayed(c, t, h);
    var run, blocked := RunDelayed(c, h, t, Initial(c));
    OnlyDetachLeft(c, h, t, blocked);
    var zero := Apply(c, blocked, ThreadMoves(t));
    UndetachedIsRunning(blocked, t);
    StepSound(c, blocked, ThreadMoves(t));
    SingleTail(ThreadMoves(t));
    assert Reaches(c, blocked, [ThreadMoves(t)], zero);
    ReachesOn(c, Initial(c), run, blocked, [ThreadMoves(t)], zero);
    var more;
    more, s := RunToEnd(c, zero);
    ReachesOn(c, Initial(c), run + [ThreadMoves(t)], zero, more, s);
    ZeroIsForever(c, zero, more, s);
    NobodyExitsAfterDetach(c, s);
  }

  lemma NobodyExitsAfterDetach(c: Config, s: State)
    requires c.scripts != [] && Reachable(c, s) && s.last.ByDetach?
    ensures !AllExited(s)
  {
    ReachableIsSound(c, s);
    if s.threads[0].phase.Exited? {
      ExitedAfterOneStop(c, s, 0);
    }
  }

  /**
   * Whatever the route: every complete run stops every context without a fault if and only if some set
   * of contexts is closed, so that no index is ever outside its table, and no context can be left out:
   * each is the target of an accessor, or in every closed set.
   */
  lemma EveryRunStopsEveryoneIff(c: Config)
    requires c.scripts != [] && ValidKeys(c)
    ensures (forall s :: Reachable(c, s) && Complete(s) ==> AllExited(s) && s.fault.NoFault?)
        <==> (exists h :: Closed(c, h)) && !exists t, h :: LeftOut(c, t, h)
  {
    if t, h :| LeftOut(c, t, h) {
      var s := LeftOutHangs(c, t, h);
    } else if h :| Closed(c, h) {
      forall s | Reachable(c, s) && Complete(s)
        ensures AllExited(s) && s.fault.NoFault?
      {
        ClosedAndNobodyLeftOutStops(c, h, s);
      }
    } else {
      var s := MissingTheTable(c);
    }
  }

  lemma ClosedAndNobodyLeftOutStops(c: Config, h: set<nat>, s: State)
    requires c.scripts != [] && ValidKeys(c) && Closed(c, h) && !exists t, g :: LeftOut(c, t, g)
    requires Reachable(c, s) && Complete(s)
    ensures AllExited(s) && s.fault.NoFault?
  {
    ReachableIsSound(c, s);
    NoBadKeyFault(c, s);
    ClosedNeverMissesTable(c, h, s);
    if s.last.ByDetach? {
      DetachLeavesOut(c, s);
    }
    CompleteRunsEndInOneOfTwoWays(c, s);
  }
}
