/** Each kind of step keeps the invariant and causes no fault but the allowed ones. */
module InvariantSteps {
  import opened Sums
  import opened Messages
  import opened Links
  import opened Protocol
  import opened Invariant

  ghost predicate Working(s: State) {
    Inv(s) && s.counter > 0
  }

  /** One thread changes, no token appears or disappears, and the counter stays positive. */
  lemma QuietPut(s: State, i: nat, t: Thread)
    requires Working(s) && i < |s.threads|
    requires ThreadShape(t) && Live(t)
    requires ThreadTokens(t) == ThreadTokens(s.threads[i])
    ensures Working(s.Put(i, t))
  {
    TokensPut(s, i, t);
  }

  /** A thread gives up a token and others remain. */
  lemma SpendToken(s: State, i: nat, t: Thread)
    requires Working(s) && i < |s.threads| && s.counter > 1
    requires ThreadShape(t) && Live(t)
    requires ThreadTokens(t) + 1 == ThreadTokens(s.threads[i])
    ensures Working(s.Put(i, t).(counter := s.counter - 1))
  {
    TokensPut(s, i, t);
    var s' := s.Put(i, t).(counter := s.counter - 1);
    assert Tokens(s') == Tokens(s.Put(i, t));
  }

  /** A thread gives up the last token: everybody else is at rest. */
  lemma SpendLastToken(s: State, i: nat, t: Thread)
    requires Working(s) && i < |s.threads| && s.counter == 1
    requires ThreadTokens(s.threads[i]) > 0 && ThreadTokens(t) == 0
    ensures Tokens(s.Put(i, t)) == 0
    ensures forall j :: 0 <= j < |s.threads| && j != i ==> AtRest(s.threads[j])
    ensures forall k :: 0 <= k < |s.accessors| ==> s.accessors[k].stage.Dropped?
  {
    LastToken(s, i);
    TokensPut(s, i, t);
    forall j | 0 <= j < |s.threads| && j != i
      ensures AtRest(s.threads[j])
    {
      RestingThread(s.threads[j]);
    }
    forall k | 0 <= k < |s.accessors|
      ensures s.accessors[k].stage.Dropped?
    {
      assert AccessorTokens(s.accessors[k]) == 0;
    }
  }

  /** A pushed event or drop notice brings its token along. */
  lemma PushWhileWorking(s: State, j: nat, item: Item)
    requires j < |s.threads| && item != Stop
    requires |s.threads| > 0 && s.fault.NoFault?
    requires s.counter == Tokens(s) + 1
    requires forall x :: 0 <= x < |s.threads| ==> ThreadShape(s.threads[x])
    requires forall k :: 0 <= k < |s.accessors| ==> AccessorShape(|s.threads|, s.accessors[k])
    requires Running(s)
    ensures Working(Push(s, j, item)) && Push(s, j, item).fault.NoFault?
  {
    var r := s.threads[j];
    TokensPush(r, item);
    TokensPut(s, j, r.(inbox := r.inbox + [item]));
  }

  lemma InitStepSound(c: Config, s: State, i: nat, ops: seq<InitOp>)
    requires Working(s) && s.fault.NoFault? && i < |s.threads|
    requires s.threads[i].phase == Initialising(ops)
    ensures Sound(c, InitStep(s, i, ops))
  {
    var t := s.threads[i];
    if ops == [] {
      QuietPut(s, i, t.(phase := DrainingInit));
    } else {
      match ops[0]
      case NewAccessor(dest, todo) =>
        if dest < |s.threads| {
          var t' := t.(phase := Initialising(ops[1..]));
          QuietPut(s, i, t');
          SumAppend(AccessorTokens, s.accessors, Accessor(dest, todo, Idle, []));
        }
      case InitSend(send) =>
        QuietPut(s, i, Deliver(i, t, [send]).(phase := Initialising(ops[1..])));
    }
  }

  lemma DrainInitStepSound(c: Config, s: State, i: nat)
    requires Working(s) && s.fault.NoFault? && i < |s.threads|
    requires s.threads[i].phase.DrainingInit?
    ensures Sound(c, DrainInitStep(s, i))
  {
    var t := s.threads[i];
    if t.local != [] {
      QuietPut(s, i, RunLocal(i, t));
    } else if s.counter > 1 {
      SpendToken(s, i, t.(phase := Waiting));
    } else {
      var t' := t.(phase := FreeingOnDetach);
      SumBound(ThreadTokens, s.threads, i);
      SpendLastToken(s, i, t.(phase := Waiting, inbox := []));
      LastToken(s, i);
      OnlyStopsLeft(t.inbox);
      TokensPut(s, i, t');
    }
  }

  lemma ReceiveStepSound(c: Config, s: State, i: nat)
    requires Working(s) && s.fault.NoFault? && i < |s.threads|
    requires ThreadEnabled(s, i) && s.threads[i].phase.Waiting?
    ensures Sound(c, ReceiveStep(s, i))
  {
    var t := s.threads[i];
    if t.inbox == [] {
      DisconnectedHasNoTokens(s, i);
    } else {
      var t' := t.(inbox := t.inbox[1..], received := t.received + [t.inbox[0]]);
      match t.inbox[0]
      case Event(m, _) => QuietPut(s, i, t'.(phase := Handling(m), handledAny := true));
      case AccessorDropped => QuietPut(s, i, t'.(phase := HandlingDrop));
      case Stop => assert false;
    }
  }

  lemma CompanyKeepsConnected(s: State, i: nat)
    requires i < |s.threads| && |s.threads| > 1
    requires forall j :: 0 <= j < |s.threads| ==> !s.threads[j].phase.Exited?
    ensures !Disconnected(s, i)
  {
    assert !s.threads[if i == 0 then 1 else 0].phase.Exited?;
  }

  /** Only a lone context without live accessors can find its empty queue disconnected. */
  lemma DisconnectedHasNoTokens(s: State, i: nat)
    requires i < |s.threads| && s.threads[i].phase.Waiting? && Disconnected(s, i)
    requires forall j :: 0 <= j < |s.threads| ==> !s.threads[j].phase.Exited?
    requires forall k :: 0 <= k < |s.accessors| ==> AccessorShape(|s.threads|, s.accessors[k])
    ensures |s.threads| == 1 && Tokens(s) == 0
  {
    if |s.threads| > 1 {
      CompanyKeepsConnected(s, i);
      assert false;
    }
    SumAllZero(ThreadTokens, s.threads);
    forall k | 0 <= k < |s.accessors|
      ensures AccessorTokens(s.accessors[k]) == 0
    {
      assert AccessorShape(|s.threads|, s.accessors[k]);
    }
    SumAllZero(AccessorTokens, s.accessors);
  }

  lemma HandlingStepSound(c: Config, s: State, i: nat, m: Msg)
    requires Working(s) && s.fault.NoFault? && i < |s.threads|
    requires s.threads[i].phase == Handling(m)
    ensures Sound(c, s.Put(i, RunMessage(i, s.threads[i], m).(phase := Draining)))
  {
    QuietPut(s, i, RunMessage(i, s.threads[i], m).(phase := Draining));
  }

  lemma DrainingStepSound(c: Config, s: State, i: nat)
    requires Working(s) && s.fault.NoFault? && i < |s.threads|
    requires s.threads[i].phase.Draining? && s.threads[i].local != []
    ensures Sound(c, s.Put(i, RunLocal(i, s.threads[i])))
  {
    QuietPut(s, i, RunLocal(i, s.threads[i]));
  }

  /** The last decrement by a handler: it turns to sending Stops, to an empty system. */
  lemma LastDecrementSound(c: Config, s: State, i: nat, viaDrop: bool)
    requires Working(s) && s.fault.NoFault? && i < |s.threads| && s.counter == 1
    requires PhaseTokens(s.threads[i].phase) == 1 && s.threads[i].local == []
    ensures Sound(c, s.Put(i, s.threads[i].(phase := Stopping(0, viaDrop)))
                      .(counter := s.counter - 1, last := ByHandler(i, viaDrop)))
  {
    var t := s.threads[i];
    var t' := t.(phase := Stopping(0, viaDrop));
    SpendLastToken(s, i, t.(phase := Waiting, inbox := []));
    LastToken(s, i);
    OnlyStopsLeft(t.inbox);
    assert Live(t);
    TokensPut(s, i, t');
    var s' := s.Put(i, t').(counter := s.counter - 1, last := ByHandler(i, viaDrop));
    assert Tokens(s') == Tokens(s.Put(i, t'));
  }

  lemma SettleStepSound(c: Config, s: State, i: nat)
    requires Working(s) && s.fault.NoFault? && i < |s.threads|
    requires s.threads[i].phase.Draining? && s.threads[i].local == []
    ensures Sound(c, SettleStep(s, i))
  {
    var t := s.threads[i];
    if t.unsent == [] {
      if s.counter <= 1 {
        LastDecrementSound(c, s, i, false);
      } else {
        SpendToken(s, i, t.(phase := Waiting));
      }
    } else {
      var t' := t.(phase := Flushing(Grouped(t.unsent)), unsent := []);
      TokensPut(s, i, t');
      var s' := SettleStep(s, i);
      assert Tokens(s') == Tokens(s.Put(i, t'));
    }
  }

  lemma DropStepSound(c: Config, s: State, i: nat)
    requires Working(s) && s.fault.NoFault? && i < |s.threads|
    requires s.threads[i].phase.HandlingDrop?
    ensures Sound(c, DropStep(s, i))
  {
    if s.counter <= 1 {
      LastDecrementSound(c, s, i, true);
    } else {
      SpendToken(s, i, s.threads[i].(phase := Waiting));
    }
  }

  lemma FlushStepSound(c: Config, s: State, i: nat, batch: seq<Send>)
    requires Working(s) && s.fault.NoFault? && i < |s.threads|
    requires s.threads[i].phase == Flushing(batch)
    ensures Sound(c, FlushStep(c, s, i, batch))
  {
    var t := s.threads[i];
    assert ThreadShape(t);
    var index := c.route(i, batch[0].dest);
    if InTable(|s.threads|, index) {
      var after := if |batch| == 1 then Waiting else Flushing(batch[1..]);
      var t' := t.(phase := after, pushed := t.pushed + [batch[0]]);
      TokensPut(s, i, t');
      PushWhileWorking(s.Put(i, t'), LinkTarget(i, index), Event(batch[0].msg, Context(i)));
    }
  }

  lemma AccessorStepSound(c: Config, s: State, k: nat)
    requires Working(s) && s.fault.NoFault? && AccessorEnabled(s, k)
    ensures Sound(c, AccessorStep(s, k))
  {
    var a := s.accessors[k];
    assert AccessorShape(|s.threads|, a);
    if a.stage.Counted? && a.todo != [] {
      var a' := HavingSent(a);
      SumUpdate(AccessorTokens, s.accessors, k, a');
      PushWhileWorking(s.(accessors := s.accessors[k := a']), a.dest, Event(a.todo[0], Outside(k)));
    } else if a.todo != [] {
      SumUpdate(AccessorTokens, s.accessors, k, a.(stage := Counted));
    } else {
      var a' := a.(stage := Dropped);
      SumUpdate(AccessorTokens, s.accessors, k, a');
      PushWhileWorking(s.(accessors := s.accessors[k := a']), a.dest, AccessorDropped);
    }
  }

  // ---------- after the counter has reached zero ----------

  ghost predicate Finishing(s: State) {
    Inv(s) && s.counter == 0
  }

  lemma NoTokensLeft(s: State)
    requires Finishing(s)
    ensures forall j :: 0 <= j < |s.threads| ==> ThreadTokens(s.threads[j]) == 0
    ensures forall k :: 0 <= k < |s.accessors| ==> s.accessors[k].stage.Dropped?
  {
    SumZero(ThreadTokens, s.threads);
    SumZero(AccessorTokens, s.accessors);
    forall k | 0 <= k < |s.accessors|
      ensures s.accessors[k].stage.Dropped?
    {
      assert AccessorTokens(s.accessors[k]) == 0;
    }
  }

  lemma FinishingPut(s: State, i: nat, t: Thread, freed: bool)
    requires Finishing(s) && i < |s.threads|
    requires ThreadTokens(t) == 0 && ThreadShape(t)
    requires Over(s.Put(i, t).(freed := freed))
    ensures Finishing(s.Put(i, t).(freed := freed))
  {
    NoTokensLeft(s);
    TokensPut(s, i, t);
    assert Tokens(s.Put(i, t).(freed := freed)) == Tokens(s.Put(i, t));
  }

  lemma StopTaken(s: State, i: nat)
    requires Finishing(s) && s.fault.NoFault? && ThreadEnabled(s, i)
    requires s.threads[i].phase.Waiting?
    ensures s.threads[i].inbox == [] ==>
      |s.threads| == 1 && s.last == ByDetach(0)
    ensures s.threads[i].inbox != [] ==>
      s.threads[i].inbox == [Stop] && Finishing(ReceiveStep(s, i))
  {
    var t := s.threads[i];
    NoTokensLeft(s);
    OnlyStopsLeft(t.inbox);
    if t.inbox == [] {
      DisconnectedAtTheEnd(s, i);
    } else {
      assert s.last.ByHandler?;
      var t' := t.(inbox := t.inbox[1..], received := t.received + [t.inbox[0]], phase := Exited);
      FinishingPut(s, i, t', s.freed);
    }
  }

  lemma DisconnectedAtTheEnd(s: State, i: nat)
    requires Finishing(s) && i < |s.threads| && s.threads[i].phase.Waiting? && Disconnected(s, i)
    ensures |s.threads| == 1 && s.last == ByDetach(0)
  {
    match s.last
    case ByDetach(d) =>
      if |s.threads| > 1 {
        CompanyKeepsConnected(s, i);
        assert false;
      }
    case ByHandler(d, viaDrop) =>
      IntendedLinkInvertsTable(|s.threads|, d);
      assert false;
  }

  lemma FinishingStepSound(c: Config, s: State, i: nat)
    requires Finishing(s) && s.fault.NoFault? && ThreadEnabled(s, i)
    ensures Sound(c, ThreadStep(c, s, i))
  {
    var t := s.threads[i];
    NoTokensLeft(s);
    if t.phase.Waiting? {
      StopTaken(s, i);
    } else {
      match s.last
      case ByDetach(d) => FinishingPut(s, i, t.(phase := Waiting), true);
      case ByHandler(d, viaDrop) =>
        if t.phase.Stopping? {
          StopStepSound(c, s, i);
        } else {
          FinishingPut(s, i, t.(phase := Exited), true);
        }
    }
  }

  /** The state after pushing the next Stop, once its receiver is known to be at rest. */
  function StopPushed(s: State, i: nat): State
    requires i < |s.threads| && s.threads[i].phase.Stopping? && s.threads[i].phase.next + 1 < |s.threads|
  {
    var t := s.threads[i];
    var j := LinkTarget(i, t.phase.next);
    s.Put(i, t.(phase := Stopping(t.phase.next + 1, t.phase.thenFree)))
     .Put(j, s.threads[j].(inbox := [Stop]))
  }

  lemma StopPushKeepsOver(s: State, i: nat, viaDrop: bool)
    requires StoppedBy(s, i, viaDrop)
    requires s.threads[i].phase.Stopping? && s.threads[i].phase.next + 1 < |s.threads|
    ensures AtRest(s.threads[LinkTarget(i, s.threads[i].phase.next)])
    ensures StoppedBy(StopPushed(s, i), i, viaDrop)
  {
    var n, next := |s.threads|, s.threads[i].phase.next;
    IntendedLinkInvertsTable(n, i);
    var j := LinkTarget(i, next);
    assert IntendedLink(i, j) == next;
    var s' := StopPushed(s, i);
    forall x | 0 <= x < n && x != i
      ensures if IntendedLink(i, x) < next + 1 then Told(s'.threads[x]) else AtRest(s'.threads[x])
    {
      if x != j {
        assert IntendedLink(i, x) != next;
      }
    }
  }

  lemma StopPushKeepsTokens(s: State, i: nat)
    requires i < |s.threads| && s.threads[i].phase.Stopping? && s.threads[i].phase.next + 1 < |s.threads|
    requires s.threads[i].inbox == [] && AtRest(s.threads[LinkTarget(i, s.threads[i].phase.next)])
    ensures Tokens(StopPushed(s, i)) == Tokens(s)
  {
    var t := s.threads[i];
    var t' := t.(phase := Stopping(t.phase.next + 1, t.phase.thenFree));
    var j := LinkTarget(i, t.phase.next);
    TokensPut(s, i, t');
    assert ThreadTokens(t') == ThreadTokens(t);
    SumSingle(ItemTokens, Stop);
    assert ThreadTokens(s.threads[j].(inbox := [Stop])) == 0;
    TokensPut(s.Put(i, t'), j, s.threads[j].(inbox := [Stop]));
  }

  lemma StopPushIsSound(s: State, i: nat)
    requires Finishing(s) && i < |s.threads|
    requires s.threads[i].phase.Stopping? && s.threads[i].phase.next + 1 < |s.threads|
    ensures Inv(StopPushed(s, i))
    ensures AtRest(s.threads[LinkTarget(i, s.threads[i].phase.next)])
  {
    assert s.last.ByHandler? && s.last.id == i;
    StopPushKeepsOver(s, i, s.last.viaDrop);
    StopPushKeepsTokens(s, i);
    var s' := StopPushed(s, i);
    forall j | 0 <= j < |s'.threads|
      ensures ThreadShape(s'.threads[j])
    {
      assert ThreadShape(s.threads[j]);
    }
  }

  lemma StopStepPushes(s: State, i: nat)
    requires i < |s.threads| && s.threads[i].phase.Stopping? && s.threads[i].phase.next + 1 < |s.threads|
    requires AtRest(s.threads[LinkTarget(i, s.threads[i].phase.next)])
    ensures StopStep(s, i, s.threads[i].phase.next, s.threads[i].phase.thenFree) == StopPushed(s, i)
  {
    assert [] + [Stop] == [Stop];
  }

  lemma StopStepSound(c: Config, s: State, i: nat)
    requires Finishing(s) && s.fault.NoFault? && i < |s.threads|
    requires s.threads[i].phase.Stopping?
    ensures Sound(c, StopStep(s, i, s.threads[i].phase.next, s.threads[i].phase.thenFree))
  {
    var t := s.threads[i];
    if t.phase.next + 1 >= |s.threads| {
      FinishingPut(s, i, t.(phase := if t.phase.thenFree then FreeingLast else Exited), s.freed);
    } else {
      StopPushIsSound(s, i);
      StopStepPushes(s, i);
    }
  }

  // ---------- every step, every run ----------

  lemma InitialSound(c: Config)
    requires c.scripts != []
    ensures Sound(c, Initial(c))
  {
    InitialTokens(Initial(c).threads);
  }

  lemma {:induction false} InitialTokens(threads: seq<Thread>)
    requires forall i :: 0 <= i < |threads| ==> ThreadTokens(threads[i]) == 1
    ensures Sum(ThreadTokens, threads) == |threads|
  {
    if threads != [] {
      InitialTokens(threads[1..]);
    }
  }

  lemma WorkingStepSound(c: Config, s: State, i: nat)
    requires Working(s) && s.fault.NoFault? && ThreadEnabled(s, i)
    ensures Sound(c, ThreadStep(c, s, i))
  {
    assert Live(s.threads[i]);
    match s.threads[i].phase
    case Initialising(ops) => InitStepSound(c, s, i, ops);
    case DrainingInit => DrainInitStepSound(c, s, i);
    case Waiting => ReceiveStepSound(c, s, i);
    case Handling(m) => HandlingStepSound(c, s, i, m);
    case Draining =>
      if s.threads[i].local != [] {
        DrainingStepSound(c, s, i);
      } else {
        SettleStepSound(c, s, i);
      }
    case HandlingDrop => DropStepSound(c, s, i);
    case Flushing(batch) => FlushStepSound(c, s, i, batch);
  }

  lemma NoAccessorMovesAtTheEnd(s: State, k: nat)
    requires Finishing(s)
    ensures !AccessorEnabled(s, k)
  {
    NoTokensLeft(s);
  }

  lemma StepKeepsContexts(c: Config, s: State, a: Action)
    requires Enabled(s, a)
    ensures |Apply(c, s, a).threads| == |s.threads|
  {
  }

  lemma StepSound(c: Config, s: State, a: Action)
    requires Sound(c, s) && Enabled(s, a)
    ensures Sound(c, Apply(c, s, a))
  {
    match a
    case ThreadMoves(i) =>
      if s.counter > 0 {
        WorkingStepSound(c, s, i);
      } else {
        FinishingStepSound(c, s, i);
      }
    case AccessorMoves(k) =>
      if s.counter > 0 {
        AccessorStepSound(c, s, k);
      } else {
        NoAccessorMovesAtTheEnd(s, k);
        assert false;
      }
  }

  lemma {:induction false} RunSound(c: Config, s: State, run: seq<Action>, s': State)
    requires Sound(c, s) && Reaches(c, s, run, s')
    ensures Sound(c, s')
    ensures |s'.threads| == |s.threads|
    decreases run
  {
    if run != [] {
      StepSound(c, s, run[0]);
      StepKeepsContexts(c, s, run[0]);
      RunSound(c, Apply(c, s, run[0]), run[1..], s');
    }
  }
}
