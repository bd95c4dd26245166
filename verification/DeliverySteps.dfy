/** Each kind of step, and so every run, keeps the history of messages. */
module DeliverySteps {
  import opened Sequences
  import opened Sums
  import opened Messages
  import opened Links
  import opened Protocol
  import opened Invariant
  import opened InvariantSteps
  import opened Delivery

  /** Taking an item: only a Stop ends a thread, and its sender has none to take. */
  lemma ReceiveStopHistory(c: Config, s: State, i: nat, j: nat)
    requires Sound(c, s) && s.fault.NoFault? && j < |s.threads| && StopHistory(s, j)
    requires ThreadEnabled(s, i) && s.threads[i].phase.Waiting? && s.threads[i].inbox != []
    ensures |ReceiveStep(s, i).threads| == |s.threads| && StopHistory(ReceiveStep(s, i), j)
  {
    var t := s.threads[i];
    SumAppend(ItemStops, t.received, t.inbox[0]);
    if t.inbox[0].Stop? && s.last.ByHandler? {
      assert s.counter == 0;
    }
  }

  lemma ReceivedKeepsHistory(t: Thread, t': Thread)
    requires ThreadHistory(t) && t.phase.Waiting?
    requires t'.produced == t.produced && t'.pushed == t.pushed && t'.unsent == t.unsent
    requires if t'.phase.Handling? then t'.handledAny
             else (t'.phase.HandlingDrop? || t'.phase.Exited?) && t'.handledAny == t.handledAny
    ensures ThreadHistory(t')
  {
  }

  lemma ReceiveMovesHead(t: Thread)
    requires t.inbox != []
    ensures (t.received + [t.inbox[0]]) + t.inbox[1..] == t.received + t.inbox
  {
    assert t.inbox == [t.inbox[0]] + t.inbox[1..];
    Associative(t.received, [t.inbox[0]], t.inbox[1..]);
  }

  lemma ReceiveItemHistory(c: Config, s: State, i: nat)
    requires History(c, s) && Sound(c, s) && s.fault.NoFault?
    requires ThreadEnabled(s, i) && s.threads[i].phase.Waiting? && s.threads[i].inbox != []
    ensures History(c, ReceiveStep(s, i))
  {
    var t, s' := s.threads[i], ReceiveStep(s, i);
    forall j | 0 <= j < |s.threads|
      ensures StopHistory(s', j)
    {
      assert StopHistory(s, j);
      ReceiveStopHistory(c, s, i, j);
    }
    assert ThreadHistory(t);
    ReceiveMovesHead(t);
    ReceivedKeepsHistory(t, s'.threads[i]);
    HistoryPut(c, s, i, s'.threads[i], s');
  }

  lemma ReceiveHistory(c: Config, s: State, i: nat)
    requires History(c, s) && Sound(c, s) && s.fault.NoFault?
    requires ThreadEnabled(s, i) && s.threads[i].phase.Waiting?
    ensures History(c, ReceiveStep(s, i))
  {
    if s.threads[i].inbox == [] {
      FaultKeepsHistory(c, s, ReceiveStep(s, i));
    } else {
      ReceiveItemHistory(c, s, i);
    }
  }

  lemma FaultKeepsHistory(c: Config, s: State, s': State)
    requires History(c, s) && s' == s.(fault := s'.fault)
    ensures History(c, s')
  {
    StopHistoryKept(s, s');
    forall x, j | 0 <= x < |s.threads| && 0 <= j < |s.threads|
      ensures Arrived(c, s', x, j)
    {
      assert Arrived(c, s, x, j);
    }
  }

  /** `t'` is `t` having pushed `x`. */
  predicate HasPushed(t: Thread, t': Thread, x: Send) {
    && t'.pushed == t.pushed + [x] && t'.received == t.received && t'.inbox == t.inbox
    && !t.phase.Exited? && !t'.phase.Exited?
  }

  /** Context `i`, now in state `t`, has pushed `x` to context `j`. */
  function LinkPush(s: State, i: nat, t: Thread, x: Send, j: nat): State
    requires i < |s.threads| && j < |s.threads|
  {
    s.Put(i, t).Put(j, s.threads[j].(inbox := s.threads[j].inbox + [Event(x.msg, Context(i))]))
  }

  lemma ArrivedAfterLinkPush(c: Config, s: State, i: nat, t: Thread, x: Send, j: nat, a: nat, b: nat)
    requires i < |s.threads| && j < |s.threads| && i != j && a < |s.threads| && b < |s.threads|
    requires HasPushed(s.threads[i], t, x) && Routes(c, |s.threads|, i, x.dest, j)
    requires Arrived(c, s, a, b)
    ensures Arrived(c, LinkPush(s, i, t, x, j), a, b)
  {
    ArrivalAppended(s.threads[j], Event(x.msg, Context(i)), Context(a));
    RoutedToAppend(c, |s.threads|, i, s.threads[i].pushed, x, b);
  }

  lemma HistoryLinkPush(c: Config, s: State, i: nat, t: Thread, x: Send, j: nat)
    requires i < |s.threads| && j < |s.threads| && i != j
    requires HasPushed(s.threads[i], t, x) && Routes(c, |s.threads|, i, x.dest, j)
    requires History(c, s) && ThreadHistory(t)
    ensures History(c, LinkPush(s, i, t, x, j))
  {
    var s' := LinkPush(s, i, t, x, j);
    StopHistoryKept(s, s');
    forall a, b | 0 <= a < |s.threads| && 0 <= b < |s.threads|
      ensures Arrived(c, s', a, b)
    {
      assert Arrived(c, s, a, b);
      ArrivedAfterLinkPush(c, s, i, t, x, j, a, b);
    }
    assert ThreadHistory(s.threads[j]);
    assert ThreadHistory(s'.threads[j]);
  }

  lemma FlushHistory(c: Config, s: State, i: nat, batch: seq<Send>)
    requires History(c, s) && Sound(c, s) && s.fault.NoFault?
    requires i < |s.threads| && s.threads[i].phase == Flushing(batch)
    requires Sound(c, FlushStep(c, s, i, batch))
    ensures History(c, FlushStep(c, s, i, batch))
  {
    var t := s.threads[i];
    var s' := FlushStep(c, s, i, batch);
    assert ThreadShape(t);
    assert ThreadHistory(t);
    var index := c.route(i, batch[0].dest);
    if InTable(|s.threads|, index) {
      var after := if |batch| == 1 then Waiting else Flushing(batch[1..]);
      PushingConserves(t, after);
      HistoryLinkPush(c, s, i, t.(phase := after, pushed := t.pushed + [batch[0]]), batch[0], LinkTarget(i, index));
    } else {
      FaultKeepsHistory(c, s, s');
    }
  }

  lemma DrainHistory(c: Config, s: State, i: nat)
    requires History(c, s) && i < |s.threads| && s.threads[i].local != [] && ThreadShape(s.threads[i])
    requires s.threads[i].phase.DrainingInit? || s.threads[i].phase.Draining?
    ensures History(c, s.Put(i, RunLocal(i, s.threads[i])))
  {
    var t := s.threads[i];
    assert ThreadHistory(t);
    var t' := t.(local := t.local[..|t.local| - 1]);
    DeliverConserves(i, t', t.local[|t.local| - 1].sends);
    PrivateMove(c, s, i, RunLocal(i, t), s.Put(i, RunLocal(i, t)));
  }

  lemma InitHistory(c: Config, s: State, i: nat, ops: seq<InitOp>)
    requires History(c, s) && Sound(c, s) && s.fault.NoFault?
    requires i < |s.threads| && s.threads[i].phase == Initialising(ops)
    ensures History(c, InitStep(s, i, ops))
  {
    var t := s.threads[i];
    var s' := InitStep(s, i, ops);
    assert ThreadHistory(t) && ThreadShape(t);
    if ops != [] && ops[0].InitSend? {
      DeliverConserves(i, t, [ops[0].send]);
    }
    PrivateMove(c, s, i, s'.threads[i], s');
  }

  lemma SettleHistory(c: Config, s: State, i: nat)
    requires History(c, s) && Sound(c, s) && s.fault.NoFault?
    requires i < |s.threads| && s.threads[i].phase.Draining? && s.threads[i].local == []
    ensures History(c, SettleStep(s, i))
  {
    var t := s.threads[i];
    var s' := SettleStep(s, i);
    assert ThreadHistory(t);
    GroupingConserves(t);
    NobodyExitedBefore(s, i);
    PrivateMove(c, s, i, s'.threads[i], s');
  }

  /** While a thread holds a token nobody has exited. */
  lemma NobodyExitedBefore(s: State, i: nat)
    requires Inv(s) && i < |s.threads| && PhaseTokens(s.threads[i].phase) > 0
    ensures s.counter > 0
    ensures forall j :: 0 <= j < |s.threads| ==> !s.threads[j].phase.Exited?
  {
    SumBound(ThreadTokens, s.threads, i);
    forall j | 0 <= j < |s.threads|
      ensures !s.threads[j].phase.Exited?
    {
      assert Live(s.threads[j]);
    }
  }

  lemma HandlingHistory(c: Config, s: State, i: nat, m: Msg)
    requires History(c, s) && i < |s.threads| && s.threads[i].phase == Handling(m)
    ensures History(c, s.Put(i, RunMessage(i, s.threads[i], m).(phase := Draining)))
  {
    var t := s.threads[i];
    assert ThreadHistory(t);
    DeliverConserves(i, t, m.sends);
    var t' := RunMessage(i, t, m).(phase := Draining);
    PrivateMove(c, s, i, t', s.Put(i, t'));
  }

  lemma DetachHistory(c: Config, s: State, i: nat)
    requires History(c, s) && Sound(c, s) && s.fault.NoFault?
    requires i < |s.threads| && s.threads[i].phase.DrainingInit? && s.threads[i].local == []
    ensures History(c, DrainInitStep(s, i))
  {
    var t := s.threads[i];
    assert ThreadHistory(t) && ThreadShape(t);
    NobodyExitedBefore(s, i);
    PrivateMove(c, s, i, DrainInitStep(s, i).threads[i], DrainInitStep(s, i));
  }

  lemma DropHistory(c: Config, s: State, i: nat)
    requires History(c, s) && Sound(c, s) && s.fault.NoFault?
    requires i < |s.threads| && s.threads[i].phase.HandlingDrop?
    ensures History(c, DropStep(s, i))
  {
    assert ThreadHistory(s.threads[i]);
    NobodyExitedBefore(s, i);
    PrivateMove(c, s, i, DropStep(s, i).threads[i], DropStep(s, i));
  }

  /** The context that sends the Stops exits without having taken one. */
  lemma FinishHistory(c: Config, s: State, i: nat, t: Thread, s': State)
    requires History(c, s) && Inv(s) && i < |s.threads|
    requires s'.threads == s.threads[i := t] && s'.last == s.last
    requires s.threads[i].phase.Stopping? || s.threads[i].phase.FreeingLast? || s.threads[i].phase.FreeingOnDetach?
    requires t == s.threads[i].(phase := t.phase)
    requires t.phase.Stopping? || t.phase.FreeingLast? || t.phase.Waiting?
          || (t.phase.Exited? && !s.threads[i].phase.FreeingOnDetach?)
    ensures History(c, s')
  {
    assert ThreadHistory(s.threads[i]);
    assert s.counter > 0 ==> Live(s.threads[i]);
    forall j | 0 <= j < |s.threads|
      ensures StopHistory(s', j)
    {
      assert StopHistory(s, j);
    }
    HistoryPut(c, s, i, t, s');
  }

  lemma StopSendHistory(c: Config, s: State, i: nat)
    requires History(c, s) && Sound(c, s) && s.fault.NoFault?
    requires i < |s.threads| && s.threads[i].phase.Stopping?
    ensures History(c, StopStep(s, i, s.threads[i].phase.next, s.threads[i].phase.thenFree))
  {
    var t := s.threads[i];
    var next, thenFree := t.phase.next, t.phase.thenFree;
    if next + 1 >= |s.threads| {
      var p := if thenFree then FreeingLast else Exited;
      FinishHistory(c, s, i, t.(phase := p), StopStep(s, i, next, thenFree));
    } else {
      StopNextHistory(c, s, i, next, thenFree);
    }
  }

  lemma StopNextHistory(c: Config, s: State, i: nat, next: nat, thenFree: bool)
    requires History(c, s) && Inv(s) && i < |s.threads| && next + 1 < |s.threads|
    requires s.threads[i].phase == Stopping(next, thenFree)
    ensures History(c, StopStep(s, i, next, thenFree))
  {
    var t' := s.threads[i].(phase := Stopping(next + 1, thenFree));
    FinishHistory(c, s, i, t', s.Put(i, t'));
    StopPushHistory(c, s.Put(i, t'), LinkTarget(i, next));
  }

  lemma StopPushHistory(c: Config, s: State, j: nat)
    requires History(c, s) && j < |s.threads|
    ensures History(c, Push(s, j, Stop))
  {
    if s.threads[j].phase.Exited? {
      FaultKeepsHistory(c, s, Push(s, j, Stop));
    } else {
      HistoryForeignPush(c, s, j, Stop, Push(s, j, Stop));
    }
  }

  lemma ThreadStepHistory(c: Config, s: State, i: nat)
    requires History(c, s) && Sound(c, s) && s.fault.NoFault? && ThreadEnabled(s, i)
    ensures History(c, ThreadStep(c, s, i))
  {
    StepSound(c, s, ThreadMoves(i));
    match s.threads[i].phase
    case Initialising(ops) => InitHistory(c, s, i, ops);
    case DrainingInit =>
      if s.threads[i].local != [] {
        DrainHistory(c, s, i);
      } else {
        DetachHistory(c, s, i);
      }
    case FreeingOnDetach => FinishHistory(c, s, i, s.threads[i].(phase := Waiting), ThreadStep(c, s, i));
    case Waiting => ReceiveHistory(c, s, i);
    case Handling(m) => HandlingHistory(c, s, i, m);
    case Draining =>
      if s.threads[i].local != [] {
        DrainHistory(c, s, i);
      } else {
        SettleHistory(c, s, i);
      }
    case HandlingDrop => DropHistory(c, s, i);
    case Flushing(batch) => FlushHistory(c, s, i, batch);
    case Stopping(next, thenFree) => StopSendHistory(c, s, i);
    case FreeingLast => FinishHistory(c, s, i, s.threads[i].(phase := Exited), ThreadStep(c, s, i));
  }

  lemma AccessorStepHistory(c: Config, s: State, k: nat)
    requires History(c, s) && Sound(c, s) && s.fault.NoFault? && AccessorEnabled(s, k)
    ensures History(c, AccessorStep(s, k))
  {
    StepSound(c, s, AccessorMoves(k));
    var a := s.accessors[k];
    var s' := AccessorStep(s, k);
    if a.stage.Counted? && a.todo != [] {
      HistoryForeignPush(c, s, a.dest, Event(a.todo[0], Outside(k)), s');
    } else if a.todo != [] {
      StopHistoryKept(s, s');
      HistoryPut(c, s, a.dest, s.threads[a.dest], s');
    } else {
      HistoryForeignPush(c, s, a.dest, AccessorDropped, s');
    }
  }

  lemma StepHistory(c: Config, s: State, a: Action)
    requires Sound(c, s) && History(c, s) && Enabled(s, a)
    ensures History(c, Apply(c, s, a))
  {
    match a
    case ThreadMoves(i) => ThreadStepHistory(c, s, i);
    case AccessorMoves(k) => AccessorStepHistory(c, s, k);
  }

  lemma InitialHistory(c: Config)
    ensures History(c, Initial(c))
  {
  }

  lemma {:induction false} RunHistory(c: Config, s: State, run: seq<Action>, s': State)
    requires Sound(c, s) && History(c, s) && Reaches(c, s, run, s')
    ensures Sound(c, s') && History(c, s')
    decreases run
  {
    if run != [] {
      StepSound(c, s, run[0]);
      StepHistory(c, s, run[0]);
      RunHistory(c, Apply(c, s, run[0]), run[1..], s');
    }
  }
}
