/** Every run is finite: each step lowers a measure, whatever moves next. */
module Termination {
  import opened Sums
  import opened Messages
  import opened Links
  import opened Protocol
  import opened Invariant
  import opened InvariantSteps

  // Each message in a tree pays for being counted, pushed, received, run and settled.

  function MsgWeight(m: Msg): nat {
    8 * Nodes(m)
  }

  function SendWeight(x: Send): nat {
    8 * SendNodes(x)
  }

  function TodoWeight(m: Msg): nat {
    8 * Nodes(m) + 1
  }

  function ItemWeight(item: Item): nat {
    match item
    case Event(m, _) => 8 * Nodes(m) - 1
    case AccessorDropped => 3
    case Stop => 1
  }

  function OpWeight(op: InitOp): nat {
    match op
    case NewAccessor(_, todo) => 5 + Sum(TodoWeight, todo)
    case InitSend(send) => 1 + SendWeight(send)
  }

  function AccessorWeight(a: Accessor): nat {
    match a.stage
    case Idle => 4 + Sum(TodoWeight, a.todo)
    case Counted => 3 + Sum(TodoWeight, a.todo)
    case Dropped => 0
  }

  function PhaseWeight(n: nat, p: Phase): nat {
    match p
    case Initialising(ops) => 11 + Sum(OpWeight, ops)
    case DrainingInit => 10
    case FreeingOnDetach => 5
    case Waiting => 0
    case Handling(m) => 8 * Nodes(m) - 2
    case Draining => 4
    case HandlingDrop => 2
    case Flushing(batch) => 1 + Sum(SendWeight, batch)
    case Stopping(next, _) => 3 + (if next < n then 2 * (n - next) else 0)
    case FreeingLast => 2
    case Exited => 0
  }

  function ThreadWeight(n: nat, t: Thread): nat {
    PhaseWeight(n, t.phase) + Sum(ItemWeight, t.inbox) + Sum(MsgWeight, t.local) + Sum(SendWeight, t.unsent)
  }

  function Weigh(n: nat): Thread -> nat {
    (t: Thread) => ThreadWeight(n, t)
  }

  /** The Stops still to come are paid for in advance, as long as nobody has begun to send them. */
  function Reserve(n: nat, counter: int): nat {
    if counter > 0 then 2 * n + 8 else 0
  }

  function Measure(s: State): nat {
    Sum(Weigh(|s.threads|), s.threads) + Sum(AccessorWeight, s.accessors)
    + Reserve(|s.threads|, s.counter) + (if s.fault.NoFault? then 1 else 0)
  }

  // ---------- bookkeeping ----------

  lemma MeasurePut(s: State, i: nat, t: Thread)
    requires i < |s.threads|
    ensures Measure(s.Put(i, t))
         == Measure(s) - ThreadWeight(|s.threads|, s.threads[i]) + ThreadWeight(|s.threads|, t)
  {
    SumUpdate(Weigh(|s.threads|), s.threads, i, t);
  }

  lemma MeasurePush(s: State, j: nat, item: Item)
    requires j < |s.threads| && s.fault.NoFault?
    ensures Measure(Push(s, j, item)) <= Measure(s) + ItemWeight(item)
  {
    var r := s.threads[j];
    if !r.phase.Exited? {
      SumAppend(ItemWeight, r.inbox, item);
      MeasurePut(s, j, r.(inbox := r.inbox + [item]));
    }
  }

  lemma {:induction false} ScaledNodes(local: seq<Msg>, remote: seq<Send>)
    ensures Sum(MsgWeight, local) == 8 * Sum(Nodes, local)
    ensures Sum(SendWeight, remote) == 8 * Sum(SendNodes, remote)
  {
    if local != [] {
      ScaledNodes(local[1..], remote);
    } else if remote != [] {
      ScaledNodes(local, remote[1..]);
    }
  }

  /** Running sends moves their weight into the thread and adds none. */
  lemma DeliverWeight(n: nat, i: nat, t: Thread, sends: seq<Send>)
    ensures ThreadWeight(n, Deliver(i, t, sends)) == ThreadWeight(n, t) + 8 * NodesIn(sends)
  {
    var local, remote := LocalPart(i, sends), RemotePart(i, sends);
    SumConcat(MsgWeight, t.local, local);
    SumConcat(SendWeight, t.unsent, remote);
    SplitKeepsNodes(i, sends);
    ScaledNodes(local, remote);
  }

  lemma RunLocalWeight(n: nat, i: nat, t: Thread)
    requires t.local != []
    ensures ThreadWeight(n, RunLocal(i, t)) < ThreadWeight(n, t)
  {
    var top := t.local[|t.local| - 1];
    SumDropLast(MsgWeight, t.local);
    DeliverWeight(n, i, t.(local := t.local[..|t.local| - 1]), top.sends);
  }

  lemma PhaseChange(n: nat, t: Thread, p: Phase)
    ensures ThreadWeight(n, t.(phase := p)) == ThreadWeight(n, t) - PhaseWeight(n, t.phase) + PhaseWeight(n, p)
  {
  }

  // ---------- steps ----------

  lemma InitStepDecreases(c: Config, s: State, i: nat, ops: seq<InitOp>)
    requires s.fault.NoFault? && i < |s.threads| && s.threads[i].phase == Initialising(ops)
    requires s.counter > 0
    ensures Measure(InitStep(s, i, ops)) < Measure(s)
  {
    var t, n := s.threads[i], |s.threads|;
    if ops == [] {
      MeasurePut(s, i, t.(phase := DrainingInit));
    } else {
      var t' := t.(phase := Initialising(ops[1..]));
      match ops[0]
      case NewAccessor(dest, todo) =>
        if !s.freed && dest < n {
          MeasurePut(s, i, t');
          SumAppend(AccessorWeight, s.accessors, Accessor(dest, todo, Idle, []));
        }
      case InitSend(send) =>
        DeliverWeight(n, i, t', [send]);
        assert NodesIn([send]) == SendNodes(send) + NodesIn([send][1..]);
        assert Deliver(i, t, [send]).(phase := Initialising(ops[1..])) == Deliver(i, t', [send]);
        MeasurePut(s, i, Deliver(i, t', [send]));
    }
  }

  lemma SettleStepDecreases(s: State, i: nat)
    requires s.fault.NoFault? && i < |s.threads| && s.threads[i].phase.Draining?
    requires s.counter > 0
    ensures Measure(SettleStep(s, i)) < Measure(s)
  {
    var t := s.threads[i];
    if !s.freed {
      if t.unsent == [] {
        MeasurePut(s, i, t.(phase := Waiting));
        MeasurePut(s, i, t.(phase := Stopping(0, false)));
      } else {
        GroupingWeight(|s.threads|, t);
        MeasurePut(s, i, t.(phase := Flushing(Grouped(t.unsent)), unsent := []));
      }
    }
  }

  lemma GroupingWeight(n: nat, t: Thread)
    requires t.phase.Draining?
    ensures ThreadWeight(n, t.(phase := Flushing(Grouped(t.unsent)), unsent := [])) < ThreadWeight(n, t)
  {
    GroupedKeepsSum(SendWeight, t.unsent);
  }

  lemma FlushStepDecreases(c: Config, s: State, i: nat, batch: seq<Send>)
    requires s.fault.NoFault? && i < |s.threads| && s.threads[i].phase == Flushing(batch)
    ensures Measure(FlushStep(c, s, i, batch)) < Measure(s)
  {
    var t, n := s.threads[i], |s.threads|;
    if batch == [] {
      MeasurePut(s, i, t.(phase := Waiting));
    } else if InTable(n, c.route(i, batch[0].dest)) {
      var after := if |batch| == 1 then Waiting else Flushing(batch[1..]);
      var t' := t.(phase := after, pushed := t.pushed + [batch[0]]);
      PhaseChange(n, t, after);
      assert ThreadWeight(n, t') == ThreadWeight(n, t.(phase := after));
      MeasurePut(s, i, t');
      MeasurePush(s.Put(i, t'), LinkTarget(i, c.route(i, batch[0].dest)), Event(batch[0].msg, Context(i)));
    }
  }

  lemma StopStepDecreases(s: State, i: nat, next: nat, thenFree: bool)
    requires s.fault.NoFault? && i < |s.threads| && s.threads[i].phase == Stopping(next, thenFree)
    ensures Measure(StopStep(s, i, next, thenFree)) < Measure(s)
  {
    var t, n := s.threads[i], |s.threads|;
    if next + 1 >= n {
      MeasurePut(s, i, t.(phase := if thenFree then FreeingLast else Exited));
    } else {
      MeasurePut(s, i, t.(phase := Stopping(next + 1, thenFree)));
      MeasurePush(s.Put(i, t.(phase := Stopping(next + 1, thenFree))), LinkTarget(i, next), Stop);
    }
  }

  lemma ReceiveWeight(n: nat, t: Thread, p: Phase)
    requires t.phase.Waiting? && t.inbox != []
    requires PhaseWeight(n, p) < ItemWeight(t.inbox[0])
    ensures forall h, r ::
      ThreadWeight(n, t.(inbox := t.inbox[1..], received := r, phase := p, handledAny := h)) < ThreadWeight(n, t)
  {
    assert Sum(ItemWeight, t.inbox) == ItemWeight(t.inbox[0]) + Sum(ItemWeight, t.inbox[1..]);
  }

  lemma ReceiveStepDecreases(s: State, i: nat)
    requires s.fault.NoFault? && ThreadEnabled(s, i) && s.threads[i].phase.Waiting?
    ensures Measure(ReceiveStep(s, i)) < Measure(s)
  {
    var t, n := s.threads[i], |s.threads|;
    if t.inbox != [] {
      var s' := ReceiveStep(s, i);
      var t' := s'.threads[i];
      ReceiveWeight(n, t, t'.phase);
      assert t' == t.(inbox := t.inbox[1..], received := t'.received, phase := t'.phase, handledAny := t'.handledAny);
      MeasurePut(s, i, t');
    }
  }

  lemma DrainStepDecreases(s: State, i: nat)
    requires s.fault.NoFault? && i < |s.threads| && s.threads[i].local != []
    ensures Measure(s.Put(i, RunLocal(i, s.threads[i]))) < Measure(s)
  {
    RunLocalWeight(|s.threads|, i, s.threads[i]);
    MeasurePut(s, i, RunLocal(i, s.threads[i]));
  }

  lemma DetachStepDecreases(s: State, i: nat)
    requires s.fault.NoFault? && i < |s.threads| && s.threads[i].phase.DrainingInit?
    requires s.threads[i].local == [] && s.counter > 0
    ensures Measure(DrainInitStep(s, i)) < Measure(s)
  {
    var t := s.threads[i];
    MeasurePut(s, i, t.(phase := Waiting));
    MeasurePut(s, i, t.(phase := FreeingOnDetach));
  }

  lemma HandlingStepDecreases(s: State, i: nat, m: Msg)
    requires s.fault.NoFault? && i < |s.threads| && s.threads[i].phase == Handling(m)
    ensures Measure(s.Put(i, RunMessage(i, s.threads[i], m).(phase := Draining))) < Measure(s)
  {
    var t, n := s.threads[i], |s.threads|;
    DeliverWeight(n, i, t, m.sends);
    PhaseChange(n, RunMessage(i, t, m), Draining);
    MeasurePut(s, i, RunMessage(i, t, m).(phase := Draining));
  }

  lemma DropStepDecreases(s: State, i: nat)
    requires s.fault.NoFault? && i < |s.threads| && s.threads[i].phase.HandlingDrop?
    requires s.counter > 0
    ensures Measure(DropStep(s, i)) < Measure(s)
  {
    var t := s.threads[i];
    MeasurePut(s, i, t.(phase := Waiting));
    MeasurePut(s, i, t.(phase := Stopping(0, true)));
  }

  lemma FreeStepDecreases(s: State, i: nat, after: Phase)
    requires s.fault.NoFault? && i < |s.threads|
    requires PhaseWeight(|s.threads|, after) < PhaseWeight(|s.threads|, s.threads[i].phase)
    ensures Measure(FreeStep(s, i, after)) < Measure(s)
  {
    MeasurePut(s, i, s.threads[i].(phase := after));
  }

  lemma TokenHolder(s: State, i: nat)
    requires Inv(s) && i < |s.threads| && PhaseTokens(s.threads[i].phase) > 0
    ensures s.counter > 0
  {
    SumBound(ThreadTokens, s.threads, i);
  }

  lemma ThreadStepDecreases(c: Config, s: State, i: nat)
    requires Inv(s) && s.fault.NoFault? && ThreadEnabled(s, i)
    ensures Measure(ThreadStep(c, s, i)) < Measure(s)
  {
    if PhaseTokens(s.threads[i].phase) > 0 {
      TokenHolder(s, i);
    }
    match s.threads[i].phase
    case Initialising(ops) => InitStepDecreases(c, s, i, ops);
    case DrainingInit =>
      if s.threads[i].local != [] {
        DrainStepDecreases(s, i);
      } else {
        DetachStepDecreases(s, i);
      }
    case FreeingOnDetach => FreeStepDecreases(s, i, Waiting);
    case Waiting => ReceiveStepDecreases(s, i);
    case Handling(m) => HandlingStepDecreases(s, i, m);
    case Draining =>
      if s.threads[i].local != [] {
        DrainStepDecreases(s, i);
      } else {
        SettleStepDecreases(s, i);
      }
    case HandlingDrop => DropStepDecreases(s, i);
    case Flushing(batch) => FlushStepDecreases(c, s, i, batch);
    case Stopping(next, thenFree) => StopStepDecreases(s, i, next, thenFree);
    case FreeingLast => FreeStepDecreases(s, i, Exited);
  }

  lemma AccessorStepDecreases(c: Config, s: State, k: nat)
    requires Sound(c, s) && s.fault.NoFault? && AccessorEnabled(s, k)
    ensures Measure(AccessorStep(s, k)) < Measure(s)
  {
    if s.counter == 0 {
      NoTokensLeft(s);
    }
    var a := s.accessors[k];
    assert AccessorShape(|s.threads|, a);
    if a.stage.Counted? {
      var a' := HavingSent(a);
      SumUpdate(AccessorWeight, s.accessors, k, a');
      MeasurePush(s.(accessors := s.accessors[k := a']), a.dest, Event(a.todo[0], Outside(k)));
    } else if a.todo != [] {
      SumUpdate(AccessorWeight, s.accessors, k, a.(stage := Counted));
    } else {
      var a' := a.(stage := Dropped);
      SumUpdate(AccessorWeight, s.accessors, k, a');
      MeasurePush(s.(accessors := s.accessors[k := a']), a.dest, AccessorDropped);
    }
  }

  lemma StepDecreases(c: Config, s: State, a: Action)
    requires Sound(c, s) && Enabled(s, a)
    ensures Measure(Apply(c, s, a)) < Measure(s)
  {
    match a
    case ThreadMoves(i) => ThreadStepDecreases(c, s, i);
    case AccessorMoves(k) => AccessorStepDecreases(c, s, k);
  }

  /** No run is longer than the measure of the state it starts from. */
  lemma {:induction false} RunIsBounded(c: Config, s: State, run: seq<Action>, s': State)
    requires Sound(c, s) && Reaches(c, s, run, s')
    ensures |run| + Measure(s') <= Measure(s)
    decreases run
  {
    if run != [] {
      StepSound(c, s, run[0]);
      StepDecreases(c, s, run[0]);
      RunIsBounded(c, Apply(c, s, run[0]), run[1..], s');
    }
  }
}
