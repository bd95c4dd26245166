/** Keys name existing contexts, in the configuration and in every message it ever causes. */
module Addressing {
  import opened Messages
  import opened Links
  import opened Protocol
  import opened InvariantSteps

  /** Every send in the tree names one of `n` contexts. */
  predicate Addressed(n: nat, m: Msg)
    decreases m
  {
    AllAddressed(n, m.sends)
  }

  predicate AllAddressed(n: nat, sends: seq<Send>)
    decreases sends
  {
    sends == [] || (SendAddressed(n, sends[0]) && AllAddressed(n, sends[1..]))
  }

  predicate SendAddressed(n: nat, x: Send)
    decreases x
  {
    x.dest < n && Addressed(n, x.msg)
  }

  predicate OpAddressed(n: nat, op: InitOp) {
    match op
    case NewAccessor(dest, todo) => dest < n && forall m :: m in todo ==> Addressed(n, m)
    case InitSend(x) => SendAddressed(n, x)
  }

  predicate ItemAddressed(n: nat, item: Item) {
    item.Event? ==> Addressed(n, item.msg)
  }

  predicate RemoteFrom(n: nat, i: nat, sends: seq<Send>) {
    forall x :: x in sends ==> SendAddressed(n, x) && x.dest != i
  }

  predicate PhaseAddressed(n: nat, i: nat, p: Phase) {
    match p
    case Initialising(ops) => forall op :: op in ops ==> OpAddressed(n, op)
    case Handling(m) => Addressed(n, m)
    case Flushing(batch) => RemoteFrom(n, i, batch)
    case _ => true
  }

  predicate ThreadAddressed(n: nat, i: nat, t: Thread) {
    && PhaseAddressed(n, i, t.phase)
    && (forall m :: m in t.local ==> Addressed(n, m))
    && RemoteFrom(n, i, t.unsent)
    && (forall item :: item in t.inbox ==> ItemAddressed(n, item))
  }

  predicate AccessorAddressed(n: nat, a: Accessor) {
    forall m :: m in a.todo ==> Addressed(n, m)
  }

  predicate WellAddressed(s: State) {
    && (forall i :: 0 <= i < |s.threads| ==> ThreadAddressed(|s.threads|, i, s.threads[i]))
    && (forall k :: 0 <= k < |s.accessors| ==> AccessorAddressed(|s.threads|, s.accessors[k]))
  }

  /** What the program's types give: keys and accessors name contexts that exist. */
  predicate ValidKeys(c: Config) {
    forall i :: 0 <= i < |c.scripts| ==>
      forall op :: op in c.scripts[i] ==> OpAddressed(|c.scripts|, op)
  }

  lemma {:induction false} PartsAddressed(n: nat, i: nat, sends: seq<Send>)
    requires AllAddressed(n, sends)
    ensures forall m :: m in LocalPart(i, sends) ==> Addressed(n, m)
    ensures RemoteFrom(n, i, RemotePart(i, sends))
  {
    if sends != [] {
      PartsAddressed(n, i, sends[1..]);
    }
  }

  lemma DeliverAddressed(n: nat, i: nat, t: Thread, sends: seq<Send>)
    requires ThreadAddressed(n, i, t) && AllAddressed(n, sends)
    ensures ThreadAddressed(n, i, Deliver(i, t, sends))
  {
    PartsAddressed(n, i, sends);
  }

  lemma PushAddressed(s: State, j: nat, item: Item)
    requires WellAddressed(s) && j < |s.threads| && ItemAddressed(|s.threads|, item)
    ensures WellAddressed(Push(s, j, item))
  {
  }

  lemma InitStepAddressed(s: State, i: nat, ops: seq<InitOp>)
    requires WellAddressed(s) && i < |s.threads| && s.threads[i].phase == Initialising(ops)
    ensures WellAddressed(InitStep(s, i, ops))
    ensures InitStep(s, i, ops).fault != s.fault ==> InitStep(s, i, ops).fault.BlockUsedAfterFree?
  {
    var t, n := s.threads[i], |s.threads|;
    assert ThreadAddressed(n, i, t);
    if ops != [] {
      assert OpAddressed(n, ops[0]);
      if ops[0].InitSend? {
        DeliverAddressed(n, i, t, [ops[0].send]);
      }
    }
  }

  lemma FlushStepAddressed(c: Config, s: State, i: nat, batch: seq<Send>)
    requires WellAddressed(s) && i < |s.threads| && s.threads[i].phase == Flushing(batch)
    ensures WellAddressed(FlushStep(c, s, i, batch))
    ensures FlushStep(c, s, i, batch).fault.BadAccessorContext? ==> s.fault.BadAccessorContext?
  {
    var t, n := s.threads[i], |s.threads|;
    assert ThreadAddressed(n, i, t);
    if batch != [] && InTable(n, c.route(i, batch[0].dest)) {
      assert batch[0] in batch;
      var after := if |batch| == 1 then Waiting else Flushing(batch[1..]);
      var mid := s.Put(i, t.(phase := after, pushed := t.pushed + [batch[0]]));
      assert WellAddressed(mid);
      PushAddressed(mid, LinkTarget(i, c.route(i, batch[0].dest)), Event(batch[0].msg, Context(i)));
    }
  }

  lemma LocalStepAddressed(s: State, i: nat)
    requires WellAddressed(s) && i < |s.threads| && s.threads[i].local != []
    ensures WellAddressed(s.Put(i, RunLocal(i, s.threads[i])))
  {
    var t := s.threads[i];
    assert ThreadAddressed(|s.threads|, i, t);
    assert t.local[|t.local| - 1] in t.local;
    DeliverAddressed(|s.threads|, i, t.(local := t.local[..|t.local| - 1]), t.local[|t.local| - 1].sends);
  }

  lemma SettleStepAddressed(s: State, i: nat)
    requires WellAddressed(s) && i < |s.threads|
    ensures WellAddressed(SettleStep(s, i))
  {
    assert ThreadAddressed(|s.threads|, i, s.threads[i]);
    GroupedMembers(s.threads[i].unsent);
  }

  lemma ReceiveStepAddressed(s: State, i: nat)
    requires WellAddressed(s) && s.fault.NoFault? && ThreadEnabled(s, i) && s.threads[i].phase.Waiting?
    ensures WellAddressed(ReceiveStep(s, i)) && NotABadKey(ReceiveStep(s, i).fault)
  {
    assert ThreadAddressed(|s.threads|, i, s.threads[i]);
    assert s.threads[i].inbox != [] ==> ItemAddressed(|s.threads|, s.threads[i].inbox[0]);
  }

  /** Where it cannot run any message, a thread's move keeps the addresses whatever its next phase. */
  lemma DetachStepAddressed(s: State, i: nat)
    requires WellAddressed(s) && s.fault.NoFault? && i < |s.threads| && s.threads[i].local == []
    ensures WellAddressed(DrainInitStep(s, i)) && NotABadKey(DrainInitStep(s, i).fault)
  {
    assert ThreadAddressed(|s.threads|, i, s.threads[i]);
  }

  lemma StopStepAddressed(s: State, i: nat, next: nat, thenFree: bool)
    requires WellAddressed(s) && i < |s.threads|
    ensures WellAddressed(StopStep(s, i, next, thenFree))
  {
    var t := s.threads[i];
    assert ThreadAddressed(|s.threads|, i, t);
    if next + 1 < |s.threads| {
      PushAddressed(s.Put(i, t.(phase := Stopping(next + 1, thenFree))), LinkTarget(i, next), Stop);
    }
  }

  predicate NotABadKey(f: Fault) {
    !f.BadAccessorContext?
  }

  lemma ThreadStepAddressed(c: Config, s: State, i: nat)
    requires WellAddressed(s) && s.fault.NoFault? && ThreadEnabled(s, i)
    ensures WellAddressed(ThreadStep(c, s, i)) && NotABadKey(ThreadStep(c, s, i).fault)
  {
    var t := s.threads[i];
    assert ThreadAddressed(|s.threads|, i, t);
    match t.phase
    case Initialising(ops) => InitStepAddressed(s, i, ops);
    case DrainingInit =>
      if t.local != [] {
        LocalStepAddressed(s, i);
      } else {
        DetachStepAddressed(s, i);
      }
    case FreeingOnDetach =>
    case Waiting => ReceiveStepAddressed(s, i);
    case Handling(m) => DeliverAddressed(|s.threads|, i, t, m.sends);
    case Draining =>
      if t.local != [] {
        LocalStepAddressed(s, i);
      } else {
        SettleStepAddressed(s, i);
      }
    case HandlingDrop =>
    case Flushing(batch) => FlushStepAddressed(c, s, i, batch);
    case Stopping(next, thenFree) => StopStepAddressed(s, i, next, thenFree);
    case FreeingLast =>
  }

  lemma AccessorStepAddressed(s: State, k: nat)
    requires WellAddressed(s) && s.fault.NoFault? && AccessorEnabled(s, k)
    ensures WellAddressed(AccessorStep(s, k)) && NotABadKey(AccessorStep(s, k).fault)
  {
    var a := s.accessors[k];
    assert AccessorAddressed(|s.threads|, a);
  }

  lemma {:induction false} RunAddressed(c: Config, s: State, run: seq<Action>, s': State)
    requires WellAddressed(s) && NotABadKey(s.fault) && Reaches(c, s, run, s')
    ensures WellAddressed(s') && NotABadKey(s'.fault)
    decreases run
  {
    if run != [] {
      StepKeepsContexts(c, s, run[0]);
      match run[0] {
        case ThreadMoves(i) => ThreadStepAddressed(c, s, i);
        case AccessorMoves(k) => AccessorStepAddressed(s, k);
      }
      RunAddressed(c, Apply(c, s, run[0]), run[1..], s');
    }
  }

  lemma InitialAddressed(c: Config)
    requires ValidKeys(c)
    ensures WellAddressed(Initial(c))
  {
  }
}
