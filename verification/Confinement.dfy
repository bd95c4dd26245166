/**
 * Which contexts can ever be woken: a set of contexts is closed if no message that its members handle,
 * and no accessor, ever sends an event outside it or to an index outside a table. Every step keeps
 * that, forwards and backwards, whatever the route.
 */
module Confinement {
  import opened Sequences
  import opened Messages
  import opened Links
  import opened Protocol
  import opened Invariant
  import opened InvariantSteps
  import opened Delivery
  import opened DeliverySteps

  /** Running `m` in context `u`, and all it causes, uses no index outside a table and wakes only contexts of `h`. */
  predicate Within(c: Config, h: set<nat>, u: nat, m: Msg)
    decreases m
  {
    AllWithin(c, h, u, m.sends)
  }

  predicate AllWithin(c: Config, h: set<nat>, u: nat, sends: seq<Send>)
    decreases sends
  {
    sends == [] || (SendWithin(c, h, u, sends[0]) && AllWithin(c, h, u, sends[1..]))
  }

  predicate SendWithin(c: Config, h: set<nat>, u: nat, x: Send)
    decreases x, 1
  {
    if x.dest == u then Within(c, h, u, x.msg) else RemoteWithin(c, h, u, x)
  }

  /** The route takes a message of `u` to a context, which is in `h`, and there it stays within it. */
  predicate RemoteWithin(c: Config, h: set<nat>, u: nat, x: Send)
    decreases x, 0
  {
    && InTable(|c.scripts|, c.route(u, x.dest))
    && var v := LinkTarget(u, c.route(u, x.dest));
       v in h && Within(c, h, v, x.msg)
  }

  predicate TodoWithin(c: Config, h: set<nat>, dest: nat, todo: seq<Msg>) {
    (todo != [] ==> dest in h) && forall m :: m in todo ==> Within(c, h, dest, m)
  }

  /** What an initialisation sends to others leaves its context only if that is ever woken. */
  predicate OpWithin(c: Config, h: set<nat>, u: nat, op: InitOp) {
    match op
    case NewAccessor(dest, todo) => TodoWithin(c, h, dest, todo)
    case InitSend(x) => u in h ==> SendWithin(c, h, u, x)
  }

  /** The whole configuration wakes only contexts of `h`, and these can send whatever they do send. */
  predicate Closed(c: Config, h: set<nat>) {
    forall u :: 0 <= u < |c.scripts| ==> forall op :: op in c.scripts[u] ==> OpWithin(c, h, u, op)
  }

  // ---------- the same of a state ----------

  predicate NoEvents(items: seq<Item>) {
    forall item :: item in items ==> !item.Event?
  }

  predicate OpsWithin(c: Config, h: set<nat>, u: nat, p: Phase) {
    p.Initialising? ==> forall op :: op in p.ops ==> OpWithin(c, h, u, op)
  }

  predicate AwakeWithin(c: Config, h: set<nat>, u: nat, t: Thread) {
    && (forall m :: m in t.local ==> Within(c, h, u, m))
    && (forall x :: x in t.unsent ==> RemoteWithin(c, h, u, x))
    && (forall item :: item in t.inbox ==> item.Event? ==> Within(c, h, u, item.msg))
    && (t.phase.Handling? ==> Within(c, h, u, t.phase.msg))
    && (t.phase.Flushing? ==> forall x :: x in t.phase.batch ==> RemoteWithin(c, h, u, x))
  }

  predicate ThreadWithin(c: Config, h: set<nat>, u: nat, t: Thread) {
    && OpsWithin(c, h, u, t.phase)
    && if u in h then AwakeWithin(c, h, u, t) else !t.handledAny && NoEvents(t.inbox)
  }

  predicate AccessorWithin(c: Config, h: set<nat>, a: Accessor) {
    TodoWithin(c, h, a.dest, a.todo)
  }

  predicate Confined(c: Config, h: set<nat>, s: State) {
    && (forall u :: 0 <= u < |s.threads| ==> ThreadWithin(c, h, u, s.threads[u]))
    && (forall k :: 0 <= k < |s.accessors| ==> AccessorWithin(c, h, s.accessors[k]))
  }

  /** Sends are within exactly when the messages they put into the two queues are. */
  lemma {:induction false} PartsWithin(c: Config, h: set<nat>, u: nat, sends: seq<Send>)
    ensures AllWithin(c, h, u, sends) <==>
      (forall m :: m in LocalPart(u, sends) ==> Within(c, h, u, m))
      && (forall x :: x in RemotePart(u, sends) ==> RemoteWithin(c, h, u, x))
  {
    if sends != [] {
      PartsWithin(c, h, u, sends[1..]);
      var local := if sends[0].dest == u then [sends[0].msg] else [];
      var remote := if sends[0].dest == u then [] else [sends[0]];
      assert forall m :: m in LocalPart(u, sends) <==> m in local || m in LocalPart(u, sends[1..]);
      assert forall x :: x in RemotePart(u, sends) <==> x in remote || x in RemotePart(u, sends[1..]);
      if sends[0].dest == u {
        assert sends[0].msg in local;
      } else {
        assert sends[0] in remote;
      }
    }
  }

  lemma DeliverWithin(c: Config, h: set<nat>, u: nat, t: Thread, sends: seq<Send>)
    requires u in h
    ensures AwakeWithin(c, h, u, Deliver(u, t, sends)) <==> AwakeWithin(c, h, u, t) && AllWithin(c, h, u, sends)
  {
    PartsWithin(c, h, u, sends);
    var local, remote := LocalPart(u, sends), RemotePart(u, sends);
    assert forall m :: m in t.local + local <==> m in t.local || m in local;
    assert forall x :: x in t.unsent + remote <==> x in t.unsent || x in remote;
  }

  // ---------- steps change the parts of a state without making or losing confinement ----------

  lemma PutConfined(c: Config, h: set<nat>, s: State, i: nat, t: Thread, s': State)
    requires i < |s.threads| && s'.threads == s.threads[i := t] && s'.accessors == s.accessors
    requires ThreadWithin(c, h, i, s.threads[i]) <==> ThreadWithin(c, h, i, t)
    ensures Confined(c, h, s) <==> Confined(c, h, s')
  {
    assert forall u :: 0 <= u < |s.threads| && u != i ==> s'.threads[u] == s.threads[u];
    if Confined(c, h, s') {
      assert ThreadWithin(c, h, i, s'.threads[i]);
    }
  }

  /** The receiving end of a push. */
  lemma InboxWithin(c: Config, h: set<nat>, j: nat, r: Thread, item: Item)
    ensures ThreadWithin(c, h, j, r.(inbox := r.inbox + [item])) <==>
      ThreadWithin(c, h, j, r) && (item.Event? ==> j in h && Within(c, h, j, item.msg))
  {
    assert forall x :: x in r.inbox + [item] <==> x in r.inbox || x == item;
  }

  lemma HeadWithin(c: Config, h: set<nat>, u: nat, t: Thread)
    requires t.inbox != []
    ensures (forall x :: x in t.inbox ==> x.Event? ==> Within(c, h, u, x.msg)) <==>
      (t.inbox[0].Event? ==> Within(c, h, u, t.inbox[0].msg))
      && (forall x :: x in t.inbox[1..] ==> x.Event? ==> Within(c, h, u, x.msg))
    ensures NoEvents(t.inbox) <==> !t.inbox[0].Event? && NoEvents(t.inbox[1..])
  {
    assert forall x :: x in t.inbox <==> x == t.inbox[0] || x in t.inbox[1..];
  }

  lemma ReceiveConfined(c: Config, h: set<nat>, s: State, i: nat)
    requires ThreadEnabled(s, i) && s.threads[i].phase.Waiting?
    ensures Confined(c, h, s) <==> Confined(c, h, ReceiveStep(s, i))
  {
    var t := s.threads[i];
    if t.inbox != [] {
      HeadWithin(c, h, i, t);
      PutConfined(c, h, s, i, ReceiveStep(s, i).threads[i], ReceiveStep(s, i));
    }
  }

  lemma TopWithin(c: Config, h: set<nat>, u: nat, t: Thread)
    requires t.local != []
    ensures var n := |t.local| - 1;
      AwakeWithin(c, h, u, t) <==> AwakeWithin(c, h, u, t.(local := t.local[..n])) && Within(c, h, u, t.local[n])
  {
    var n := |t.local| - 1;
    assert t.local == t.local[..n] + [t.local[n]];
    assert forall m :: m in t.local <==> m in t.local[..n] || m == t.local[n];
    assert t.local[n] in t.local;
  }

  lemma RunLocalConfined(c: Config, h: set<nat>, s: State, i: nat)
    requires i < |s.threads| && s.threads[i].local != []
    ensures Confined(c, h, s) <==> Confined(c, h, s.Put(i, RunLocal(i, s.threads[i])))
  {
    var t := s.threads[i];
    if i in h {
      DeliverWithin(c, h, i, t.(local := t.local[..|t.local| - 1]), t.local[|t.local| - 1].sends);
      TopWithin(c, h, i, t);
    }
    PutConfined(c, h, s, i, RunLocal(i, t), s.Put(i, RunLocal(i, t)));
  }

  lemma HandlingConfined(c: Config, h: set<nat>, s: State, i: nat, m: Msg)
    requires i < |s.threads| && s.threads[i].phase == Handling(m)
    ensures Confined(c, h, s) <==> Confined(c, h, s.Put(i, RunMessage(i, s.threads[i], m).(phase := Draining)))
  {
    var t := s.threads[i];
    var t' := RunMessage(i, t, m).(phase := Draining);
    if i in h {
      DeliverWithin(c, h, i, t.(phase := Draining), m.sends);
    }
    PutConfined(c, h, s, i, t', s.Put(i, t'));
  }

  lemma SettleConfined(c: Config, h: set<nat>, s: State, i: nat)
    requires i < |s.threads| && s.threads[i].phase.Draining?
    ensures Confined(c, h, s) <==> Confined(c, h, SettleStep(s, i))
  {
    GroupedMembers(s.threads[i].unsent);
    if !s.freed {
      PutConfined(c, h, s, i, SettleStep(s, i).threads[i], SettleStep(s, i));
    }
  }

  /** Thread `i` gives a message away and thread `j` gets it. */
  lemma HandOverConfined(c: Config, h: set<nat>, s: State, i: nat, t: Thread, j: nat, r: Thread, s': State)
    requires i < |s.threads| && j < |s.threads| && i != j
    requires s'.threads == s.threads[i := t][j := r] && s'.accessors == s.accessors
    requires ThreadWithin(c, h, i, s.threads[i]) && ThreadWithin(c, h, j, s.threads[j])
        <==> ThreadWithin(c, h, i, t) && ThreadWithin(c, h, j, r)
    ensures Confined(c, h, s) <==> Confined(c, h, s')
  {
    assert forall u :: 0 <= u < |s.threads| && u != i && u != j ==> s'.threads[u] == s.threads[u];
    if Confined(c, h, s') {
      assert ThreadWithin(c, h, i, s'.threads[i]) && ThreadWithin(c, h, j, s'.threads[j]);
    }
  }

  lemma BatchWithin(c: Config, h: set<nat>, u: nat, batch: seq<Send>)
    requires batch != []
    ensures (forall x :: x in batch ==> RemoteWithin(c, h, u, x)) <==>
      RemoteWithin(c, h, u, batch[0]) && (forall x :: x in batch[1..] ==> RemoteWithin(c, h, u, x))
  {
    assert forall x :: x in batch <==> x == batch[0] || x in batch[1..];
  }

  lemma FlushConfined(c: Config, h: set<nat>, s: State, i: nat, batch: seq<Send>)
    requires |c.scripts| == |s.threads| && i < |s.threads| && s.threads[i].phase == Flushing(batch)
    requires s.threads[i].handledAny && batch != []
    requires !FlushStep(c, s, i, batch).fault.SendToExited?
    ensures Confined(c, h, s) <==> Confined(c, h, FlushStep(c, s, i, batch))
  {
    var t := s.threads[i];
    var index := c.route(i, batch[0].dest);
    if InTable(|s.threads|, index) {
      var after := if |batch| == 1 then Waiting else Flushing(batch[1..]);
      var t' := t.(phase := after, pushed := t.pushed + [batch[0]]);
      var j, item := LinkTarget(i, index), Event(batch[0].msg, Context(i));
      BatchWithin(c, h, i, batch);
      InboxWithin(c, h, j, s.threads[j], item);
      HandOverConfined(c, h, s, i, t', j, s.threads[j].(inbox := s.threads[j].inbox + [item]),
                       FlushStep(c, s, i, batch));
    }
  }

  lemma StopConfined(c: Config, h: set<nat>, s: State, i: nat, next: nat, thenFree: bool)
    requires i < |s.threads| && s.threads[i].phase == Stopping(next, thenFree)
    requires !StopStep(s, i, next, thenFree).fault.SendToExited?
    ensures Confined(c, h, s) <==> Confined(c, h, StopStep(s, i, next, thenFree))
  {
    var t := s.threads[i];
    if next + 1 >= |s.threads| {
      var p := if thenFree then FreeingLast else Exited;
      PutConfined(c, h, s, i, t.(phase := p), s.Put(i, t.(phase := p)));
    } else {
      var j := LinkTarget(i, next);
      InboxWithin(c, h, j, s.threads[j], Stop);
      HandOverConfined(c, h, s, i, t.(phase := Stopping(next + 1, thenFree)), j,
                       s.threads[j].(inbox := s.threads[j].inbox + [Stop]), StopStep(s, i, next, thenFree));
    }
  }

  /** The next operation and the ones after it. */
  lemma OpsSplit(c: Config, h: set<nat>, u: nat, ops: seq<InitOp>)
    requires ops != []
    ensures OpsWithin(c, h, u, Initialising(ops)) <==>
      OpWithin(c, h, u, ops[0]) && OpsWithin(c, h, u, Initialising(ops[1..]))
  {
    assert forall op :: op in ops <==> op == ops[0] || op in ops[1..];
  }

  lemma CreateConfined(c: Config, h: set<nat>, s: State, i: nat, t: Thread, a: Accessor, s': State)
    requires i < |s.threads| && s'.threads == s.threads[i := t] && s'.accessors == s.accessors + [a]
    requires ThreadWithin(c, h, i, s.threads[i]) <==> ThreadWithin(c, h, i, t) && AccessorWithin(c, h, a)
    ensures Confined(c, h, s) <==> Confined(c, h, s')
  {
    assert forall u :: 0 <= u < |s.threads| && u != i ==> s'.threads[u] == s.threads[u];
    assert forall k :: 0 <= k < |s.accessors| ==> s'.accessors[k] == s.accessors[k];
    if Confined(c, h, s') {
      assert ThreadWithin(c, h, i, s'.threads[i]) && AccessorWithin(c, h, s'.accessors[|s.accessors|]);
    }
  }

  lemma SendSingle(c: Config, h: set<nat>, u: nat, x: Send)
    ensures AllWithin(c, h, u, [x]) <==> SendWithin(c, h, u, x)
  {
    SingleTail(x);
  }

  lemma InitConfined(c: Config, h: set<nat>, s: State, i: nat, ops: seq<InitOp>)
    requires i < |s.threads| && s.threads[i].phase == Initialising(ops)
    ensures Confined(c, h, s) <==> Confined(c, h, InitStep(s, i, ops))
  {
    var t, s' := s.threads[i], InitStep(s, i, ops);
    if ops == [] {
      PutConfined(c, h, s, i, t.(phase := DrainingInit), s');
    } else {
      OpsSplit(c, h, i, ops);
      match ops[0]
      case NewAccessor(dest, todo) =>
        if !s.freed && dest < |s.threads| {
          CreateConfined(c, h, s, i, t.(phase := Initialising(ops[1..])), Accessor(dest, todo, Idle, []), s');
        }
      case InitSend(x) =>
        if i in h {
          DeliverWithin(c, h, i, t.(phase := Initialising(ops[1..])), [x]);
          SendSingle(c, h, i, x);
        }
        PutConfined(c, h, s, i, s'.threads[i], s');
    }
  }

  /** An accessor gives a message away and its context gets it. */
  lemma AccessorPushConfined(c: Config, h: set<nat>, s: State, k: nat, a: Accessor, r: Thread, s': State)
    requires k < |s.accessors| && a.dest == s.accessors[k].dest < |s.threads|
    requires s'.accessors == s.accessors[k := a] && s'.threads == s.threads[a.dest := r]
    requires AccessorWithin(c, h, s.accessors[k]) && ThreadWithin(c, h, a.dest, s.threads[a.dest])
        <==> AccessorWithin(c, h, a) && ThreadWithin(c, h, a.dest, r)
    ensures Confined(c, h, s) <==> Confined(c, h, s')
  {
    assert forall u :: 0 <= u < |s.threads| && u != a.dest ==> s'.threads[u] == s.threads[u];
    assert forall x :: 0 <= x < |s.accessors| && x != k ==> s'.accessors[x] == s.accessors[x];
    if Confined(c, h, s') {
      assert ThreadWithin(c, h, a.dest, s'.threads[a.dest]) && AccessorWithin(c, h, s'.accessors[k]);
    }
  }

  lemma TodoSplit(c: Config, h: set<nat>, dest: nat, todo: seq<Msg>)
    requires todo != []
    ensures TodoWithin(c, h, dest, todo) <==>
      dest in h && Within(c, h, dest, todo[0]) && TodoWithin(c, h, dest, todo[1..])
  {
    assert forall m :: m in todo <==> m == todo[0] || m in todo[1..];
  }

  lemma AccessorConfined(c: Config, h: set<nat>, s: State, k: nat)
    requires AccessorEnabled(s, k) && !AccessorStep(s, k).fault.SendToExited?
    ensures Confined(c, h, s) <==> Confined(c, h, AccessorStep(s, k))
  {
    var a, s' := s.accessors[k], AccessorStep(s, k);
    var r := s.threads[a.dest];
    if a.stage.Counted? && a.todo != [] {
      var item := Event(a.todo[0], Outside(k));
      TodoSplit(c, h, a.dest, a.todo);
      InboxWithin(c, h, a.dest, r, item);
      AccessorPushConfined(c, h, s, k, HavingSent(a), r.(inbox := r.inbox + [item]), s');
    } else if a.todo != [] {
      if !s.freed {
        AccessorPushConfined(c, h, s, k, a.(stage := Counted), r, s');
      }
    } else {
      InboxWithin(c, h, a.dest, r, AccessorDropped);
      AccessorPushConfined(c, h, s, k, a.(stage := Dropped), r.(inbox := r.inbox + [AccessorDropped]), s');
    }
  }

  /** A step that changes nothing but a phase, to one that holds no message. */
  lemma PhaseConfined(c: Config, h: set<nat>, s: State, i: nat, p: Phase, s': State)
    requires i < |s.threads| && s'.accessors == s.accessors
    requires s'.threads == s.threads[i := s.threads[i].(phase := p)]
    requires !HoldsMessages(s.threads[i].phase) && !HoldsMessages(p)
    ensures Confined(c, h, s) <==> Confined(c, h, s')
  {
    PutConfined(c, h, s, i, s.threads[i].(phase := p), s');
  }

  predicate HoldsMessages(p: Phase) {
    p.Initialising? || p.Handling? || p.Flushing?
  }

  lemma ThreadConfined(c: Config, h: set<nat>, s: State, i: nat)
    requires |c.scripts| == |s.threads| && ThreadEnabled(s, i) && ThreadShape(s.threads[i])
    requires UnsentOnlyFromInit(s.threads[i]) && !ThreadStep(c, s, i).fault.SendToExited?
    ensures Confined(c, h, s) <==> Confined(c, h, ThreadStep(c, s, i))
  {
    var t, s' := s.threads[i], ThreadStep(c, s, i);
    match t.phase
    case Initialising(ops) => InitConfined(c, h, s, i, ops);
    case DrainingInit =>
      if t.local != [] {
        RunLocalConfined(c, h, s, i);
      } else if !s.freed {
        PhaseConfined(c, h, s, i, s'.threads[i].phase, s');
      }
    case Waiting => ReceiveConfined(c, h, s, i);
    case Handling(m) => HandlingConfined(c, h, s, i, m);
    case Draining =>
      if t.local != [] {
        RunLocalConfined(c, h, s, i);
      } else {
        SettleConfined(c, h, s, i);
      }
    case Flushing(batch) => FlushConfined(c, h, s, i, batch);
    case Stopping(next, thenFree) => StopConfined(c, h, s, i, next, thenFree);
    case FreeingOnDetach | HandlingDrop | FreeingLast =>
      if !s.freed {
        PhaseConfined(c, h, s, i, s'.threads[i].phase, s');
      }
  }

  lemma StepConfined(c: Config, h: set<nat>, s: State, a: Action)
    requires Sound(c, s) && History(c, s) && |c.scripts| == |s.threads| && Enabled(s, a)
    ensures Confined(c, h, s) <==> Confined(c, h, Apply(c, s, a))
  {
    StepSound(c, s, a);
    match a
    case ThreadMoves(i) =>
      assert ThreadHistory(s.threads[i]);
      ThreadConfined(c, h, s, i);
    case AccessorMoves(k) => AccessorConfined(c, h, s, k);
  }

  /** Any state of a run is confined exactly when any other is. */
  lemma {:induction false} RunConfined(c: Config, h: set<nat>, s: State, run: seq<Action>, s': State)
    requires Sound(c, s) && History(c, s) && |c.scripts| == |s.threads| && Reaches(c, s, run, s')
    ensures Confined(c, h, s) <==> Confined(c, h, s')
    decreases run
  {
    if run != [] {
      StepSound(c, s, run[0]);
      StepKeepsContexts(c, s, run[0]);
      StepHistory(c, s, run[0]);
      StepConfined(c, h, s, run[0]);
      RunConfined(c, h, Apply(c, s, run[0]), run[1..], s');
    }
  }

  lemma InitialConfined(c: Config, h: set<nat>)
    ensures Confined(c, h, Initial(c)) <==> Closed(c, h)
  {
    var s := Initial(c);
    forall u | 0 <= u < |c.scripts|
      ensures ThreadWithin(c, h, u, s.threads[u]) <==> forall op :: op in c.scripts[u] ==> OpWithin(c, h, u, op)
    {
    }
  }
}
