/**
 * Every message runs once, where it should: whatever the schedule and the route, a message is at any time
 * either still to be sent, underway, or has run, and as often as the configuration holds it.
 */
module Census {
  import opened Sequences
  import opened Sums
  import opened Messages
  import opened Links
  import opened Protocol
  import opened Invariant
  import opened InvariantSteps
  import opened Delivery
  import opened DeliverySteps
  import opened Runs
  import opened FirstMessages
  import opened Flow
  import opened GoodOrder

  // ---------- how often a message occurs ----------

  datatype Place = Anywhere | At(context: nat)

  /** How often does `msg` run at `place`, if what context `u` sends to another context `d` runs in `hop(u, d)`? */
  datatype Question = Question(msg: Msg, place: Place, hop: (nat, nat) -> nat)

  predicate Here(place: Place, u: nat) {
    place.Anywhere? || place.context == u
  }

  /** The messages of `c` run where `hop` says. */
  ghost predicate Follows(c: Config, hop: (nat, nat) -> nat) {
    forall u: nat, d: nat ::
      u < |c.scripts| && d != u && InTable(|c.scripts|, c.route(u, d)) ==> hop(u, d) == LinkTarget(u, c.route(u, d))
  }

  /** Where the route of `c` takes a message; one that it takes nowhere is counted where it should be. */
  function Taken(c: Config, u: nat, d: nat): nat {
    if InTable(|c.scripts|, c.route(u, d)) then LinkTarget(u, c.route(u, d)) else d
  }

  function ByRoute(c: Config): (nat, nat) -> nat {
    (u: nat, d: nat) => Taken(c, u, d)
  }

  /** Each message in the context of its key. */
  function ByKey(): (nat, nat) -> nat {
    (u: nat, d: nat) => d
  }

  /** In a tree that runs in context `u`: as its root, and in what it will cause. */
  function CountMsg(q: Question, u: nat, m: Msg): nat
    decreases m
  {
    (if m == q.msg && Here(q.place, u) then 1 else 0) + CountIn(q, u, m.sends)
  }

  function CountIn(q: Question, u: nat, sends: seq<Send>): nat
    decreases sends
  {
    if sends == [] then 0 else CountSend(q, u, sends[0]) + CountIn(q, u, sends[1..])
  }

  function CountSend(q: Question, u: nat, send: Send): nat
    decreases send
  {
    CountMsg(q, if send.dest == u then u else q.hop(u, send.dest), send.msg)
  }

  function OfMsg(q: Question, u: nat): Msg -> nat {
    (m: Msg) => CountMsg(q, u, m)
  }

  function OfSend(q: Question, u: nat): Send -> nat {
    (send: Send) => CountSend(q, u, send)
  }

  function OfItem(q: Question, u: nat): Item -> nat {
    (item: Item) => if item.Event? then CountMsg(q, u, item.msg) else 0
  }

  /** By itself, not counting what it causes. */
  function Itself(q: Question, u: nat): Msg -> nat {
    (m: Msg) => if m == q.msg && Here(q.place, u) then 1 else 0
  }

  function OfOp(q: Question, u: nat): InitOp -> nat {
    (op: InitOp) =>
      match op
      case NewAccessor(dest, todo) => Sum(OfMsg(q, dest), todo)
      case InitSend(send) => CountSend(q, u, send)
  }

  function OfAccessor(q: Question): Accessor -> nat {
    (a: Accessor) => Sum(OfMsg(q, a.dest), a.todo)
  }

  function PhaseCount(q: Question, u: nat, p: Phase): nat {
    match p
    case Initialising(ops) => Sum(OfOp(q, u), ops)
    case Handling(m) => CountMsg(q, u, m)
    case Flushing(batch) => Sum(OfSend(q, u), batch)
    case _ => 0
  }

  /** At thread `u`: to come or underway, and having run. */
  function ThreadCount(q: Question, u: nat, t: Thread): nat {
    PhaseCount(q, u, t.phase) + Sum(OfItem(q, u), t.inbox) + Sum(OfMsg(q, u), t.local) + Sum(OfSend(q, u), t.unsent)
    + Sum(Itself(q, u), t.ran)
  }

  function OfThread(q: Question): (nat, Thread) -> nat {
    (u: nat, t: Thread) => ThreadCount(q, u, t)
  }

  function Count(q: Question, s: State): nat {
    SumAt(OfThread(q), s.threads, 0) + Sum(OfAccessor(q), s.accessors)
  }

  /** In the configuration: what its initialisations send and what they give to accessors. */
  function OfScript(q: Question): (nat, seq<InitOp>) -> nat {
    (u: nat, script: seq<InitOp>) => Sum(OfOp(q, u), script)
  }

  function Scripted(q: Question, c: Config): nat {
    SumAt(OfScript(q), c.scripts, 0)
  }

  // ---------- bookkeeping ----------

  lemma {:induction false} SplitKeepsCount(q: Question, u: nat, sends: seq<Send>)
    ensures Sum(OfMsg(q, u), LocalPart(u, sends)) + Sum(OfSend(q, u), RemotePart(u, sends)) == CountIn(q, u, sends)
  {
    if sends != [] {
      SplitKeepsCount(q, u, sends[1..]);
      SumConcat(OfMsg(q, u), if sends[0].dest == u then [sends[0].msg] else [], LocalPart(u, sends[1..]));
      SumConcat(OfSend(q, u), if sends[0].dest == u then [] else [sends[0]], RemotePart(u, sends[1..]));
      SumSingle(OfMsg(q, u), sends[0].msg);
      SumSingle(OfSend(q, u), sends[0]);
    }
  }

  lemma CountPut(q: Question, s: State, i: nat, t: Thread)
    requires i < |s.threads|
    ensures Count(q, s.Put(i, t)) == Count(q, s) - ThreadCount(q, i, s.threads[i]) + ThreadCount(q, i, t)
  {
    SumAtUpdate(OfThread(q), s.threads, 0, i, t);
  }

  lemma CountPush(q: Question, s: State, j: nat, item: Item)
    requires j < |s.threads| && s.fault.NoFault? && !Push(s, j, item).fault.SendToExited?
    ensures Count(q, Push(s, j, item)) == Count(q, s) + if item.Event? then CountMsg(q, j, item.msg) else 0
  {
    var r := s.threads[j];
    SumAppend(OfItem(q, j), r.inbox, item);
    CountPut(q, s, j, r.(inbox := r.inbox + [item]));
  }

  lemma DeliverCount(q: Question, i: nat, t: Thread, sends: seq<Send>)
    ensures ThreadCount(q, i, Deliver(i, t, sends)) == ThreadCount(q, i, t) + CountIn(q, i, sends)
  {
    SumConcat(OfMsg(q, i), t.local, LocalPart(i, sends));
    SumConcat(OfSend(q, i), t.unsent, RemotePart(i, sends));
    SplitKeepsCount(q, i, sends);
  }

  lemma RunCount(q: Question, i: nat, t: Thread, m: Msg)
    ensures ThreadCount(q, i, RunMessage(i, t, m)) == ThreadCount(q, i, t) + CountMsg(q, i, m)
  {
    DeliverCount(q, i, t, m.sends);
    SumAppend(Itself(q, i), t.ran, m);
  }

  // ---------- steps ----------

  /** A step that only changes a phase, from one that holds no message to another. */
  lemma PhaseCountKept(q: Question, s: State, i: nat, p: Phase, s': State)
    requires i < |s.threads| && s'.accessors == s.accessors
    requires s'.threads == s.threads[i := s.threads[i].(phase := p)]
    requires PhaseCount(q, i, s.threads[i].phase) == PhaseCount(q, i, p) == 0
    ensures Count(q, s') == Count(q, s)
  {
    CountPut(q, s, i, s.threads[i].(phase := p));
  }

  lemma InitCount(q: Question, s: State, i: nat, ops: seq<InitOp>)
    requires i < |s.threads| && s.threads[i].phase == Initialising(ops)
    ensures Count(q, InitStep(s, i, ops)) == Count(q, s)
  {
    var t := s.threads[i];
    if ops == [] {
      CountPut(q, s, i, t.(phase := DrainingInit));
    } else {
      var t' := t.(phase := Initialising(ops[1..]));
      match ops[0]
      case NewAccessor(dest, todo) =>
        CountPut(q, s, i, t');
        SumAppend(OfAccessor(q), s.accessors, Accessor(dest, todo, Idle, []));
      case InitSend(send) =>
        FirstSendCount(q, i, t, send, ops);
        CountPut(q, s, i, Deliver(i, t', [send]));
        assert Deliver(i, t, [send]).(phase := Initialising(ops[1..])) == Deliver(i, t', [send]);
    }
  }

  lemma FirstSendCount(q: Question, i: nat, t: Thread, send: Send, ops: seq<InitOp>)
    requires t.phase == Initialising(ops) && ops != [] && ops[0] == InitSend(send)
    ensures ThreadCount(q, i, Deliver(i, t.(phase := Initialising(ops[1..])), [send])) == ThreadCount(q, i, t)
  {
    DeliverCount(q, i, t.(phase := Initialising(ops[1..])), [send]);
    SingleTail(send);
  }

  lemma RunLocalCount(q: Question, s: State, i: nat)
    requires i < |s.threads| && s.threads[i].local != []
    ensures Count(q, s.Put(i, RunLocal(i, s.threads[i]))) == Count(q, s)
  {
    var t := s.threads[i];
    var n := |t.local| - 1;
    SumDropLast(OfMsg(q, i), t.local);
    RunCount(q, i, t.(local := t.local[..n]), t.local[n]);
    CountPut(q, s, i, RunLocal(i, t));
  }

  lemma HandlingCount(q: Question, s: State, i: nat, m: Msg)
    requires i < |s.threads| && s.threads[i].phase == Handling(m)
    ensures Count(q, s.Put(i, RunMessage(i, s.threads[i], m).(phase := Draining))) == Count(q, s)
  {
    var t := s.threads[i];
    RunCount(q, i, t.(phase := Draining), m);
    assert RunMessage(i, t, m).(phase := Draining) == RunMessage(i, t.(phase := Draining), m);
    CountPut(q, s, i, RunMessage(i, t, m).(phase := Draining));
  }

  /** The head of the queue moves into the thread's hands. */
  lemma TakenCount(q: Question, s: State, i: nat, t': Thread)
    requires i < |s.threads|
    requires var t := s.threads[i];
      && t.phase.Waiting? && t.inbox != [] && t'.inbox == t.inbox[1..]
      && t'.local == t.local && t'.unsent == t.unsent && t'.ran == t.ran
      && PhaseCount(q, i, t'.phase) == if t.inbox[0].Event? then CountMsg(q, i, t.inbox[0].msg) else 0
    ensures Count(q, s.Put(i, t')) == Count(q, s)
  {
    var inbox := s.threads[i].inbox;
    assert Sum(OfItem(q, i), inbox) == OfItem(q, i)(inbox[0]) + Sum(OfItem(q, i), inbox[1..]);
    CountPut(q, s, i, t');
  }

  lemma ReceiveCount(q: Question, s: State, i: nat)
    requires ThreadEnabled(s, i) && s.threads[i].phase.Waiting?
    ensures Count(q, ReceiveStep(s, i)) == Count(q, s)
  {
    var t := s.threads[i];
    if t.inbox != [] {
      var t' := t.(inbox := t.inbox[1..], received := t.received + [t.inbox[0]]);
      match t.inbox[0]
      case Event(m, _) => TakenCount(q, s, i, t'.(phase := Handling(m), handledAny := true));
      case AccessorDropped => TakenCount(q, s, i, t'.(phase := HandlingDrop));
      case Stop => TakenCount(q, s, i, t'.(phase := Exited));
    }
  }

  lemma SettleCount(q: Question, s: State, i: nat)
    requires i < |s.threads| && s.threads[i].phase.Draining?
    ensures Count(q, SettleStep(s, i)) == Count(q, s)
  {
    var t := s.threads[i];
    if !s.freed {
      if t.unsent == [] {
        PhaseCountKept(q, s, i, SettleStep(s, i).threads[i].phase, SettleStep(s, i));
      } else {
        GroupedCount(q, i, t);
        CountPut(q, s, i, t.(phase := Flushing(Grouped(t.unsent)), unsent := []));
      }
    }
  }

  lemma GroupedCount(q: Question, i: nat, t: Thread)
    requires t.phase.Draining?
    ensures ThreadCount(q, i, t.(phase := Flushing(Grouped(t.unsent)), unsent := [])) == ThreadCount(q, i, t)
  {
    GroupedKeepsSum(OfSend(q, i), t.unsent);
  }

  /** The head of the batch leaves the thread. */
  lemma PushedCount(q: Question, i: nat, t: Thread, t': Thread)
    requires t.phase.Flushing? && t.phase.batch != []
    requires t'.phase == if |t.phase.batch| == 1 then Waiting else Flushing(t.phase.batch[1..])
    requires t'.inbox == t.inbox && t'.local == t.local && t'.unsent == t.unsent && t'.ran == t.ran
    ensures ThreadCount(q, i, t') + CountSend(q, i, t.phase.batch[0]) == ThreadCount(q, i, t)
  {
    var batch := t.phase.batch;
    if |batch| == 1 {
      assert batch[1..] == [];
    }
    assert Sum(OfSend(q, i), batch) == CountSend(q, i, batch[0]) + Sum(OfSend(q, i), batch[1..]);
  }

  /** And is counted where the route takes it. */
  lemma FlushCount(q: Question, c: Config, s: State, i: nat, batch: seq<Send>)
    requires Follows(c, q.hop) && |c.scripts| == |s.threads| && (forall x :: x in batch ==> x.dest != i)
    requires s.fault.NoFault? && i < |s.threads| && s.threads[i].phase == Flushing(batch)
    requires !FlushStep(c, s, i, batch).fault.SendToExited?
    ensures Count(q, FlushStep(c, s, i, batch)) == Count(q, s)
  {
    var t := s.threads[i];
    if batch == [] {
      CountPut(q, s, i, t.(phase := Waiting));
    } else if InTable(|s.threads|, c.route(i, batch[0].dest)) {
      assert batch[0] in batch;
      var after := if |batch| == 1 then Waiting else Flushing(batch[1..]);
      var t' := t.(phase := after, pushed := t.pushed + [batch[0]]);
      PushedCount(q, i, t, t');
      CountPut(q, s, i, t');
      CountPush(q, s.Put(i, t'), LinkTarget(i, c.route(i, batch[0].dest)), Event(batch[0].msg, Context(i)));
    }
  }

  lemma StoppingCount(q: Question, s: State, i: nat, next: nat, thenFree: bool)
    requires s.fault.NoFault? && i < |s.threads| && s.threads[i].phase == Stopping(next, thenFree)
    requires !StopStep(s, i, next, thenFree).fault.SendToExited?
    ensures Count(q, StopStep(s, i, next, thenFree)) == Count(q, s)
  {
    var t := s.threads[i];
    if next + 1 >= |s.threads| {
      CountPut(q, s, i, t.(phase := if thenFree then FreeingLast else Exited));
    } else {
      CountPut(q, s, i, t.(phase := Stopping(next + 1, thenFree)));
      CountPush(q, s.Put(i, t.(phase := Stopping(next + 1, thenFree))), LinkTarget(i, next), Stop);
    }
  }

  lemma ThreadStepCount(q: Question, c: Config, s: State, i: nat)
    requires Follows(c, q.hop) && |c.scripts| == |s.threads| && i < |s.threads|
    requires forall x :: x in BatchOf(s.threads[i].phase) ==> x.dest != i
    requires ThreadEnabled(s, i) && s.fault.NoFault? && !ThreadStep(c, s, i).fault.SendToExited?
    ensures Count(q, ThreadStep(c, s, i)) == Count(q, s)
  {
    var t, s' := s.threads[i], ThreadStep(c, s, i);
    match t.phase
    case Initialising(ops) => InitCount(q, s, i, ops);
    case DrainingInit =>
      if t.local != [] {
        RunLocalCount(q, s, i);
      } else if !s.freed {
        PhaseCountKept(q, s, i, s'.threads[i].phase, s');
      }
    case Waiting => ReceiveCount(q, s, i);
    case Handling(m) => HandlingCount(q, s, i, m);
    case Draining =>
      if t.local != [] {
        RunLocalCount(q, s, i);
      } else {
        SettleCount(q, s, i);
      }
    case Flushing(batch) => FlushCount(q, c, s, i, batch);
    case Stopping(next, thenFree) => StoppingCount(q, s, i, next, thenFree);
    case FreeingOnDetach | HandlingDrop | FreeingLast =>
      if !s.freed {
        PhaseCountKept(q, s, i, s'.threads[i].phase, s');
      }
  }

  lemma AccessorStepCount(q: Question, s: State, k: nat)
    requires AccessorEnabled(s, k) && s.fault.NoFault? && !AccessorStep(s, k).fault.SendToExited?
    ensures Count(q, AccessorStep(s, k)) == Count(q, s)
  {
    var a := s.accessors[k];
    if a.stage.Counted? && a.todo != [] {
      SumUpdate(OfAccessor(q), s.accessors, k, HavingSent(a));
      CountPush(q, s.(accessors := s.accessors[k := HavingSent(a)]), a.dest, Event(a.todo[0], Outside(k)));
    } else if a.todo != [] {
      SumUpdate(OfAccessor(q), s.accessors, k, a.(stage := Counted));
    } else {
      SumUpdate(OfAccessor(q), s.accessors, k, a.(stage := Dropped));
      CountPush(q, s.(accessors := s.accessors[k := a.(stage := Dropped)]), a.dest, AccessorDropped);
    }
  }

  lemma StepKeepsCount(q: Question, c: Config, s: State, a: Action)
    requires Follows(c, q.hop) && |c.scripts| == |s.threads|
    requires Sound(c, s) && History(c, s) && ProducesRemote(s) && Enabled(s, a)
    ensures Count(q, Apply(c, s, a)) == Count(q, s)
  {
    StepSound(c, s, a);
    match a {
      case ThreadMoves(i) =>
        assert ThreadHistory(s.threads[i]);
        NoneForOneself(s.threads[i], i);
        ThreadStepCount(q, c, s, i);
      case AccessorMoves(k) => AccessorStepCount(q, s, k);
    }
  }

  lemma {:induction false} RunKeepsCount(q: Question, c: Config, s: State, run: seq<Action>, s': State)
    requires Follows(c, q.hop) && |c.scripts| == |s.threads|
    requires Sound(c, s) && History(c, s) && ProducesRemote(s) && Reaches(c, s, run, s')
    ensures Count(q, s') == Count(q, s)
    decreases run
  {
    if run != [] {
      StepKeepsCount(q, c, s, run[0]);
      StepSound(c, s, run[0]);
      StepHistory(c, s, run[0]);
      StepKeepsContexts(c, s, run[0]);
      ProducesRemoteStep(c, s, run[0]);
      RunKeepsCount(q, c, Apply(c, s, run[0]), run[1..], s');
    }
  }

  lemma {:induction false} InitialCount(q: Question, scripts: seq<seq<InitOp>>, threads: seq<Thread>, from: nat)
    requires |threads| == |scripts|
    requires forall i :: 0 <= i < |scripts| ==> threads[i] == InitialThread(scripts[i])
    ensures SumAt(OfThread(q), threads, from) == SumAt(OfScript(q), scripts, from)
  {
    if scripts != [] {
      InitialCount(q, scripts[1..], threads[1..], from + 1);
    }
  }

  /** In every reachable state each message occurs, anywhere or at any one context, as often as it is scripted. */
  lemma CountIsKept(q: Question, c: Config, s: State)
    requires c.scripts != [] && Reachable(c, s) && Follows(c, q.hop)
    ensures Count(q, s) == Scripted(q, c)
  {
    var run :| Reaches(c, Initial(c), run, s);
    InitialSound(c);
    InitialHistory(c);
    RunKeepsCount(q, c, Initial(c), run, s);
    InitialCount(q, c.scripts, Initial(c).threads, 0);
  }

  // ---------- at the end ----------

  /** How often thread `u` has run the message. */
  function RunAt(q: Question): (nat, Thread) -> nat {
    (u: nat, t: Thread) => if Here(q.place, u) then multiset(t.ran)[q.msg] else 0
  }

  function TimesRun(q: Question, s: State): nat {
    SumAt(RunAt(q), s.threads, 0)
  }

  /** How often it occurs in what thread `u` never sent. */
  function UnsentOf(q: Question): (nat, Thread) -> nat {
    (u: nat, t: Thread) => Sum(OfSend(q, u), t.unsent)
  }

  function Lost(q: Question, s: State): nat {
    SumAt(UnsentOf(q), s.threads, 0)
  }

  lemma {:induction false} ItselfIsMultiplicity(q: Question, u: nat, ran: seq<Msg>)
    ensures Sum(Itself(q, u), ran) == if Here(q.place, u) then multiset(ran)[q.msg] else 0
  {
    if ran != [] {
      ItselfIsMultiplicity(q, u, ran[1..]);
      assert ran == [ran[0]] + ran[1..];
    }
  }

  /** Nothing is to come or underway at a thread but what it has left unsent. */
  predicate Done(t: Thread) {
    && t.local == [] && (forall item :: item in t.inbox ==> !item.Event?)
    && !t.phase.Initialising? && !t.phase.Handling? && !t.phase.Flushing?
  }

  lemma {:induction false} NoEventsCount(q: Question, u: nat, items: seq<Item>)
    requires forall item :: item in items ==> !item.Event?
    ensures Sum(OfItem(q, u), items) == 0
  {
    if items != [] {
      assert items[0] in items;
      NoEventsCount(q, u, items[1..]);
    }
  }

  lemma DoneCount(q: Question, u: nat, t: Thread)
    requires Done(t)
    ensures OfThread(q)(u, t) == RunAt(q)(u, t) + UnsentOf(q)(u, t)
  {
    NoEventsCount(q, u, t.inbox);
    ItselfIsMultiplicity(q, u, t.ran);
  }

  lemma DoneAtTheEnd(c: Config, s: State)
    requires Sound(c, s) && s.counter == 0
    ensures forall i :: 0 <= i < |s.threads| ==> Done(s.threads[i])
    ensures forall k :: 0 <= k < |s.accessors| ==> s.accessors[k].todo == []
  {
    NoTokensLeft(s);
    forall i | 0 <= i < |s.threads|
      ensures Done(s.threads[i])
    {
      assert ThreadShape(s.threads[i]);
      OnlyStopsLeft(s.threads[i].inbox);
    }
    forall k | 0 <= k < |s.accessors|
      ensures s.accessors[k].todo == []
    {
      assert AccessorShape(|s.threads|, s.accessors[k]);
    }
  }

  lemma CountAtTheEnd(q: Question, c: Config, s: State)
    requires Sound(c, s) && s.counter == 0
    ensures Count(q, s) == TimesRun(q, s) + Lost(q, s)
  {
    DoneAtTheEnd(c, s);
    AllDone(q, s.threads);
    SumAllZero(OfAccessor(q), s.accessors);
  }

  lemma AllDone(q: Question, threads: seq<Thread>)
    requires forall i :: 0 <= i < |threads| ==> Done(threads[i])
    ensures SumAt(OfThread(q), threads, 0) == SumAt(RunAt(q), threads, 0) + SumAt(UnsentOf(q), threads, 0)
  {
    forall i | 0 <= i < |threads|
      ensures OfThread(q)(0 + i, threads[i]) == RunAt(q)(0 + i, threads[i]) + UnsentOf(q)(0 + i, threads[i])
    {
      DoneCount(q, i, threads[i]);
    }
    SumAtPlus(OfThread(q), RunAt(q), UnsentOf(q), threads, 0);
  }

  /**
   * Once the counter is zero every message of every accessor and of every initialisation, with all that
   * it causes, has run exactly as often as it is scripted, but for what is left unsent: over all contexts,
   * and in each of them.
   */
  lemma EveryMessageRunsOnce(q: Question, c: Config, s: State)
    requires c.scripts != [] && Reachable(c, s) && s.counter == 0 && Follows(c, q.hop)
    ensures TimesRun(q, s) + Lost(q, s) == Scripted(q, c)
  {
    ReachableIsSound(c, s);
    CountIsKept(q, c, s);
    CountAtTheEnd(q, c, s);
  }

  lemma TimesRunAt(q: Question, s: State, v: nat)
    requires q.place == At(v) && v < |s.threads|
    ensures TimesRun(q, s) == multiset(s.threads[v].ran)[q.msg]
  {
    forall u: nat, t: Thread | u != v
      ensures RunAt(q)(u, t) == 0
    {
      assert !Here(q.place, u);
    }
    SumAtOnly(RunAt(q), s.threads, 0, v);
  }

  /** Links that lead where they should take each message to the context of its key. */
  lemma CorrectedIsByKey(c: Config)
    ensures Follows(Corrected(c), ByKey())
  {
    forall u: nat, d: nat | InTable(|c.scripts|, Corrected(c).route(u, d))
      ensures LinkTarget(u, Corrected(c).route(u, d)) == d
    {
      assert Serves(c, u, d);
    }
  }

  /** In a run in good order: exactly the messages with keys of a context run there, but for those unsent. */
  lemma EachRunsInItsContext(m: Msg, c: Config, s: State, v: nat)
    requires c.scripts != [] && Reachable(c, s) && s.counter == 0 && !Astray(c, s) && v < |s.threads|
    ensures var q := Question(m, At(v), ByKey());
      multiset(s.threads[v].ran)[m] + Lost(q, s) == Scripted(q, c)
  {
    var q := Question(m, At(v), ByKey());
    OrderlyEndIsClosed(c, s);
    CorrectedIsByKey(c);
    EveryMessageRunsOnce(q, Corrected(c), s);
    TimesRunAt(q, s, v);
  }

  lemma {:induction false} SameLost(q: Question, threads: seq<Thread>, others: seq<Thread>, from: nat)
    requires |threads| == |others| && forall i :: 0 <= i < |threads| ==> threads[i].unsent == others[i].unsent
    ensures SumAt(UnsentOf(q), threads, from) == SumAt(UnsentOf(q), others, from)
  {
    if threads != [] {
      SameLost(q, threads[1..], others[1..], from + 1);
    }
  }

  lemma SameTimesRun(q: Question, c: Config, s: State, other: State)
    requires c.scripts != [] && Reachable(c, s) && Reachable(c, other) && s.counter == 0 && other.counter == 0
    requires Follows(c, q.hop)
    ensures TimesRun(q, s) == TimesRun(q, other)
  {
    EveryMessageRunsOnce(q, c, s);
    EveryMessageRunsOnce(q, c, other);
    ReachableIsSound(c, s);
    ReachableIsSound(c, other);
    forall i | 0 <= i < |c.scripts|
      ensures s.threads[i].unsent == other.threads[i].unsent
    {
      SameContextsWake(c, s, other, i);
    }
    SameLost(q, s.threads, other.threads, 0);
  }

  /** So in two runs of a configuration to zero each context runs the same messages, each equally often. */
  lemma SameMessagesRun(c: Config, s: State, other: State, v: nat)
    requires c.scripts != [] && Reachable(c, s) && Reachable(c, other) && s.counter == 0 && other.counter == 0
    requires v < |c.scripts|
    ensures |s.threads| == |other.threads| == |c.scripts|
    ensures multiset(s.threads[v].ran) == multiset(other.threads[v].ran)
  {
    ReachableIsSound(c, s);
    ReachableIsSound(c, other);
    forall m
      ensures multiset(s.threads[v].ran)[m] == multiset(other.threads[v].ran)[m]
    {
      var q := Question(m, At(v), ByRoute(c));
      SameTimesRun(q, c, s, other);
      TimesRunAt(q, s, v);
      TimesRunAt(q, other, v);
    }
  }

  /** And if every context has handled an event, everything has run exactly as often as it was scripted. */
  lemma NothingLostIfAllWoken(q: Question, c: Config, s: State)
    requires c.scripts != [] && Reachable(c, s) && s.counter == 0 && Follows(c, q.hop)
    requires forall i :: 0 <= i < |s.threads| ==> s.threads[i].handledAny
    ensures TimesRun(q, s) == Scripted(q, c)
  {
    EveryMessageRunsOnce(q, c, s);
    forall i | 0 <= i < |s.threads|
      ensures s.threads[i].unsent == []
    {
      UnsentAtTheEnd(c, s, i);
    }
    NothingLost(q, s.threads, 0);
  }

  lemma {:induction false} NothingLost(q: Question, threads: seq<Thread>, from: nat)
    requires forall i :: 0 <= i < |threads| ==> threads[i].unsent == []
    ensures SumAt(UnsentOf(q), threads, from) == 0
  {
    if threads != [] {
      NothingLost(q, threads[1..], from + 1);
    }
  }
}
