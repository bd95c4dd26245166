/**
 * What a context runs, and what it produces for others, are functions of its script and of the events it
 * has received: first its initialisation's local messages, then the traversal of each event, in order.
 */
module Traces {
  import opened Sequences
  import opened Messages
  import opened Protocol
  import opened Invariant
  import opened InvariantSteps
  import opened CleanStop
  import opened Drain
  import opened Runs
  import opened FirstMessages

  /** What the initialisation of context `i` makes it run. */
  function FirstRun(i: nat, script: seq<InitOp>): seq<Msg> {
    LastFirst(i, LocalPart(i, SendsOf(script)))
  }

  /** What the events among `items` make context `i` run: each with all that it keeps local, in order. */
  function Traversals(i: nat, items: seq<Item>): seq<Msg> {
    if items == [] then []
    else (if items[0].Event? then DepthFirst(i, items[0].msg) else []) + Traversals(i, items[1..])
  }

  function InHand(i: nat, p: Phase): seq<Msg> {
    if p.Handling? then DepthFirst(i, p.msg) else []
  }

  /** What thread `i` will run before it receives again. */
  function ToRun(i: nat, t: Thread): seq<Msg> {
    InHand(i, t.phase) + LastFirst(i, t.local + LocalPart(i, SendsLeft(t.phase)))
  }

  predicate Traced(i: nat, t: Thread, script: seq<InitOp>) {
    && t.ran + ToRun(i, t) == FirstRun(i, script) + Traversals(i, t.received)
    && t.produced + RemotePart(i, SendsLeft(t.phase)) == RemotePart(i, SendsOf(script)) + Produced(i, t.ran)
  }

  predicate AllTraced(c: Config, s: State) {
    |s.threads| == |c.scripts| && forall i :: 0 <= i < |s.threads| ==> Traced(i, s.threads[i], c.scripts[i])
  }

  lemma {:induction false} TraversalsAppend(i: nat, items: seq<Item>, item: Item)
    ensures Traversals(i, items + [item])
         == Traversals(i, items) + if item.Event? then DepthFirst(i, item.msg) else []
  {
    if items == [] {
      Empty([item]);
      SingleTail(item);
    } else {
      HeadAndTail(items, [item]);
      TraversalsAppend(i, items[1..], item);
      Associative(if items[0].Event? then DepthFirst(i, items[0].msg) else [], Traversals(i, items[1..]),
                  if item.Event? then DepthFirst(i, item.msg) else []);
    }
  }

  lemma InitTraced(s: State, i: nat, ops: seq<InitOp>, script: seq<InitOp>)
    requires i < |s.threads| && s.threads[i].phase == Initialising(ops) && Traced(i, s.threads[i], script)
    ensures |InitStep(s, i, ops).threads| == |s.threads| && Traced(i, InitStep(s, i, ops).threads[i], script)
  {
    var t := s.threads[i];
    if ops != [] {
      Empty(SendsOf(ops[1..]));
      if ops[0].InitSend? {
        LocalPartConcat(i, [ops[0].send], SendsOf(ops[1..]));
        Associative(t.local, LocalPart(i, [ops[0].send]), LocalPart(i, SendsOf(ops[1..])));
        Associative(t.produced, RemotePart(i, [ops[0].send]), RemotePart(i, SendsOf(ops[1..])));
      }
    }
  }

  /** Running a message takes it off what is to be run, and puts what it keeps local in its place. */
  lemma RunTraced(i: nat, t: Thread, m: Msg, t': Thread, script: seq<InitOp>)
    requires Traced(i, t, script) && !t.phase.Initialising? && !t'.phase.Initialising?
    requires t'.ran == t.ran + [m] && t'.received == t.received
    requires t'.produced == t.produced + RemotePart(i, m.sends) && ToRun(i, t) == [m] + ToRun(i, t')
    ensures Traced(i, t', script)
  {
    Associative(t.ran, [m], ToRun(i, t'));
    ProducedAppend(i, t.ran, m);
    Associative(RemotePart(i, SendsOf(script)), Produced(i, t.ran), RemotePart(i, m.sends));
    Empty(t.produced);
    Empty(t'.produced);
  }

  /** Between initialisation and the next event nothing but the local queue is to be run. */
  lemma OnlyLocalToRun(i: nat, t: Thread)
    requires !t.phase.Initialising?
    ensures ToRun(i, t) == InHand(i, t.phase) + LastFirst(i, t.local)
    ensures !t.phase.Handling? ==> ToRun(i, t) == LastFirst(i, t.local)
  {
    Empty(t.local);
    Empty(LastFirst(i, t.local));
  }

  lemma LocalTraced(i: nat, t: Thread, script: seq<InitOp>)
    requires Traced(i, t, script) && t.local != [] && !t.phase.Initialising? && !t.phase.Handling?
    ensures Traced(i, RunLocal(i, t), script)
  {
    OnlyLocalToRun(i, t);
    OnlyLocalToRun(i, RunLocal(i, t));
    LeavesStep(i, t.local);
    RunTraced(i, t, t.local[|t.local| - 1], RunLocal(i, t), script);
  }

  lemma HandlingTraced(i: nat, t: Thread, m: Msg, script: seq<InitOp>)
    requires Traced(i, t, script) && t.phase == Handling(m)
    ensures Traced(i, RunMessage(i, t, m).(phase := Draining), script)
  {
    var t' := RunMessage(i, t, m).(phase := Draining);
    OnlyLocalToRun(i, t);
    OnlyLocalToRun(i, t');
    LastFirstConcat(i, t.local, LocalPart(i, m.sends));
    Associative([m], LastFirst(i, LocalPart(i, m.sends)), LastFirst(i, t.local));
    RunTraced(i, t, m, t', script);
  }

  /** The item taken adds its own traversal to what is to be run. */
  lemma TakenTraced(i: nat, t: Thread, item: Item, t': Thread, script: seq<InitOp>)
    requires Traced(i, t, script) && t.phase.Waiting? && t.local == []
    requires t'.local == [] && t'.ran == t.ran && t'.produced == t.produced
    requires t'.received == t.received + [item] && !t'.phase.Initialising?
    requires InHand(i, t'.phase) == if item.Event? then DepthFirst(i, item.msg) else []
    ensures Traced(i, t', script)
  {
    OnlyLocalToRun(i, t);
    OnlyLocalToRun(i, t');
    TraversalsAppend(i, t.received, item);
    Empty(InHand(i, t'.phase));
    Empty(t.ran);
    Associative(FirstRun(i, script), Traversals(i, t.received), InHand(i, t'.phase));
  }

  lemma ReceiveTraced(s: State, i: nat, script: seq<InitOp>)
    requires ThreadEnabled(s, i) && s.threads[i].phase.Waiting?
    requires s.threads[i].local == [] && Traced(i, s.threads[i], script)
    ensures |ReceiveStep(s, i).threads| == |s.threads| && Traced(i, ReceiveStep(s, i).threads[i], script)
  {
    var t := s.threads[i];
    if t.inbox != [] {
      var t' := t.(inbox := t.inbox[1..], received := t.received + [t.inbox[0]]);
      match t.inbox[0]
      case Event(m, _) => TakenTraced(i, t, t.inbox[0], t'.(phase := Handling(m), handledAny := true), script);
      case AccessorDropped => TakenTraced(i, t, t.inbox[0], t'.(phase := HandlingDrop), script);
      case Stop => TakenTraced(i, t, t.inbox[0], t'.(phase := Exited), script);
    }
  }

  /** Its next step runs a message, or takes the next operation or item. */
  predicate RunsOrTakes(t: Thread) {
    match t.phase
    case Initialising(_) | Waiting | Handling(_) => true
    case DrainingInit | Draining => t.local != []
    case _ => false
  }

  /** Neither run nor received anything. */
  predicate Unmoved(t: Thread, t': Thread) {
    && t'.local == t.local && t'.ran == t.ran && t'.received == t.received && t'.produced == t.produced
    && !t'.phase.Initialising? && !t'.phase.Handling?
  }

  lemma UnmovedTraced(i: nat, t: Thread, t': Thread, script: seq<InitOp>)
    requires Traced(i, t, script) && Unmoved(t, t') && !t.phase.Initialising? && !t.phase.Handling?
    ensures Traced(i, t', script)
  {
    OnlyLocalToRun(i, t);
    OnlyLocalToRun(i, t');
  }

  lemma FlushUnmoved(c: Config, s: State, i: nat, batch: seq<Send>)
    requires i < |s.threads| && s.threads[i].phase == Flushing(batch)
    ensures |FlushStep(c, s, i, batch).threads| == |s.threads|
    ensures Unmoved(s.threads[i], FlushStep(c, s, i, batch).threads[i])
  {
  }

  lemma StopUnmoved(s: State, i: nat, next: nat, thenFree: bool)
    requires i < |s.threads| && s.threads[i].phase == Stopping(next, thenFree)
    ensures |StopStep(s, i, next, thenFree).threads| == |s.threads|
    ensures Unmoved(s.threads[i], StopStep(s, i, next, thenFree).threads[i])
  {
  }

  lemma OthersUnmoved(c: Config, s: State, i: nat)
    requires ThreadEnabled(s, i) && !RunsOrTakes(s.threads[i])
    ensures |ThreadStep(c, s, i).threads| == |s.threads|
    ensures Unmoved(s.threads[i], ThreadStep(c, s, i).threads[i])
  {
    match s.threads[i].phase
    case Flushing(batch) => FlushUnmoved(c, s, i, batch);
    case Stopping(next, thenFree) => StopUnmoved(s, i, next, thenFree);
    case FreeingOnDetach | HandlingDrop | FreeingLast | DrainingInit | Draining =>
  }

  lemma TakingStepTraced(c: Config, s: State, i: nat, script: seq<InitOp>)
    requires ThreadEnabled(s, i) && ThreadShape(s.threads[i]) && Traced(i, s.threads[i], script)
    requires s.threads[i].phase.Initialising? || s.threads[i].phase.Waiting?
    ensures |ThreadStep(c, s, i).threads| == |s.threads|
    ensures Traced(i, ThreadStep(c, s, i).threads[i], script)
  {
    match s.threads[i].phase
    case Initialising(ops) =>
      assert ThreadStep(c, s, i) == InitStep(s, i, ops);
      InitTraced(s, i, ops, script);
    case Waiting =>
      assert ThreadStep(c, s, i) == ReceiveStep(s, i);
      ReceiveTraced(s, i, script);
  }

  lemma RunningStepTraced(c: Config, s: State, i: nat, script: seq<InitOp>)
    requires ThreadEnabled(s, i) && Traced(i, s.threads[i], script) && RunsOrTakes(s.threads[i])
    requires !s.threads[i].phase.Initialising? && !s.threads[i].phase.Waiting?
    ensures |ThreadStep(c, s, i).threads| == |s.threads|
    ensures Traced(i, ThreadStep(c, s, i).threads[i], script)
  {
    match s.threads[i].phase
    case Handling(m) => HandlingTraced(i, s.threads[i], m, script);
    case DrainingInit | Draining => LocalTraced(i, s.threads[i], script);
  }

  lemma OwnStepTraced(c: Config, s: State, i: nat, script: seq<InitOp>)
    requires ThreadEnabled(s, i) && ThreadShape(s.threads[i]) && Traced(i, s.threads[i], script)
    ensures |ThreadStep(c, s, i).threads| == |s.threads|
    ensures Traced(i, ThreadStep(c, s, i).threads[i], script)
  {
    var t := s.threads[i];
    if t.phase.Initialising? || t.phase.Waiting? {
      TakingStepTraced(c, s, i, script);
    } else if RunsOrTakes(t) {
      RunningStepTraced(c, s, i, script);
    } else {
      OthersUnmoved(c, s, i);
      UnmovedTraced(i, t, ThreadStep(c, s, i).threads[i], script);
    }
  }

  lemma StepTraced(c: Config, s: State, a: Action)
    requires Sound(c, s) && AllTraced(c, s) && Enabled(s, a)
    ensures AllTraced(c, Apply(c, s, a))
  {
    StepKeepsContexts(c, s, a);
    var s' := Apply(c, s, a);
    forall j | 0 <= j < |s.threads|
      ensures Traced(j, s'.threads[j], c.scripts[j])
    {
      assert Traced(j, s.threads[j], c.scripts[j]);
      match a
      case ThreadMoves(i) =>
        if i == j {
          assert ThreadShape(s.threads[i]);
          OwnStepTraced(c, s, i, c.scripts[i]);
        } else {
          ThreadFrame(c, s, i, j);
        }
      case AccessorMoves(k) => AccessorFrame(s, k, j);
    }
  }

  lemma {:induction false} RunKeepsTraces(c: Config, s: State, run: seq<Action>, s': State)
    requires Sound(c, s) && AllTraced(c, s) && Reaches(c, s, run, s')
    ensures AllTraced(c, s')
    decreases run
  {
    if run != [] {
      StepSound(c, s, run[0]);
      StepTraced(c, s, run[0]);
      RunKeepsTraces(c, Apply(c, s, run[0]), run[1..], s');
    }
  }

  lemma InitialTraced(c: Config)
    ensures AllTraced(c, Initial(c))
  {
    forall i | 0 <= i < |c.scripts|
      ensures Traced(i, InitialThread(c.scripts[i]), c.scripts[i])
    {
      Empty(LocalPart(i, SendsOf(c.scripts[i])));
      Empty(RemotePart(i, SendsOf(c.scripts[i])));
      Empty(FirstRun(i, c.scripts[i]));
    }
  }

  /**
   * In every interleaving and with any route: whenever a context waits, or has exited, it has run exactly
   * the traversals of its initialisation and of the events received, in order, and has produced exactly
   * what its initialisation and those messages send to others, in order.
   */
  lemma RunsWhatItReceives(c: Config, s: State, i: nat)
    requires c.scripts != [] && Reachable(c, s) && i < |s.threads|
    requires s.threads[i].phase.Waiting? || s.threads[i].phase.Exited?
    ensures |s.threads| == |c.scripts|
    ensures s.threads[i].ran == FirstRun(i, c.scripts[i]) + Traversals(i, s.threads[i].received)
    ensures s.threads[i].produced == RemotePart(i, SendsOf(c.scripts[i])) + Produced(i, s.threads[i].ran)
  {
    var run :| Reaches(c, Initial(c), run, s);
    InitialSound(c);
    InitialTraced(c);
    RunKeepsTraces(c, Initial(c), run, s);
    ReachableIsSound(c, s);
    var t := s.threads[i];
    assert ThreadShape(t) && Traced(i, t, c.scripts[i]);
    OnlyLocalToRun(i, t);
    Empty(t.ran);
    Empty(t.produced);
  }

  /** So two runs in which a context has received the same events have made it run and produce the same. */
  lemma SameEventsSameTrace(c: Config, s: State, other: State, i: nat)
    requires c.scripts != [] && Reachable(c, s) && Reachable(c, other) && i < |s.threads| && i < |other.threads|
    requires s.threads[i].phase.Waiting? || s.threads[i].phase.Exited?
    requires other.threads[i].phase.Waiting? || other.threads[i].phase.Exited?
    requires Traversals(i, s.threads[i].received) == Traversals(i, other.threads[i].received)
    ensures s.threads[i].ran == other.threads[i].ran && s.threads[i].produced == other.threads[i].produced
  {
    RunsWhatItReceives(c, s, i);
    RunsWhatItReceives(c, other, i);
  }
}
