/**
 * What an initialisation leaves unsent is fixed by its script, and so is whether it is ever sent: the
 * schedule has no say in it.
 */
module FirstMessages {
  import opened Sequences
  import opened Messages
  import opened Protocol
  import opened Invariant
  import opened InvariantSteps
  import opened Delivery
  import opened DeliverySteps
  import opened CleanStop
  import opened Drain
  import opened Runs
  import opened Confinement
  import opened Waking

  /** The sends among `ops`, in order. */
  function SendsOf(ops: seq<InitOp>): seq<Send> {
    if ops == [] then [] else (if ops[0].InitSend? then [ops[0].send] else []) + SendsOf(ops[1..])
  }

  /** What the script of context `i`, with all that it causes locally, leaves for other contexts. */
  function FirstUnsent(i: nat, script: seq<InitOp>): seq<Send> {
    Unsent(i, [], [], SendsOf(script))
  }

  /** What is unsent already, what `sends` will add, and what the local messages will then leave. */
  function Unsent(i: nat, unsent: seq<Send>, local: seq<Msg>, sends: seq<Send>): seq<Send> {
    (unsent + RemotePart(i, sends)) + Leaves(i, local + LocalPart(i, sends))
  }

  function SendsLeft(p: Phase): seq<Send> {
    if p.Initialising? then SendsOf(p.ops) else []
  }

  function Coming(i: nat, t: Thread): seq<Send> {
    Unsent(i, t.unsent, t.local, SendsLeft(t.phase))
  }

  predicate AsScripted(i: nat, t: Thread, script: seq<InitOp>) {
    !t.handledAny ==> Coming(i, t) == FirstUnsent(i, script)
  }

  predicate AllAsScripted(c: Config, s: State) {
    |s.threads| == |c.scripts| && forall i :: 0 <= i < |s.threads| ==> AsScripted(i, s.threads[i], c.scripts[i])
  }

  lemma SendTaken(i: nat, unsent: seq<Send>, local: seq<Msg>, x: Send, rest: seq<Send>)
    ensures Unsent(i, unsent + RemotePart(i, [x]), local + LocalPart(i, [x]), rest)
         == Unsent(i, unsent, local, [x] + rest)
  {
    LocalPartConcat(i, [x], rest);
    Associative(unsent, RemotePart(i, [x]), RemotePart(i, rest));
    Associative(local, LocalPart(i, [x]), LocalPart(i, rest));
  }

  lemma LocalRun(i: nat, t: Thread)
    requires t.local != [] && !t.phase.Initialising?
    ensures Coming(i, RunLocal(i, t)) == Coming(i, t)
  {
    var n := |t.local| - 1;
    var top, t' := t.local[n], RunLocal(i, t);
    NothingMore(i, t.unsent, t.local);
    NothingMore(i, t'.unsent, t'.local);
    LeavesStep(i, t.local);
    Associative(t.unsent, RemotePart(i, top.sends), Leaves(i, t'.local));
  }

  lemma NothingMore(i: nat, unsent: seq<Send>, local: seq<Msg>)
    ensures Unsent(i, unsent, local, []) == unsent + Leaves(i, local)
  {
    Empty(unsent);
    Empty(local);
  }

  lemma InitAsScripted(s: State, i: nat, ops: seq<InitOp>, script: seq<InitOp>)
    requires i < |s.threads| && s.threads[i].phase == Initialising(ops) && AsScripted(i, s.threads[i], script)
    ensures AsScripted(i, InitStep(s, i, ops).threads[i], script)
  {
    var t := s.threads[i];
    if ops != [] {
      Empty(SendsOf(ops[1..]));
      if ops[0].InitSend? {
        SendTaken(i, t.unsent, t.local, ops[0].send, SendsOf(ops[1..]));
      }
    }
  }

  /** Before its first event a thread only runs what its script has made it run. */
  lemma OwnStepAsScripted(c: Config, s: State, i: nat, script: seq<InitOp>)
    requires ThreadEnabled(s, i) && UnsentOnlyFromInit(s.threads[i]) && AsScripted(i, s.threads[i], script)
    ensures |ThreadStep(c, s, i).threads| == |s.threads|
    ensures AsScripted(i, ThreadStep(c, s, i).threads[i], script)
  {
    var t := s.threads[i];
    match t.phase
    case Initialising(ops) => InitAsScripted(s, i, ops, script);
    case DrainingInit =>
      if t.local != [] {
        LocalRun(i, t);
      }
    case Flushing(_) => LaterStep(c, s, i);
    case Handling(_) | Draining => LaterStep(c, s, i);
    case FreeingOnDetach | Waiting | HandlingDrop | Stopping(_, _) | FreeingLast => QuietStep(c, s, i);
  }

  lemma LaterStep(c: Config, s: State, i: nat)
    requires ThreadEnabled(s, i) && s.threads[i].handledAny
    ensures |ThreadStep(c, s, i).threads| == |s.threads| && ThreadStep(c, s, i).threads[i].handledAny
  {
  }

  lemma QuietStep(c: Config, s: State, i: nat)
    requires ThreadEnabled(s, i)
    requires match s.threads[i].phase
      case FreeingOnDetach | Waiting | HandlingDrop | Stopping(_, _) | FreeingLast => true
      case _ => false
    ensures var t, s' := s.threads[i], ThreadStep(c, s, i);
      && |s'.threads| == |s.threads|
      && s'.threads[i].unsent == t.unsent && s'.threads[i].local == t.local
      && !s'.threads[i].phase.Initialising? && (t.handledAny ==> s'.threads[i].handledAny)
  {
  }

  lemma StepAsScripted(c: Config, s: State, a: Action)
    requires AllAsScripted(c, s) && History(c, s) && Enabled(s, a)
    ensures AllAsScripted(c, Apply(c, s, a))
  {
    StepKeepsContexts(c, s, a);
    var s' := Apply(c, s, a);
    forall j | 0 <= j < |s.threads|
      ensures AsScripted(j, s'.threads[j], c.scripts[j])
    {
      assert AsScripted(j, s.threads[j], c.scripts[j]);
      match a
      case ThreadMoves(i) =>
        if i == j {
          assert ThreadHistory(s.threads[i]);
          OwnStepAsScripted(c, s, i, c.scripts[i]);
        } else {
          ThreadFrame(c, s, i, j);
        }
      case AccessorMoves(k) => AccessorFrame(s, k, j);
    }
  }

  lemma {:induction false} RunAsScripted(c: Config, s: State, run: seq<Action>, s': State)
    requires Sound(c, s) && History(c, s) && AllAsScripted(c, s) && Reaches(c, s, run, s')
    ensures AllAsScripted(c, s')
    decreases run
  {
    if run != [] {
      StepSound(c, s, run[0]);
      StepHistory(c, s, run[0]);
      StepAsScripted(c, s, run[0]);
      RunAsScripted(c, Apply(c, s, run[0]), run[1..], s');
    }
  }

  /**
   * Once the counter is zero, a context that has handled an event has nothing unsent, and any other
   * has exactly what its script leaves.
   */
  lemma UnsentAtTheEnd(c: Config, s: State, i: nat)
    requires c.scripts != [] && Reachable(c, s) && s.counter == 0 && i < |s.threads|
    ensures |s.threads| == |c.scripts|
    ensures s.threads[i].unsent == if s.threads[i].handledAny then [] else FirstUnsent(i, c.scripts[i])
  {
    var run :| Reaches(c, Initial(c), run, s);
    ReachableIsSound(c, s);
    InitialSound(c);
    InitialHistory(c);
    RunAsScripted(c, Initial(c), run, s);
    NoTokensLeft(s);
    var t := s.threads[i];
    assert ThreadHistory(t) && ThreadShape(t) && AsScripted(i, t, c.scripts[i]);
    NothingMore(i, t.unsent, t.local);
    Empty(t.unsent);
  }

  /** So the schedule has no say in which contexts handle an event, nor in what they lose. */
  lemma SameContextsWake(c: Config, s: State, other: State, i: nat)
    requires c.scripts != [] && Reachable(c, s) && Reachable(c, other) && s.counter == 0 && other.counter == 0
    requires i < |c.scripts|
    ensures |s.threads| == |other.threads| == |c.scripts|
    ensures s.threads[i].handledAny <==> other.threads[i].handledAny
    ensures s.threads[i].unsent == other.threads[i].unsent
  {
    AwakeIsLeastClosed(c, s);
    AwakeIsLeastClosed(c, other);
    ReachableIsSound(c, s);
    ReachableIsSound(c, other);
    assert i in Awake(s) <==> i in Awake(other);
    UnsentAtTheEnd(c, s, i);
    UnsentAtTheEnd(c, other, i);
  }

  /**
   * A context loses messages if and only if some closed set of contexts leaves it out and its script
   * leaves something unsent.
   */
  lemma LossIff(c: Config, s: State, i: nat)
    requires c.scripts != [] && Reachable(c, s) && s.counter == 0 && i < |s.threads|
    ensures |s.threads| == |c.scripts|
    ensures s.threads[i].unsent != [] <==>
      (exists h :: Closed(c, h) && i !in h) && FirstUnsent(i, c.scripts[i]) != []
  {
    UnsentAtTheEnd(c, s, i);
    AwakeIsLeastClosed(c, s);
    if s.threads[i].handledAny {
      assert i in Awake(s);
    } else {
      assert i !in Awake(s);
    }
  }
}
