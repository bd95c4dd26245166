/** The main results about messages between contexts, over every run of every configuration. */
module Flow {
  import opened Sequences
  import opened Messages
  import opened Links
  import opened Protocol
  import opened Invariant
  import opened InvariantSteps
  import opened Delivery
  import opened Runs
  import opened CleanStop
  import opened Outsiders
  import opened Shutdown

  /**
   * Whatever the route: what has arrived at `j` from `i` is what `i` has pushed of the messages routed
   * there, in order, and for each destination nothing produced is lost, repeated or overtaken.
   */
  lemma ArrivalsFollowTheRoute(c: Config, s: State, i: nat, j: nat)
    requires c.scripts != [] && Reachable(c, s) && i < |s.threads| && j < |s.threads|
    ensures FromOrigin(s.threads[j].received + s.threads[j].inbox, Context(i))
         == RoutedTo(c, |s.threads|, i, s.threads[i].pushed, j)
    ensures Conserved(s.threads[i])
  {
    ReachableIsSound(c, s);
    assert Arrived(c, s, i, j);
    assert ThreadHistory(s.threads[i]);
  }

  /**
   * For every sender and destination, what has arrived so far, what is about to be pushed and what is
   * still unsent are together, in this order, exactly what the sender's handlers produced.
   */
  lemma DeliveryIsExactAndOrdered(c: Config, s: State, i: nat, j: nat)
    requires c.scripts != [] && Reachable(c, s) && i < |s.threads| && j < |s.threads| && i != j
    requires forall x: nat, d: nat :: c.route(x, d) == IntendedLink(x, d)
    ensures FromOrigin(s.threads[j].received + s.threads[j].inbox, Context(i))
          + Bodies(ToDest(BatchOf(s.threads[i].phase), j)) + Bodies(ToDest(s.threads[i].unsent, j))
         == Bodies(ToDest(s.threads[i].produced, j))
  {
    ReachableIsSound(c, s);
    var t := s.threads[i];
    assert Arrived(c, s, i, j);
    assert ThreadHistory(t);
    PushedIsRemote(c, s, i);
    IntendedRouting(c, |s.threads|, i, t.pushed, j);
    BodiesConcat(ToDest(t.pushed, j), ToDest(BatchOf(t.phase), j));
    BodiesConcat(ToDest(t.pushed, j) + ToDest(BatchOf(t.phase), j), ToDest(t.unsent, j));
  }

  /** Once everybody has stopped, whoever handled an event has had all it produced received. */
  lemma EverythingIsReceivedAtTheEnd(c: Config, s: State, i: nat, j: nat)
    requires c.scripts != [] && Reachable(c, s) && i < |s.threads| && j < |s.threads| && i != j
    requires forall x: nat, d: nat :: c.route(x, d) == IntendedLink(x, d)
    requires AllExited(s) && s.threads[i].handledAny
    ensures FromOrigin(s.threads[j].received, Context(i)) == Bodies(ToDest(s.threads[i].produced, j))
  {
    DeliveryIsExactAndOrdered(c, s, i, j);
    LossExactlyWhenNothingHandled(c, s, i);
    ExitedAfterOneStop(c, s, j);
    Empty(s.threads[j].received);
    assert ToDest(s.threads[i].unsent, j) == [] && BatchOf(s.threads[i].phase) == [];
  }

  /**
   * What has arrived from an accessor is what it has sent, at its context and nowhere else. The
   * accessors there are, each with what it has sent and then what it has still to send, are together
   * with the operations not yet carried out exactly, and as often as, what the initialisations ask for.
   */
  lemma AccessorDeliveryIsExact(c: Config, s: State)
    requires c.scripts != [] && Reachable(c, s)
    ensures forall k, j :: 0 <= k < |s.accessors| && 0 <= j < |s.threads| ==>
      FromOrigin(Seen(s.threads[j]), Outside(k)) == if j == s.accessors[k].dest then s.accessors[k].sent else []
    ensures OpsLeft(s.threads) + OpsDone(s.accessors) == ScriptedOps(c.scripts)
  {
    ReachableOutsiders(c, s);
    forall k, j | 0 <= k < |s.accessors| && 0 <= j < |s.threads|
      ensures FromOrigin(Seen(s.threads[j]), Outside(k)) == if j == s.accessors[k].dest then s.accessors[k].sent else []
    {
      assert ArrivedFrom(s, k, j);
    }
  }

  /**
   * Once everybody has stopped, what the contexts have received from their accessors is, with
   * multiplicity and in order, exactly what the initialisations gave to accessors to send there.
   */
  lemma AccessorsAreServedAtTheEnd(c: Config, s: State)
    requires c.scripts != [] && Reachable(c, s) && AllExited(s)
    ensures HasContexts(s) && Served(s, |s.accessors|) == ScriptedOps(c.scripts)
  {
    ReachableOutsiders(c, s);
    AccessorsDone(c, s);
    NoOpsLeft(s.threads);
    ServedIsDone(s, |s.accessors|);
    assert s.accessors[..|s.accessors|] == s.accessors;
    NothingAdded(OpsDone(s.accessors));
  }

  lemma NothingAdded<T>(x: multiset<T>)
    ensures multiset{} + x == x
  {
  }

  lemma ReachableOutsiders(c: Config, s: State)
    requires c.scripts != [] && Reachable(c, s)
    ensures AllArrived(s) && FromScripts(c, s)
  {
    var run :| Reaches(c, Initial(c), run, s);
    InitialSound(c);
    InitialOutsiders(c);
    RunOutsiders(c, Initial(c), run, s);
  }

  lemma AccessorsDone(c: Config, s: State)
    requires c.scripts != [] && Reachable(c, s) && AllExited(s)
    ensures forall k :: 0 <= k < |s.accessors| ==>
      && s.accessors[k].dest < |s.threads| && s.accessors[k].todo == []
      && s.threads[s.accessors[k].dest].inbox == []
  {
    ReachableIsSound(c, s);
    ZeroAtTheEnd(c, s);
    ZeroMeansIdle(c, s);
    forall k | 0 <= k < |s.accessors|
      ensures s.accessors[k].dest < |s.threads| && s.accessors[k].todo == []
      ensures s.threads[s.accessors[k].dest].inbox == []
    {
      assert AccessorShape(|s.threads|, s.accessors[k]);
      ExitedAfterOneStop(c, s, s.accessors[k].dest);
    }
  }

  lemma ZeroAtTheEnd(c: Config, s: State)
    requires Sound(c, s) && AllExited(s)
    ensures s.counter == 0
  {
    assert s.counter > 0 ==> Live(s.threads[0]);
    assert s.counter == Tokens(s);
  }

  function Bodies(sends: seq<Send>): seq<Msg> {
    if sends == [] then [] else [sends[0].msg] + Bodies(sends[1..])
  }

  lemma {:induction false} BodiesConcat(xs: seq<Send>, ys: seq<Send>)
    ensures Bodies(xs + ys) == Bodies(xs) + Bodies(ys)
  {
    if xs == [] {
      Empty(ys);
    } else {
      HeadAndTail(xs, ys);
      BodiesConcat(xs[1..], ys);
      Associative([xs[0].msg], Bodies(xs[1..]), Bodies(ys));
    }
  }

  lemma {:induction false} IntendedRouting(c: Config, n: nat, i: nat, sends: seq<Send>, j: nat)
    requires i < n && j < n && i != j
    requires forall x: nat, d: nat :: c.route(x, d) == IntendedLink(x, d)
    requires forall x :: x in sends ==> x.dest != i
    ensures RoutedTo(c, n, i, sends, j) == Bodies(ToDest(sends, j))
  {
    if sends != [] {
      IntendedRouting(c, n, i, sends[1..], j);
      var d := sends[0].dest;
      assert Routes(c, n, i, d, j) <==> d == j;
      BodiesConcat(if d == j then [sends[0]] else [], ToDest(sends[1..], j));
      assert [sends[0]][1..] == [];
    }
  }

  /** The context whose messages the index as written takes from `i` to `j`: the neighbour on the near side. */
  function Neighbour(i: nat, j: nat): nat
    requires i != j
  {
    if i < j then j - 1 else j + 1
  }

  lemma {:induction false} CodedRouting(c: Config, n: nat, i: nat, sends: seq<Send>, j: nat)
    requires i < n && j < n && i != j
    requires forall x: nat, d: nat :: c.route(x, d) == CodedLink(x, d)
    requires forall x :: x in sends ==> x.dest != i
    ensures RoutedTo(c, n, i, sends, j) == Bodies(ToDest(sends, Neighbour(i, j)))
  {
    if sends != [] {
      CodedRouting(c, n, i, sends[1..], j);
      var d, near := sends[0].dest, Neighbour(i, j);
      assert Routes(c, n, i, d, j) <==> d == near;
      BodiesConcat(if d == near then [sends[0]] else [], ToDest(sends[1..], near));
      assert [sends[0]][1..] == [];
    }
  }

  /**
   * With the index as written, what has arrived at `j` from `i` is exactly what `i` has pushed for the
   * neighbour of `j`, in order: nothing from a neighbouring context, and never a message for `j`.
   */
  lemma CodedRouteDeliversToNeighbours(c: Config, s: State, i: nat, j: nat)
    requires c.scripts != [] && Reachable(c, s) && i < |s.threads| && j < |s.threads| && i != j
    requires forall x: nat, d: nat :: c.route(x, d) == CodedLink(x, d)
    ensures FromOrigin(s.threads[j].received + s.threads[j].inbox, Context(i))
         == Bodies(ToDest(s.threads[i].pushed, Neighbour(i, j)))
    ensures Neighbour(i, j) == i ==> FromOrigin(s.threads[j].received + s.threads[j].inbox, Context(i)) == []
  {
    ArrivalsFollowTheRoute(c, s, i, j);
    PushedIsRemote(c, s, i);
    CodedRouting(c, |s.threads|, i, s.threads[i].pushed, j);
    ToDestNone(s.threads[i].pushed, i);
  }

  /**
   * At its exit a context has lost messages if and only if it never handled an event although its
   * initialisation produced some; it has then lost all of those.
   */
  lemma LossExactlyWhenNothingHandled(c: Config, s: State, i: nat)
    requires c.scripts != [] && Reachable(c, s) && i < |s.threads| && s.threads[i].phase.Exited?
    ensures s.threads[i].unsent != [] <==> !s.threads[i].handledAny && s.threads[i].produced != []
    ensures !s.threads[i].handledAny ==> s.threads[i].unsent == s.threads[i].produced && s.threads[i].pushed == []
    ensures s.threads[i].handledAny ==>
      forall d: nat :: ToDest(s.threads[i].pushed, d) == ToDest(s.threads[i].produced, d)
  {
    ReachableIsSound(c, s);
    assert ThreadHistory(s.threads[i]);
  }

  /** A context takes an item from its queue only with its local queue empty and nothing half flushed. */
  lemma NothingLeftAtReceive(c: Config, s: State, i: nat)
    requires c.scripts != [] && Reachable(c, s) && i < |s.threads| && s.threads[i].phase.Waiting?
    ensures s.threads[i].local == []
    ensures s.threads[i].handledAny ==> s.threads[i].unsent == []
    ensures s.threads[i].handledAny ==>
      forall d: nat :: ToDest(s.threads[i].pushed, d) == ToDest(s.threads[i].produced, d)
  {
    ReachableIsSound(c, s);
    assert ThreadShape(s.threads[i]) && ThreadHistory(s.threads[i]);
  }

  // ---------- what is produced for other contexts is never for oneself ----------

  predicate ProducesRemote(s: State) {
    forall i :: 0 <= i < |s.threads| ==> forall x :: x in s.threads[i].produced ==> x.dest != i
  }

  /** What a thread's step adds to the messages it has produced is remote. */
  lemma ProducedGrows(c: Config, s: State, i: nat) returns (sends: seq<Send>)
    requires ThreadEnabled(s, i)
    ensures |ThreadStep(c, s, i).threads| == |s.threads|
    ensures ThreadStep(c, s, i).threads[i].produced == s.threads[i].produced + RemotePart(i, sends)
  {
    var t := s.threads[i];
    Empty(t.produced);
    match t.phase
    case Initialising(ops) => sends := if ops != [] && ops[0].InitSend? then [ops[0].send] else [];
    case Handling(m) => sends := m.sends;
    case DrainingInit | Draining => sends := if t.local != [] then t.local[|t.local| - 1].sends else [];
    case FreeingOnDetach | Waiting | HandlingDrop | Flushing(_) | Stopping(_, _) | FreeingLast => sends := [];
  }

  lemma ProducesRemoteStep(c: Config, s: State, a: Action)
    requires ProducesRemote(s) && Enabled(s, a)
    ensures ProducesRemote(Apply(c, s, a))
  {
    StepKeepsContexts(c, s, a);
    var s' := Apply(c, s, a);
    forall j, x | 0 <= j < |s.threads| && x in s'.threads[j].produced
      ensures x.dest != j
    {
      match a
      case ThreadMoves(i) =>
        if i == j {
          var sends := ProducedGrows(c, s, i);
          RemotePartIsRemote(i, sends);
        } else {
          ThreadFrame(c, s, i, j);
        }
      case AccessorMoves(k) => AccessorFrame(s, k, j);
    }
  }

  lemma {:induction false} RunProducesRemote(c: Config, s: State, run: seq<Action>, s': State)
    requires ProducesRemote(s) && Reaches(c, s, run, s')
    ensures ProducesRemote(s')
    decreases run
  {
    if run != [] {
      ProducesRemoteStep(c, s, run[0]);
      RunProducesRemote(c, Apply(c, s, run[0]), run[1..], s');
    }
  }

  /** So nothing that is pushed, or about to be, is for oneself. */
  lemma NoneForOneself(t: Thread, i: nat)
    requires Conserved(t) && forall x :: x in t.produced ==> x.dest != i
    ensures forall x :: x in t.pushed || x in BatchOf(t.phase) ==> x.dest != i
  {
    ToDestNone(t.produced, i);
    assert ToDest(t.produced, i) == ToDest(t.pushed, i) + ToDest(BatchOf(t.phase), i) + ToDest(t.unsent, i);
    forall x | x in t.pushed || x in BatchOf(t.phase)
      ensures x.dest != i
    {
      if x in t.pushed {
        ToDestMember(t.pushed, x);
      } else {
        ToDestMember(BatchOf(t.phase), x);
      }
    }
  }

  lemma PushedIsRemote(c: Config, s: State, i: nat)
    requires c.scripts != [] && Reachable(c, s) && i < |s.threads|
    ensures forall x :: x in s.threads[i].pushed ==> x.dest != i
  {
    var run :| Reaches(c, Initial(c), run, s);
    RunProducesRemote(c, Initial(c), run, s);
    ReachableIsSound(c, s);
    assert ThreadHistory(s.threads[i]);
    NoneForOneself(s.threads[i], i);
  }
}
