/**
 * When does a run meet an index outside a table? Not if some set of contexts is closed, which for a
 * route that serves all pairs of contexts is always the case.
 */
module Routing {
  import opened Messages
  import opened Links
  import opened Protocol
  import opened InvariantSteps
  import opened Invariant
  import opened Delivery
  import opened DeliverySteps
  import opened Addressing
  import opened Runs
  import opened Confinement

  lemma FlushStaysInTable(c: Config, h: set<nat>, s: State, i: nat, batch: seq<Send>)
    requires |c.scripts| == |s.threads| && Confined(c, h, s) && s.fault.NoFault?
    requires i < |s.threads| && s.threads[i].phase == Flushing(batch) && s.threads[i].handledAny
    ensures !FlushStep(c, s, i, batch).fault.BadLink?
  {
    assert ThreadWithin(c, h, i, s.threads[i]);
    if batch != [] {
      assert batch[0] in batch;
    }
  }

  lemma StepStaysInTable(c: Config, h: set<nat>, s: State, a: Action)
    requires |c.scripts| == |s.threads| && History(c, s) && Confined(c, h, s) && Enabled(s, a)
    ensures !Apply(c, s, a).fault.BadLink?
  {
    match a
    case ThreadMoves(i) =>
      assert ThreadHistory(s.threads[i]);
      if s.threads[i].phase.Flushing? {
        FlushStaysInTable(c, h, s, i, s.threads[i].phase.batch);
      }
    case AccessorMoves(k) =>
  }

  lemma {:induction false} RunStaysInTable(c: Config, h: set<nat>, s: State, run: seq<Action>, s': State)
    requires Sound(c, s) && History(c, s) && |c.scripts| == |s.threads| && Confined(c, h, s)
    requires !s.fault.BadLink? && Reaches(c, s, run, s')
    ensures !s'.fault.BadLink?
    decreases run
  {
    if run != [] {
      StepSound(c, s, run[0]);
      StepKeepsContexts(c, s, run[0]);
      StepHistory(c, s, run[0]);
      StepConfined(c, h, s, run[0]);
      StepStaysInTable(c, h, s, run[0]);
      RunStaysInTable(c, h, Apply(c, s, run[0]), run[1..], s');
    }
  }

  lemma ClosedNeverMissesTable(c: Config, h: set<nat>, s: State)
    requires c.scripts != [] && Reachable(c, s) && Closed(c, h)
    ensures !s.fault.BadLink?
  {
    var run :| Reaches(c, Initial(c), run, s);
    InitialSound(c);
    InitialHistory(c);
    InitialConfined(c, h);
    RunStaysInTable(c, h, Initial(c), run, s);
  }

  // ---------- routes that serve every pair of contexts ----------

  /** The index used for another existing context lies within the table. */
  ghost predicate RoutesInTable(c: Config) {
    forall i: nat, d: nat :: i < |c.scripts| && d < |c.scripts| && d != i ==> InTable(|c.scripts|, c.route(i, d))
  }

  /** The index that inverts the table is such a route. */
  lemma IntendedRouteStaysInTable(c: Config)
    requires forall i: nat, d: nat :: c.route(i, d) == IntendedLink(i, d)
    ensures RoutesInTable(c)
  {
  }

  predicate IsContext(c: Config, u: nat) {
    u < |c.scripts|
  }

  function Contexts(c: Config): set<nat> {
    set u | 0 <= u < |c.scripts| && IsContext(c, u)
  }

  lemma {:induction false} ServedSends(c: Config, u: nat, sends: seq<Send>)
    requires RoutesInTable(c) && u < |c.scripts| && AllAddressed(|c.scripts|, sends)
    ensures AllWithin(c, Contexts(c), u, sends)
    decreases sends
  {
    if sends != [] {
      ServedSend(c, u, sends[0]);
      ServedSends(c, u, sends[1..]);
    }
  }

  lemma {:induction false} ServedSend(c: Config, u: nat, x: Send)
    requires RoutesInTable(c) && u < |c.scripts| && SendAddressed(|c.scripts|, x)
    ensures SendWithin(c, Contexts(c), u, x)
    decreases x
  {
    ServedMessage(c, if x.dest == u then u else LinkTarget(u, c.route(u, x.dest)), x.msg);
  }

  lemma {:induction false} ServedMessage(c: Config, u: nat, m: Msg)
    requires RoutesInTable(c) && u < |c.scripts| && Addressed(|c.scripts|, m)
    ensures Within(c, Contexts(c), u, m)
    decreases m
  {
    ServedSends(c, u, m.sends);
  }

  /** With such a route, and keys that name existing contexts, the set of all contexts is closed. */
  lemma ServedIsClosed(c: Config)
    requires ValidKeys(c) && RoutesInTable(c)
    ensures Closed(c, Contexts(c))
  {
    forall u, op | 0 <= u < |c.scripts| && op in c.scripts[u]
      ensures OpWithin(c, Contexts(c), u, op)
    {
      assert OpAddressed(|c.scripts|, op);
      match op
      case NewAccessor(dest, todo) =>
        forall m | m in todo
          ensures Within(c, Contexts(c), dest, m)
        {
          ServedMessage(c, dest, m);
        }
      case InitSend(x) =>
        ServedSend(c, u, x);
    }
  }
}
