/** Which contexts a run wakes, that every run has an end, and which configurations miss a table. */
module Waking {
  import opened Sequences
  import opened Protocol
  import opened Invariant
  import opened InvariantSteps
  import opened Termination
  import opened Delivery
  import opened DeliverySteps
  import opened Addressing
  import opened Runs
  import opened Confinement
  import opened Routing
  import opened Shutdown

  function Awake(s: State): set<nat> {
    set u | 0 <= u < |s.threads| && s.threads[u].handledAny
  }

  /** At the end, the contexts that have handled an event are a closed set. */
  lemma EndIsConfined(c: Config, s: State)
    requires Sound(c, s) && History(c, s) && s.counter == 0
    ensures Confined(c, Awake(s), s)
  {
    NoTokensLeft(s);
    forall u | 0 <= u < |s.threads|
      ensures ThreadWithin(c, Awake(s), u, s.threads[u])
    {
      assert ThreadShape(s.threads[u]) && ThreadHistory(s.threads[u]);
      OnlyStopsLeft(s.threads[u].inbox);
    }
    forall k | 0 <= k < |s.accessors|
      ensures AccessorWithin(c, Awake(s), s.accessors[k])
    {
      assert AccessorShape(|s.threads|, s.accessors[k]);
    }
  }

  /** Every closed set includes the contexts that have handled an event, at any time in any run. */
  lemma OnlyTheseWake(c: Config, s: State, h: set<nat>)
    requires c.scripts != [] && Reachable(c, s) && Closed(c, h)
    ensures Awake(s) <= h
  {
    var run :| Reaches(c, Initial(c), run, s);
    ReachableIsSound(c, s);
    InitialSound(c);
    InitialHistory(c);
    InitialConfined(c, h);
    RunConfined(c, h, Initial(c), run, s);
    forall u | u in Awake(s)
      ensures u in h
    {
      assert ThreadWithin(c, h, u, s.threads[u]);
    }
  }

  /** When the counter has reached zero, those that have are exactly the least closed set. */
  lemma AwakeIsLeastClosed(c: Config, s: State)
    requires c.scripts != [] && Reachable(c, s) && s.counter == 0
    ensures Closed(c, Awake(s)) && forall h :: Closed(c, h) ==> Awake(s) <= h
  {
    var run :| Reaches(c, Initial(c), run, s);
    ReachableIsSound(c, s);
    InitialSound(c);
    InitialHistory(c);
    EndIsConfined(c, s);
    RunConfined(c, Awake(s), Initial(c), run, s);
    InitialConfined(c, Awake(s));
    forall h | Closed(c, h)
      ensures Awake(s) <= h
    {
      OnlyTheseWake(c, s, h);
    }
  }

  /** Every run can be continued to its end. */
  lemma {:induction false} RunToEnd(c: Config, s: State) returns (run: seq<Action>, s': State)
    requires Sound(c, s)
    ensures Reaches(c, s, run, s') && Complete(s')
    decreases Measure(s)
  {
    if a :| Enabled(s, a) {
      StepSound(c, s, a);
      StepDecreases(c, s, a);
      var more;
      more, s' := RunToEnd(c, Apply(c, s, a));
      run := [a] + more;
      HeadAndTail([a], more);
      SingleTail(a);
      Empty(more);
    } else {
      run, s' := [], s;
    }
  }

  // ---------- which configurations miss a table ----------

  /** Without a bad link a complete run has brought the counter to zero. */
  lemma CompleteIsZero(c: Config, s: State)
    requires c.scripts != [] && ValidKeys(c) && Reachable(c, s) && Complete(s) && !s.fault.BadLink?
    ensures s.counter == 0
  {
    ReachableIsSound(c, s);
    NoBadKeyFault(c, s);
    if s.fault.NoFault? {
      CompleteRunsEndInOneOfTwoWays(c, s);
    }
  }

  /** If no set of contexts is closed, some run ends with an index outside a table. */
  lemma MissingTheTable(c: Config) returns (s: State)
    requires c.scripts != [] && ValidKeys(c) && !exists h :: Closed(c, h)
    ensures Reachable(c, s) && Complete(s) && s.fault.BadLink?
  {
    InitialSound(c);
    var run;
    run, s := RunToEnd(c, Initial(c));
    if !s.fault.BadLink? {
      CompleteIsZero(c, s);
      AwakeIsLeastClosed(c, s);
    }
  }

  /** No run ever uses an index outside its table if and only if some set of contexts is closed. */
  lemma NeverMissesTableIff(c: Config)
    requires c.scripts != [] && ValidKeys(c)
    ensures (forall s :: Reachable(c, s) ==> !s.fault.BadLink?) <==> exists h :: Closed(c, h)
  {
    if h :| Closed(c, h) {
      forall s | Reachable(c, s)
        ensures !s.fault.BadLink?
      {
        ClosedNeverMissesTable(c, h, s);
      }
    } else {
      var s := MissingTheTable(c);
    }
  }
}
