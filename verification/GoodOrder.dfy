/**
 * Runs in which every message between contexts is handed to the context of its key. Elsewhere it would
 * run in an arena that does not hold its actor, which is undefined; the machine goes on as if it did not.
 */
module GoodOrder {
  import opened Messages
  import opened Links
  import opened Protocol
  import opened InvariantSteps
  import opened Delivery
  import opened Addressing
  import opened Runs
  import opened Confinement
  import opened Routing
  import opened Rerouting
  import opened Shutdown
  import opened Waking
  import opened WhoStops
  import opened LocalRuns
  import opened Leaks

  /** The index used for context `d` leads there. */
  predicate Serves(c: Config, i: nat, d: nat) {
    Routes(c, |c.scripts|, i, d, d)
  }

  /** Some message has been handed to a context that is not that of its key. */
  predicate Astray(c: Config, s: State) {
    exists i, x :: 0 <= i < |s.threads| && x in s.threads[i].pushed && !Serves(c, i, x.dest)
  }

  /** No panic, nothing undefined. */
  predicate InGoodOrder(c: Config, s: State) {
    s.fault.NoFault? && !Astray(c, s)
  }

  /** The same configuration with no link but those that lead where they should. */
  function Corrected(c: Config): Config {
    Config(c.scripts, (i: nat, d: nat) => if Serves(c, i, d) then c.route(i, d) else -1)
  }

  lemma CorrectedIsFewer(c: Config)
    ensures Fewer(c, Corrected(c))
    ensures forall s :: PushedBy(Corrected(c), s) <==> !Astray(c, s)
  {
  }

  /** With links that lead where they should, all that a closed set does can be done without the others. */
  lemma ClosedNeverAstray(c: Config, h: set<nat>, s: State)
    requires c.scripts != [] && Closed(Corrected(c), h) && Reachable(c, s)
    ensures Reachable(Corrected(c), s) && !s.fault.BadLink? && !Astray(c, s)
  {
    CorrectedIsFewer(c);
    ReachableIfClosed(c, Corrected(c), h, s);
    ClosedNeverMissesTable(Corrected(c), h, s);
    ReachableByMore(c, Corrected(c), s);
  }

  /** And a run in good order that reaches zero shows such a set. */
  lemma OrderlyEndIsClosed(c: Config, s: State)
    requires c.scripts != [] && Reachable(c, s) && s.counter == 0 && !Astray(c, s)
    ensures Reachable(Corrected(c), s) && Closed(Corrected(c), Awake(s))
  {
    CorrectedIsFewer(c);
    ReachableByFewer(c, Corrected(c), s);
    AwakeIsLeastClosed(Corrected(c), s);
  }

  /** Some run comes to an end. */
  lemma SomeEnd(c: Config) returns (s: State)
    requires c.scripts != []
    ensures Reachable(c, s) && Complete(s)
  {
    InitialSound(c);
    var run;
    run, s := RunToEnd(c, Initial(c));
  }

  /**
   * No run panics on an index or hands a message to a wrong context if and only if some set of contexts
   * is closed with the links that lead where they should.
   */
  lemma NeverAstrayIff(c: Config)
    requires c.scripts != [] && ValidKeys(c)
    ensures (forall s :: Reachable(c, s) ==> !s.fault.BadLink? && !Astray(c, s))
        <==> exists h :: Closed(Corrected(c), h)
  {
    if h :| Closed(Corrected(c), h) {
      forall s | Reachable(c, s)
        ensures !s.fault.BadLink? && !Astray(c, s)
      {
        ClosedNeverAstray(c, h, s);
      }
    } else {
      var s := SomeEnd(c);
      if !s.fault.BadLink? && !Astray(c, s) {
        CompleteIsZero(c, s);
        OrderlyEndIsClosed(c, s);
      }
    }
  }

  /**
   * Whatever the route: every complete run stops every context in good order if and only if some set of
   * contexts is closed with the links that lead where they should, and nobody is left out of such a set
   * and by all accessors.
   */
  lemma EveryRunEndsWellIff(c: Config)
    requires c.scripts != [] && ValidKeys(c)
    ensures (forall s :: Reachable(c, s) && Complete(s) ==> AllExited(s) && InGoodOrder(c, s))
        <==> (exists h :: Closed(Corrected(c), h)) && !exists t, h :: LeftOut(Corrected(c), t, h)
  {
    var c' := Corrected(c);
    EveryRunStopsEveryoneIff(c');
    if (exists h :: Closed(c', h)) && !exists t, h :: LeftOut(c', t, h) {
      var h :| Closed(c', h);
      forall s | Reachable(c, s) && Complete(s)
        ensures AllExited(s) && InGoodOrder(c, s)
      {
        ClosedNeverAstray(c, h, s);
      }
    } else if t, h :| LeftOut(c', t, h) {
      var s := LeftOutHangsAnyway(c, t, h);
    } else {
      var s := SomeEnd(c);
      if InGoodOrder(c, s) {
        CompleteIsZero(c, s);
        OrderlyEndIsClosed(c, s);
      }
    }
  }

  lemma LeftOutHangsAnyway(c: Config, t: nat, h: set<nat>) returns (s: State)
    requires c.scripts != [] && ValidKeys(c) && LeftOut(Corrected(c), t, h)
    ensures Reachable(c, s) && Complete(s) && !AllExited(s)
  {
    CorrectedIsFewer(c);
    s := LeftOutHangs(Corrected(c), t, h);
    ClosedNeverMissesTable(Corrected(c), h, s);
    ReachableByMore(c, Corrected(c), s);
  }

  /**
   * Some run leaks the counter block in good order if and only if some set of contexts is closed with
   * the links that lead where they should, and in no such set all contexts keep to themselves.
   */
  lemma SomeOrderlyRunLeaksIff(c: Config)
    requires c.scripts != [] && ValidKeys(c)
    ensures (exists s :: Reachable(c, s) && Leaked(s) && !Astray(c, s)) <==>
      (exists h :: Closed(Corrected(c), h)) && !exists h :: LocalOnly(c, h)
  {
    var c' := Corrected(c);
    CorrectedIsFewer(c);
    SomeRunLeaksIff(c');
    assert forall h :: LocalOnly(c', h) <==> LocalOnly(c, h) by {
      assert Unrouted(c') == Unrouted(c);
    }
    if s :| Reachable(c, s) && Leaked(s) && !Astray(c, s) {
      ReachableByFewer(c, c', s);
    }
    if s :| Reachable(c', s) && Leaked(s) {
      ReachableByMore(c, c', s);
    }
  }

  /**
   * For any route: no run panics on an index or hands over any message at all if and only if no woken
   * context has anything to send to another one.
   */
  lemma NothingHandedOverIff(c: Config)
    requires c.scripts != [] && ValidKeys(c)
    ensures (forall s :: Reachable(c, s) ==> !s.fault.BadLink? && NothingPushed(s)) <==> exists h :: LocalOnly(c, h)
  {
    if h :| LocalOnly(c, h) {
      forall s | Reachable(c, s)
        ensures !s.fault.BadLink? && NothingPushed(s)
      {
        LocalOnlyPushesNothing(c, h, s);
      }
    } else {
      var s := SomeEnd(c);
      if !s.fault.BadLink? && NothingPushed(s) {
        CompleteIsZero(c, s);
        QuietEnd(c, s);
      }
    }
  }

  lemma LocalOnlyPushesNothing(c: Config, h: set<nat>, s: State)
    requires c.scripts != [] && LocalOnly(c, h) && Reachable(c, s)
    ensures !s.fault.BadLink? && NothingPushed(s)
  {
    ReachableIfClosed(c, Unrouted(c), h, s);
    ClosedNeverMissesTable(Unrouted(c), h, s);
    ReachableByMore(c, Unrouted(c), s);
    NoLinkPushesNothing(c, s);
  }

  lemma NoLinkPushesNothing(c: Config, s: State)
    requires PushedBy(Unrouted(c), s)
    ensures NothingPushed(s)
  {
    forall i | 0 <= i < |s.threads|
      ensures s.threads[i].pushed == []
    {
      forall x
        ensures x !in s.threads[i].pushed
      {
        NotPushed(c, s, i, x);
      }
      FirstIsMember(s.threads[i].pushed);
    }
  }

  lemma NotPushed(c: Config, s: State, i: nat, x: Send)
    requires PushedBy(Unrouted(c), s) && i < |s.threads|
    ensures x !in s.threads[i].pushed
  {
    assert !InTable(|c.scripts|, Unrouted(c).route(i, x.dest));
  }

  lemma FirstIsMember<T>(xs: seq<T>)
    ensures xs == [] || exists x :: x in xs
  {
    if xs != [] {
      assert xs[0] in xs;
    }
  }

  /** With the index that inverts the table nothing ever goes astray. */
  lemma IntendedNeverAstray(c: Config, s: State)
    requires c.scripts != [] && ValidKeys(c) && Reachable(c, s)
    requires forall i: nat, d: nat :: c.route(i, d) == IntendedLink(i, d)
    ensures !s.fault.BadLink? && !Astray(c, s)
  {
    var c' := Corrected(c);
    forall i: nat, d: nat | i < |c.scripts| && d < |c.scripts| && d != i
      ensures InTable(|c.scripts|, c'.route(i, d))
    {
      IntendedLinkInvertsTable(|c.scripts|, i);
      assert c.route(i, d) == IntendedLink(i, d) && Serves(c, i, d);
    }
    ServedIsClosed(c');
    ClosedNeverAstray(c, Contexts(c'), s);
  }
}
