/** What the index as written means for a program: nothing it sends between contexts arrives. */
module AsWritten {
  import opened Messages
  import opened Links
  import opened Protocol
  import opened Addressing
  import opened CleanStop
  import opened Runs
  import opened Confinement
  import opened Rerouting
  import opened Shutdown
  import opened Waking
  import opened WhoStops
  import opened LocalRuns
  import opened Leaks
  import opened GoodOrder

  ghost predicate RoutedAsWritten(c: Config) {
    forall i: nat, d: nat :: c.route(i, d) == CodedLink(i, d)
  }

  /** No context has a link to any other. */
  ghost predicate Linkless(c: Config) {
    forall i: nat, d: nat :: i < |c.scripts| && d != i ==> !InTable(|c.scripts|, c.route(i, d))
  }

  lemma {:induction false} SendsAlike(c: Config, b: Config, h: set<nat>, u: nat, sends: seq<Send>)
    requires Linkless(c) && Linkless(b) && b.scripts == c.scripts && u < |c.scripts|
    ensures AllWithin(c, h, u, sends) <==> AllWithin(b, h, u, sends)
    decreases sends
  {
    if sends != [] {
      SendAlike(c, b, h, u, sends[0]);
      SendsAlike(c, b, h, u, sends[1..]);
    }
  }

  lemma {:induction false} SendAlike(c: Config, b: Config, h: set<nat>, u: nat, x: Send)
    requires Linkless(c) && Linkless(b) && b.scripts == c.scripts && u < |c.scripts|
    ensures SendWithin(c, h, u, x) <==> SendWithin(b, h, u, x)
    decreases x
  {
    if x.dest == u {
      MessageAlike(c, b, h, u, x.msg);
    }
  }

  lemma {:induction false} MessageAlike(c: Config, b: Config, h: set<nat>, u: nat, m: Msg)
    requires Linkless(c) && Linkless(b) && b.scripts == c.scripts && u < |c.scripts|
    ensures Within(c, h, u, m) <==> Within(b, h, u, m)
    decreases m
  {
    SendsAlike(c, b, h, u, m.sends);
  }

  lemma OpAlike(c: Config, b: Config, h: set<nat>, u: nat, op: InitOp)
    requires Linkless(c) && Linkless(b) && b.scripts == c.scripts && u < |c.scripts|
    requires OpAddressed(|c.scripts|, op)
    ensures OpWithin(c, h, u, op) <==> OpWithin(b, h, u, op)
  {
    match op
    case NewAccessor(dest, todo) =>
      forall m | m in todo
        ensures Within(c, h, dest, m) <==> Within(b, h, dest, m)
      {
        MessageAlike(c, b, h, dest, m);
      }
    case InitSend(x) => SendAlike(c, b, h, u, x);
  }

  /** Without links the closed sets are those whose contexts keep to themselves. */
  lemma LinklessIsLocal(c: Config, b: Config, h: set<nat>)
    requires Linkless(c) && Linkless(b) && b.scripts == c.scripts && ValidKeys(c)
    ensures Closed(c, h) <==> Closed(b, h)
  {
    forall u, op | 0 <= u < |c.scripts| && op in c.scripts[u]
      ensures OpWithin(c, h, u, op) <==> OpWithin(b, h, u, op)
    {
      assert OpAddressed(|c.scripts|, op);
      OpAlike(c, b, h, u, op);
    }
  }

  /** No index as written leads where it should. */
  lemma NothingIsServed(c: Config)
    requires RoutedAsWritten(c)
    ensures Linkless(Corrected(c))
  {
    forall i: nat, d: nat | d != i
      ensures !Serves(c, i, d)
    {
      assert c.route(i, d) == CodedLink(i, d);
    }
  }

  lemma ClosedIsLocal(c: Config, h: set<nat>)
    requires RoutedAsWritten(c) && ValidKeys(c)
    ensures Closed(Corrected(c), h) <==> LocalOnly(c, h)
  {
    NothingIsServed(c);
    LinklessIsLocal(Corrected(c), Unrouted(c), h);
  }

  /**
   * As written, with any number of contexts: no run panics on an index or hands a message to a wrong
   * context if and only if no context that is ever woken has anything to send to another one.
   */
  lemma ContextsMustNotSend(c: Config)
    requires c.scripts != [] && RoutedAsWritten(c) && ValidKeys(c)
    ensures (forall s :: Reachable(c, s) ==> !s.fault.BadLink? && !Astray(c, s)) <==> exists h :: LocalOnly(c, h)
  {
    NeverAstrayIff(c);
    AllClosedAreLocal(c);
  }

  lemma AllClosedAreLocal(c: Config)
    requires RoutedAsWritten(c) && ValidKeys(c)
    ensures forall h :: Closed(Corrected(c), h) <==> LocalOnly(c, h)
  {
    forall h
      ensures Closed(Corrected(c), h) <==> LocalOnly(c, h)
    {
      ClosedIsLocal(c, h);
    }
  }

  /** No accessor is aimed at context `t`, and the others can keep to themselves without waking it. */
  ghost predicate LeftAlone(c: Config, t: nat, h: set<nat>) {
    t < |c.scripts| && t !in h && !Targeted(c, t) && LocalOnly(c, h)
  }

  /**
   * As written, every complete run stops every context in good order if and only if no woken context has
   * anything to send to another one and each context is the target of an accessor or certain to be woken.
   */
  lemma EveryRunEndsWellAsWrittenIff(c: Config)
    requires c.scripts != [] && RoutedAsWritten(c) && ValidKeys(c)
    ensures (forall s :: Reachable(c, s) && Complete(s) ==> AllExited(s) && InGoodOrder(c, s))
        <==> (exists h :: LocalOnly(c, h)) && !exists t, h :: LeftAlone(c, t, h)
  {
    EveryRunEndsWellIff(c);
    AllClosedAreLocal(c);
    assert forall t, h :: LeftOut(Corrected(c), t, h) <==> LeftAlone(c, t, h);
  }

  /** As written, a run that leaks the counter block has handed a message to a wrong context. */
  lemma NoOrderlyLeakAsWritten(c: Config, s: State)
    requires c.scripts != [] && RoutedAsWritten(c) && ValidKeys(c) && Reachable(c, s) && Leaked(s)
    ensures Astray(c, s)
  {
    SomeOrderlyRunLeaksIff(c);
    AllClosedAreLocal(c);
  }

  // ---------- two contexts: no index is ever in its table ----------

  lemma TwoAreLinkless(c: Config)
    requires |c.scripts| == 2 && RoutedAsWritten(c)
    ensures Linkless(c)
  {
  }

  /** Two contexts as written panic on an index in some run exactly if a woken one sends to the other. */
  lemma TwoContextsMustNotSend(c: Config)
    requires |c.scripts| == 2 && RoutedAsWritten(c) && ValidKeys(c)
    ensures (forall s :: Reachable(c, s) ==> !s.fault.BadLink?) <==> exists h :: LocalOnly(c, h)
  {
    NeverMissesTableIff(c);
    TwoClosedAreLocal(c);
  }

  lemma TwoClosedAreLocal(c: Config)
    requires |c.scripts| == 2 && RoutedAsWritten(c) && ValidKeys(c)
    ensures forall h :: Closed(c, h) <==> LocalOnly(c, h)
  {
    TwoAreLinkless(c);
    forall h
      ensures Closed(c, h) <==> LocalOnly(c, h)
    {
      LinklessIsLocal(c, Unrouted(c), h);
    }
  }

  /** And they never leak the block. */
  lemma TwoContextsNeverLeak(c: Config, s: State)
    requires |c.scripts| == 2 && RoutedAsWritten(c) && ValidKeys(c) && Reachable(c, s)
    ensures !Leaked(s)
  {
    if Leaked(s) {
      SomeRunLeaksIff(c);
      TwoClosedAreLocal(c);
    }
  }
}
