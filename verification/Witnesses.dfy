/** Concrete configurations: contexts that hang, a lost message, a leaked block, and what the written index does. */
module Witnesses {
  import opened Sequences
  import opened Messages
  import opened Links
  import opened Protocol
  import opened Addressing
  import opened CleanStop
  import opened Drain
  import opened Runs
  import opened Confinement
  import opened Routing
  import opened Rerouting
  import opened Shutdown
  import opened Waking
  import opened FirstMessages
  import opened LocalRuns
  import opened Leaks
  import opened GoodOrder
  import opened AsWritten

  lemma NoSends(u: nat)
    ensures Addressed(u, Msg(0, [])) && Addressed(u, Msg(1, []))
  {
    assert AllAddressed(u, []);
  }

  // ---------- two contexts, no accessors: everybody waits for ever ----------

  function TwoIdle(route: (nat, nat) -> int): Config {
    Config([[], []], route)
  }

  /** Everybody waits, nothing can move, and nobody has exited, however the run went. */
  lemma AlwaysHanging(route: (nat, nat) -> int, s: State)
    requires Reachable(TwoIdle(route), s) && Complete(s)
    ensures AllAtRest(s) && InGoodOrder(TwoIdle(route), s)
  {
    NobodyStopsWithoutAccessors(TwoIdle(route), s);
    ClosedNeverAstray(TwoIdle(route), {}, s);
  }

  lemma HangingRun(route: (nat, nat) -> int)
    ensures exists s :: Reachable(TwoIdle(route), s) && Complete(s) && AllAtRest(s) && InGoodOrder(TwoIdle(route), s)
  {
    var s := SomeEnd(TwoIdle(route));
    AlwaysHanging(route, s);
  }

  // ---------- a message sent by an initialisation that is never delivered ----------

  const LOST := Send(1, Msg(0, []))

  /** Context 0 sends to context 1 at once; both have an accessor that is dropped without a send. */
  function SendAtOnce(route: (nat, nat) -> int): Config {
    Config([[InitSend(LOST), NewAccessor(0, [])], [NewAccessor(1, [])]], route)
  }

  lemma SendAtOnceHasValidKeys(route: (nat, nat) -> int)
    ensures ValidKeys(SendAtOnce(route)) && EveryContextTargeted(SendAtOnce(route))
  {
    var c := SendAtOnce(route);
    NoSends(2);
    assert OpAddressed(2, InitSend(LOST));
    assert c.scripts[0][1].dest == 0 && c.scripts[1][0].dest == 1;
    assert Creates(c.scripts[0], 0) && Creates(c.scripts[1], 1);
    assert Targeted(c, 0) && Targeted(c, 1);
  }

  /** Nobody is ever woken. */
  lemma NobodyIsWoken(route: (nat, nat) -> int)
    ensures Closed(SendAtOnce(route), {})
  {
  }

  lemma ItsFirstUnsent(route: (nat, nat) -> int)
    ensures FirstUnsent(0, SendAtOnce(route).scripts[0]) == [LOST]
  {
    var script := [InitSend(LOST), NewAccessor(0, [])];
    assert script[1..] == [NewAccessor(0, [])] && script[1..][1..] == [];
    SingleTail(LOST);
    assert SendsOf([]) == [];
    assert SendsOf([NewAccessor(0, [])]) == [] + SendsOf([NewAccessor(0, [])][1..]);
    assert SendsOf(script) == [LOST] + SendsOf(script[1..]);
    assert RemotePart(0, []) == [] && LocalPart(0, []) == [];
    assert RemotePart(0, [LOST]) == [LOST] && LocalPart(0, [LOST]) == [];
    assert Leaves(0, []) == [];
  }

  predicate HasLost(s: State) {
    s.threads != [] && s.threads[0].unsent == [LOST]
  }

  /** Everybody stops in good order, and the message is never sent, however the run went. */
  lemma AlwaysLosing(route: (nat, nat) -> int, s: State)
    requires Reachable(SendAtOnce(route), s) && Complete(s)
    ensures AllExited(s) && InGoodOrder(SendAtOnce(route), s) && HasLost(s)
  {
    var c := SendAtOnce(route);
    SendAtOnceHasValidKeys(route);
    NobodyIsWoken(route);
    ReachableIsSound(c, s);
    EveryoneStopsIfAllTargeted(c, s);
    ClosedNeverAstray(c, {}, s);
    CompleteIsZero(c, s);
    AwakeIsLeastClosed(c, s);
    assert 0 !in Awake(s);
    UnsentAtTheEnd(c, s, 0);
    ItsFirstUnsent(route);
  }

  lemma LosingRun(route: (nat, nat) -> int)
    ensures exists s :: Reachable(SendAtOnce(route), s) && Complete(s) && HasLost(s)
  {
    var s := SomeEnd(SendAtOnce(route));
    AlwaysLosing(route, s);
  }

  // ---------- a message between contexts that is settled last ----------

  const RELAYED := Send(1, Msg(1, []))

  /** An accessor of context 0 whose message makes it send one to context 1; the `others` do nothing. */
  function OneRelay(others: nat, route: (nat, nat) -> int): (c: Config)
    ensures |c.scripts| == 1 + others
  {
    Config([[NewAccessor(0, [Msg(0, [RELAYED])])]] + seq(others, _ => []), route)
  }

  lemma RelayIsNotLocal(others: nat, route: (nat, nat) -> int)
    ensures forall h :: !LocalOnly(OneRelay(others, route), h)
  {
    forall h
      ensures !LocalOnly(OneRelay(others, route), h)
    {
      var c, m := Unrouted(OneRelay(others, route)), Msg(0, [RELAYED]);
      assert !SendWithin(c, h, 0, RELAYED);
      assert !Within(c, h, 0, m);
      assert m in [m] && !OpWithin(c, h, 0, NewAccessor(0, [m]));
      assert NewAccessor(0, [m]) in c.scripts[0];
    }
  }

  lemma RelayHasValidKeys(others: nat, route: (nat, nat) -> int)
    requires others != 0
    ensures ValidKeys(OneRelay(others, route))
  {
    var m, n := Msg(0, [RELAYED]), 1 + others;
    assert [RELAYED][1..] == [];
    assert AllAddressed(n, []) && Addressed(n, Msg(1, [])) && SendAddressed(n, RELAYED);
    assert Addressed(n, m);
    assert OpAddressed(n, NewAccessor(0, [m]));
  }

  /** With the index that inverts the table: all stop in good order, and the counter block is left behind. */
  lemma LeakedRun(route: (nat, nat) -> int)
    requires forall i: nat, d: nat :: route(i, d) == IntendedLink(i, d)
    ensures exists s :: Reachable(OneRelay(1, route), s) && Leaked(s) && !Astray(OneRelay(1, route), s)
  {
    var c := OneRelay(1, route);
    RelayHasValidKeys(1, route);
    IntendedRouteStaysInTable(c);
    ServedIsClosed(c);
    RelayIsNotLocal(1, route);
    var s := LeakingRun(c, Contexts(c));
    IntendedNeverAstray(c, s);
  }

  /** As written the message of context 0 misses the table of two contexts. */
  lemma PanickingRun(route: (nat, nat) -> int)
    requires forall i: nat, d: nat :: route(i, d) == CodedLink(i, d)
    ensures exists s :: Reachable(OneRelay(1, route), s) && Complete(s) && s.fault.BadLink?
  {
    var c := OneRelay(1, route);
    RelayHasValidKeys(1, route);
    RelayIsNotLocal(1, route);
    TwoClosedAreLocal(c);
    var s := MissingTheTable(c);
  }

  /** Of three contexts it is handed to context 2, and in some run the block is leaked as well. */
  lemma MisdeliveringRun(route: (nat, nat) -> int)
    requires forall i: nat, d: nat :: route(i, d) == CodedLink(i, d)
    ensures exists s :: Reachable(OneRelay(2, route), s) && Leaked(s) && Astray(OneRelay(2, route), s)
  {
    var c := OneRelay(2, route);
    RelayHasValidKeys(2, route);
    RelayIsNotLocal(2, route);
    RelayReachesTheLast(route);
    var s := LeakingRun(c, {0, 2});
    NoOrderlyLeakAsWritten(c, s);
  }

  lemma RelayReachesTheLast(route: (nat, nat) -> int)
    requires forall i: nat, d: nat :: route(i, d) == CodedLink(i, d)
    ensures Closed(OneRelay(2, route), {0, 2})
  {
    var c, m, h := OneRelay(2, route), Msg(0, [RELAYED]), {0, 2};
    assert [RELAYED][1..] == [];
    assert AllWithin(c, h, 2, []) && Within(c, h, 2, Msg(1, []));
    assert LinkTarget(0, c.route(0, 1)) == 2;
    assert SendWithin(c, h, 0, RELAYED) && AllWithin(c, h, 0, []);
    assert Within(c, h, 0, m);
    assert OpWithin(c, h, 0, NewAccessor(0, [m]));
  }
}
