/** What accessors send: over a whole run each message arrives at the accessor's context, once and in order. */
module Outsiders {
  import opened Sequences
  import opened Messages
  import opened Links
  import opened Protocol
  import opened Invariant
  import opened InvariantSteps
  import opened Delivery
  import opened DeliverySteps
  import opened CleanStop

  function Seen(t: Thread): seq<Item> {
    t.received + t.inbox
  }

  /** What has arrived at `j` from accessor `k` is what `k` has sent, if `j` is its context. */
  predicate ArrivedFrom(s: State, k: nat, j: nat)
    requires j < |s.threads|
  {
    FromOrigin(Seen(s.threads[j]), Outside(k))
      == if k < |s.accessors| && s.accessors[k].dest == j then s.accessors[k].sent else []
  }

  ghost predicate AllArrived(s: State) {
    forall k: nat, j :: 0 <= j < |s.threads| ==> ArrivedFrom(s, k, j)
  }

  predicate FromOutside(item: Item) {
    item.Event? && item.from.Outside?
  }

  /** What is new at a thread, if anything, no accessor has sent. */
  ghost predicate Appends(t: Thread, t': Thread) {
    exists more :: Seen(t') == Seen(t) + more && forall item :: item in more ==> !FromOutside(item)
  }

  lemma {:induction false} NothingFrom(items: seq<Item>, k: nat)
    requires forall item :: item in items ==> !FromOutside(item)
    ensures FromOrigin(items, Outside(k)) == []
  {
    if items != [] {
      assert items[0] in items;
      NothingFrom(items[1..], k);
    }
  }

  lemma AppendsKeeps(t: Thread, t': Thread, k: nat)
    requires Appends(t, t')
    ensures FromOrigin(Seen(t'), Outside(k)) == FromOrigin(Seen(t), Outside(k))
  {
    var more :| Seen(t') == Seen(t) + more && forall item :: item in more ==> !FromOutside(item);
    FromOriginConcat(Seen(t), more, Outside(k));
    NothingFrom(more, k);
  }

  lemma SameSeen(t: Thread, t': Thread)
    requires Seen(t') == Seen(t)
    ensures Appends(t, t')
  {
    assert Seen(t') == Seen(t) + [];
  }

  lemma PushAppends(s: State, target: nat, item: Item, j: nat)
    requires target < |s.threads| && j < |s.threads| && !FromOutside(item)
    ensures |Push(s, target, item).threads| == |s.threads|
    ensures Appends(s.threads[j], Push(s, target, item).threads[j])
  {
    var r := s.threads[j];
    if j == target && !r.phase.Exited? {
      Associative(r.received, r.inbox, [item]);
      assert Seen(Push(s, target, item).threads[j]) == Seen(r) + [item];
    } else {
      SameSeen(r, r);
    }
  }

  lemma FlushAppends(c: Config, s: State, i: nat, batch: seq<Send>, j: nat)
    requires i < |s.threads| && s.threads[i].phase == Flushing(batch) && j < |s.threads|
    ensures |FlushStep(c, s, i, batch).threads| == |s.threads|
    ensures Appends(s.threads[j], FlushStep(c, s, i, batch).threads[j])
  {
    var t := s.threads[i];
    if batch != [] && InTable(|s.threads|, c.route(i, batch[0].dest)) {
      var after := if |batch| == 1 then Waiting else Flushing(batch[1..]);
      var mid := s.Put(i, t.(phase := after, pushed := t.pushed + [batch[0]]));
      assert Seen(mid.threads[j]) == Seen(s.threads[j]);
      PushAppends(mid, LinkTarget(i, c.route(i, batch[0].dest)), Event(batch[0].msg, Context(i)), j);
    } else {
      SameSeen(s.threads[j], FlushStep(c, s, i, batch).threads[j]);
    }
  }

  lemma StopAppends(s: State, i: nat, next: nat, thenFree: bool, j: nat)
    requires i < |s.threads| && j < |s.threads|
    ensures |StopStep(s, i, next, thenFree).threads| == |s.threads|
    ensures Appends(s.threads[j], StopStep(s, i, next, thenFree).threads[j])
  {
    if next + 1 < |s.threads| {
      var mid := s.Put(i, s.threads[i].(phase := Stopping(next + 1, thenFree)));
      assert Seen(mid.threads[j]) == Seen(s.threads[j]);
      PushAppends(mid, LinkTarget(i, next), Stop, j);
    } else {
      SameSeen(s.threads[j], StopStep(s, i, next, thenFree).threads[j]);
    }
  }

  lemma OwnAppends(c: Config, s: State, i: nat)
    requires ThreadEnabled(s, i) && !s.threads[i].phase.Flushing? && !s.threads[i].phase.Stopping?
    ensures |ThreadStep(c, s, i).threads| == |s.threads|
    ensures Appends(s.threads[i], ThreadStep(c, s, i).threads[i])
  {
    var t := s.threads[i];
    if t.phase.Waiting? && t.inbox != [] {
      ReceiveMovesHead(t);
    }
    SameSeen(t, ThreadStep(c, s, i).threads[i]);
  }

  lemma ThreadAppends(c: Config, s: State, i: nat, j: nat)
    requires ThreadEnabled(s, i) && j < |s.threads|
    ensures |ThreadStep(c, s, i).threads| == |s.threads|
    ensures Appends(s.threads[j], ThreadStep(c, s, i).threads[j])
  {
    match s.threads[i].phase
    case Flushing(batch) => FlushAppends(c, s, i, batch, j);
    case Stopping(next, thenFree) => StopAppends(s, i, next, thenFree, j);
    case Initialising(_) | DrainingInit | FreeingOnDetach | Waiting
       | Handling(_) | Draining | HandlingDrop | FreeingLast =>
      if i == j {
        OwnAppends(c, s, i);
      } else {
        SameSeen(s.threads[j], ThreadStep(c, s, i).threads[j]);
      }
  }

  /** A thread adds at most one accessor, which has sent nothing yet. */
  lemma ThreadCreates(c: Config, s: State, i: nat)
    requires ThreadEnabled(s, i)
    ensures s.accessors <= ThreadStep(c, s, i).accessors
    ensures forall k :: |s.accessors| <= k < |ThreadStep(c, s, i).accessors| ==>
      && ThreadStep(c, s, i).accessors[k].sent == []
      && s.threads[i].phase.Initialising? && s.threads[i].phase.ops != []
      && s.threads[i].phase.ops[0]
         == NewAccessor(ThreadStep(c, s, i).accessors[k].dest, ThreadStep(c, s, i).accessors[k].todo)
  {
  }

  lemma ThreadStepArrived(c: Config, s: State, i: nat)
    requires AllArrived(s) && ThreadEnabled(s, i)
    ensures AllArrived(ThreadStep(c, s, i))
  {
    var s' := ThreadStep(c, s, i);
    ThreadCreates(c, s, i);
    StepLength(c, s, i);
    forall k: nat, j | 0 <= j < |s'.threads|
      ensures ArrivedFrom(s', k, j)
    {
      ThreadAppends(c, s, i, j);
      AppendsKeeps(s.threads[j], s'.threads[j], k);
      assert ArrivedFrom(s, k, j);
      assert k < |s.accessors| ==> s'.accessors[k] == s.accessors[k];
    }
  }

  lemma StepLength(c: Config, s: State, i: nat)
    requires ThreadEnabled(s, i)
    ensures |ThreadStep(c, s, i).threads| == |s.threads|
  {
    ThreadAppends(c, s, i, i);
  }

  lemma SendArrived(s: State, k: nat, s': State)
    requires AllArrived(s) && AccessorEnabled(s, k) && s.accessors[k].todo != []
    requires var a := s.accessors[k];
      && s'.accessors == s.accessors[k := HavingSent(a)]
      && var r := s.threads[a.dest];
      && s'.threads == s.threads[a.dest := r.(inbox := r.inbox + [Event(a.todo[0], Outside(k))])]
    ensures AllArrived(s')
  {
    var a := s.accessors[k];
    forall x: nat, j | 0 <= j < |s'.threads|
      ensures ArrivedFrom(s', x, j)
    {
      assert ArrivedFrom(s, x, j);
      if j == a.dest {
        ArrivalAppended(s.threads[j], Event(a.todo[0], Outside(k)), Outside(x));
      }
    }
  }

  lemma AccessorStepArrived(c: Config, s: State, k: nat)
    requires AllArrived(s) && AccessorEnabled(s, k) && !AccessorStep(s, k).fault.SendToExited?
    ensures AllArrived(AccessorStep(s, k))
  {
    var a, s' := s.accessors[k], AccessorStep(s, k);
    if a.stage.Counted? && a.todo != [] {
      SendArrived(s, k, s');
    } else {
      forall x: nat, j | 0 <= j < |s'.threads|
        ensures ArrivedFrom(s', x, j)
      {
        assert ArrivedFrom(s, x, j);
        if a.todo == [] {
          PushAppends(s, a.dest, AccessorDropped, j);
          AppendsKeeps(s.threads[j], s'.threads[j], x);
        }
      }
    }
  }

  // ---------- and what they send is what their creators gave them to send ----------

  /** The operations among `ops` that create an accessor, with multiplicity. */
  function AccessorOps(ops: seq<InitOp>): multiset<InitOp> {
    if ops == [] then multiset{}
    else (if ops[0].NewAccessor? then multiset{ops[0]} else multiset{}) + AccessorOps(ops[1..])
  }

  function ScriptedOps(scripts: seq<seq<InitOp>>): multiset<InitOp> {
    if scripts == [] then multiset{} else AccessorOps(scripts[0]) + ScriptedOps(scripts[1..])
  }

  function PhaseOps(p: Phase): multiset<InitOp> {
    if p.Initialising? then AccessorOps(p.ops) else multiset{}
  }

  /** Those still to be carried out. */
  function OpsLeft(threads: seq<Thread>): multiset<InitOp> {
    if threads == [] then multiset{} else PhaseOps(threads[0].phase) + OpsLeft(threads[1..])
  }

  /** The operation an accessor comes from: its context, and what it has sent and will send. */
  function MadeBy(a: Accessor): InitOp {
    NewAccessor(a.dest, a.sent + a.todo)
  }

  function OpsDone(accessors: seq<Accessor>): multiset<InitOp> {
    if accessors == [] then multiset{}
    else OpsDone(accessors[..|accessors| - 1]) + multiset{MadeBy(accessors[|accessors| - 1])}
  }

  predicate FromScripts(c: Config, s: State) {
    OpsLeft(s.threads) + OpsDone(s.accessors) == ScriptedOps(c.scripts)
  }

  lemma Regroup<T>(first: multiset<T>, a: multiset<T>, b: multiset<T>, x: multiset<T>, y: multiset<T>)
    requires a + b == x + y
    ensures (first + a) + b == (first + x) + y
  {
    assert (first + a) + b == first + (a + b);
    assert (first + x) + y == first + (x + y);
  }

  lemma Swap<T>(a: multiset<T>, rest: multiset<T>, b: multiset<T>)
    ensures (a + rest) + b == (b + rest) + a
  {
  }

  /** If only thread `i` has changed its phase, what is left changes by its part. */
  lemma {:induction false} OpsLeftAfter(threads: seq<Thread>, threads': seq<Thread>, i: nat)
    requires i < |threads| == |threads'|
    requires forall j :: 0 <= j < |threads| && j != i ==> threads'[j].phase == threads[j].phase
    ensures OpsLeft(threads') + PhaseOps(threads[i].phase) == OpsLeft(threads) + PhaseOps(threads'[i].phase)
  {
    if i == 0 {
      OpsLeftSame(threads[1..], threads'[1..]);
      Swap(PhaseOps(threads'[0].phase), OpsLeft(threads[1..]), PhaseOps(threads[0].phase));
    } else {
      OpsLeftAfter(threads[1..], threads'[1..], i - 1);
      Regroup(PhaseOps(threads[0].phase), OpsLeft(threads'[1..]), PhaseOps(threads[i].phase),
              OpsLeft(threads[1..]), PhaseOps(threads'[i].phase));
    }
  }

  lemma {:induction false} OpsLeftSame(threads: seq<Thread>, threads': seq<Thread>)
    requires |threads| == |threads'|
    requires forall j :: 0 <= j < |threads| ==> threads'[j].phase == threads[j].phase
    ensures OpsLeft(threads') == OpsLeft(threads)
  {
    if threads != [] {
      OpsLeftSame(threads[1..], threads'[1..]);
    }
  }

  lemma OpsDoneMore(accessors: seq<Accessor>, a: Accessor)
    ensures OpsDone(accessors + [a]) == OpsDone(accessors) + multiset{MadeBy(a)}
  {
    assert (accessors + [a])[..|accessors|] == accessors;
  }

  lemma {:induction false} OpsDoneSame(accessors: seq<Accessor>, k: nat, a: Accessor)
    requires k < |accessors| && MadeBy(a) == MadeBy(accessors[k])
    ensures OpsDone(accessors[k := a]) == OpsDone(accessors)
  {
    var n := |accessors| - 1;
    if k == n {
      assert accessors[k := a][..n] == accessors[..n];
    } else {
      assert accessors[k := a][..n] == accessors[..n][k := a];
      OpsDoneSame(accessors[..n], k, a);
    }
  }

  lemma Cancel<T>(a: multiset<T>, b: multiset<T>, x: multiset<T>)
    requires a + x == b + x
    ensures a == b
  {
    assert a == (a + x) - x && b == (b + x) - x;
  }

  lemma OpsLeftKept(threads: seq<Thread>, threads': seq<Thread>, i: nat)
    requires i < |threads| == |threads'| && PhaseOps(threads'[i].phase) == PhaseOps(threads[i].phase)
    requires forall j :: 0 <= j < |threads| && j != i ==> threads'[j].phase == threads[j].phase
    ensures OpsLeft(threads') == OpsLeft(threads)
  {
    OpsLeftAfter(threads, threads', i);
    Cancel(OpsLeft(threads'), OpsLeft(threads), PhaseOps(threads[i].phase));
  }

  lemma CreationFromScripts(c: Config, s: State, i: nat, ops: seq<InitOp>)
    requires FromScripts(c, s) && i < |s.threads| && s.threads[i].phase == Initialising(ops)
    requires ops != [] && ops[0].NewAccessor? && !s.freed && ops[0].dest < |s.threads|
    ensures FromScripts(c, InitStep(s, i, ops))
  {
    var s' := InitStep(s, i, ops);
    Empty(ops[0].todo);
    OpsDoneMore(s.accessors, Accessor(ops[0].dest, ops[0].todo, Idle, []));
    OpsLeftAfter(s.threads, s'.threads, i);
    OpMoves(OpsLeft(s'.threads), OpsLeft(s.threads), AccessorOps(ops[1..]), OpsDone(s.accessors), ops[0]);
  }

  lemma InitStepFromScripts(c: Config, s: State, i: nat, ops: seq<InitOp>)
    requires FromScripts(c, s) && i < |s.threads| && s.threads[i].phase == Initialising(ops)
    ensures FromScripts(c, InitStep(s, i, ops))
  {
    if ops != [] && ops[0].NewAccessor? && !s.freed && ops[0].dest < |s.threads| {
      CreationFromScripts(c, s, i, ops);
    } else {
      OpsLeftKept(s.threads, InitStep(s, i, ops).threads, i);
    }
  }

  lemma OpMoves(left': multiset<InitOp>, left: multiset<InitOp>, rest: multiset<InitOp>,
                done: multiset<InitOp>, op: InitOp)
    requires left' + (multiset{op} + rest) == left + rest
    ensures left' + (done + multiset{op}) == left + done
  {
    forall x
      ensures (left' + (done + multiset{op}))[x] == (left + done)[x]
    {
      assert (left' + (multiset{op} + rest))[x] == (left + rest)[x];
    }
  }

  lemma ThreadStepFromScripts(c: Config, s: State, i: nat)
    requires FromScripts(c, s) && ThreadEnabled(s, i)
    ensures FromScripts(c, ThreadStep(c, s, i))
  {
    if s.threads[i].phase.Initialising? {
      InitStepFromScripts(c, s, i, s.threads[i].phase.ops);
    } else {
      OthersKeepOps(c, s, i);
    }
  }

  lemma OthersKeepOps(c: Config, s: State, i: nat)
    requires FromScripts(c, s) && ThreadEnabled(s, i) && !s.threads[i].phase.Initialising?
    ensures FromScripts(c, ThreadStep(c, s, i))
  {
    var s' := ThreadStep(c, s, i);
    OthersCreateNone(c, s, i);
    OwnPhase(c, s, i);
    forall j | 0 <= j < |s.threads| && j != i
      ensures s'.threads[j].phase == s.threads[j].phase
    {
      ThreadFrame(c, s, i, j);
    }
    OpsLeftKept(s.threads, s'.threads, i);
  }

  lemma OthersCreateNone(c: Config, s: State, i: nat)
    requires ThreadEnabled(s, i) && !s.threads[i].phase.Initialising?
    ensures ThreadStep(c, s, i).accessors == s.accessors
  {
    ThreadCreates(c, s, i);
  }

  /** Nobody goes back to initialising. */
  lemma OwnPhase(c: Config, s: State, i: nat)
    requires ThreadEnabled(s, i) && !s.threads[i].phase.Initialising?
    ensures |ThreadStep(c, s, i).threads| == |s.threads|
    ensures !ThreadStep(c, s, i).threads[i].phase.Initialising?
  {
    OwnFrame(c, s, i);
  }

  lemma SentIsSame(a: Accessor)
    requires a.todo != []
    ensures MadeBy(HavingSent(a)) == MadeBy(a)
  {
    assert a.todo == [a.todo[0]] + a.todo[1..];
    Associative(a.sent, [a.todo[0]], a.todo[1..]);
  }

  lemma AccessorStepFromScripts(c: Config, s: State, k: nat)
    requires FromScripts(c, s) && AccessorEnabled(s, k)
    ensures FromScripts(c, AccessorStep(s, k))
  {
    var a, s' := s.accessors[k], AccessorStep(s, k);
    if a.todo != [] {
      SentIsSame(a);
    }
    if s'.accessors != s.accessors {
      OpsDoneSame(s.accessors, k, s'.accessors[k]);
      assert s'.accessors == s.accessors[k := s'.accessors[k]];
    }
    forall j | 0 <= j < |s.threads|
      ensures |s'.threads| == |s.threads| && s'.threads[j].phase == s.threads[j].phase
    {
      AccessorFrame(s, k, j);
    }
    AccessorFrame(s, k, a.dest);
    OpsLeftSame(s.threads, s'.threads);
  }

  lemma {:induction false} RunOutsiders(c: Config, s: State, run: seq<Action>, s': State)
    requires Sound(c, s) && AllArrived(s) && FromScripts(c, s) && Reaches(c, s, run, s')
    ensures AllArrived(s') && FromScripts(c, s')
    decreases run
  {
    if run != [] {
      StepSound(c, s, run[0]);
      match run[0] {
        case ThreadMoves(i) =>
          ThreadStepArrived(c, s, i);
          ThreadStepFromScripts(c, s, i);
        case AccessorMoves(k) =>
          AccessorStepArrived(c, s, k);
          AccessorStepFromScripts(c, s, k);
      }
      RunOutsiders(c, Apply(c, s, run[0]), run[1..], s');
    }
  }

  lemma InitialOutsiders(c: Config)
    ensures AllArrived(Initial(c)) && FromScripts(c, Initial(c))
  {
    InitialOps(c.scripts, Initial(c).threads);
  }

  lemma {:induction false} InitialOps(scripts: seq<seq<InitOp>>, threads: seq<Thread>)
    requires |threads| == |scripts| && forall i :: 0 <= i < |scripts| ==> threads[i].phase == Initialising(scripts[i])
    ensures OpsLeft(threads) == ScriptedOps(scripts)
  {
    if scripts != [] {
      InitialOps(scripts[1..], threads[1..]);
    }
  }

  // ---------- at the end ----------

  /** What has arrived from accessor `k` at its context. */
  function ArrivedFromIts(s: State, k: nat): seq<Msg>
    requires k < |s.accessors| && s.accessors[k].dest < |s.threads|
  {
    FromOrigin(s.threads[s.accessors[k].dest].received, Outside(k))
  }

  predicate HasContexts(s: State) {
    forall k :: 0 <= k < |s.accessors| ==> s.accessors[k].dest < |s.threads|
  }

  /** For each of the first `n` accessors, its context and what that has received from it. */
  function Served(s: State, n: nat): multiset<InitOp>
    requires n <= |s.accessors| && HasContexts(s)
  {
    if n == 0 then multiset{}
    else Served(s, n - 1) + multiset{NewAccessor(s.accessors[n - 1].dest, ArrivedFromIts(s, n - 1))}
  }

  lemma ServedOne(s: State, k: nat)
    requires k < |s.accessors| && s.accessors[k].dest < |s.threads| && AllArrived(s)
    requires s.accessors[k].todo == [] && s.threads[s.accessors[k].dest].inbox == []
    ensures NewAccessor(s.accessors[k].dest, ArrivedFromIts(s, k)) == MadeBy(s.accessors[k])
  {
    var a := s.accessors[k];
    assert ArrivedFrom(s, k, a.dest);
    Empty(s.threads[a.dest].received);
    Empty(a.sent);
  }

  lemma {:induction false} ServedIsDone(s: State, n: nat)
    requires n <= |s.accessors| && HasContexts(s) && AllArrived(s)
    requires forall k :: 0 <= k < |s.accessors| ==>
      s.accessors[k].todo == [] && s.threads[s.accessors[k].dest].inbox == []
    ensures Served(s, n) == OpsDone(s.accessors[..n])
  {
    if n > 0 {
      ServedIsDone(s, n - 1);
      assert s.accessors[..n][..n - 1] == s.accessors[..n - 1];
      ServedOne(s, n - 1);
    }
  }

  lemma {:induction false} NoOpsLeft(threads: seq<Thread>)
    requires forall i :: 0 <= i < |threads| ==> !threads[i].phase.Initialising?
    ensures OpsLeft(threads) == multiset{}
  {
    if threads != [] {
      NoOpsLeft(threads[1..]);
    }
  }
}
