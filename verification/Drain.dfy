/** Running a message and everything it sends within its own context. */
module Drain {
  import opened Sequences
  import opened Sums
  import opened Messages
  import opened LocalQueue
  import P = Protocol

  // ---------- the order of a depth-first traversal ----------

  lemma LocalPartIsSmaller(id: nat, m: Msg)
    ensures Sum(Nodes, LocalPart(id, m.sends)) < Nodes(m)
  {
    SplitKeepsNodes(id, m.sends);
  }

  /** A message, then what it sends within context `id`: the child sent last, with all its offspring, first. */
  function DepthFirst(id: nat, m: Msg): seq<Msg>
    decreases Nodes(m), 0
  {
    LocalPartIsSmaller(id, m);
    [m] + LastFirst(id, LocalPart(id, m.sends))
  }

  function LastFirst(id: nat, ms: seq<Msg>): seq<Msg>
    decreases Sum(Nodes, ms), 1 + |ms|
  {
    if ms == [] then []
    else
      SumDropLast(Nodes, ms);
      DepthFirst(id, ms[|ms| - 1]) + LastFirst(id, ms[..|ms| - 1])
  }

  /** All messages in the trees that stay within context `id`, however ordered. */
  function LocalMessages(id: nat, ms: seq<Msg>): multiset<Msg>
    decreases Sum(Nodes, ms), |ms|
  {
    if ms == [] then multiset{}
    else
      LocalPartIsSmaller(id, ms[0]);
      multiset{ms[0]} + LocalMessages(id, LocalPart(id, ms[0].sends)) + LocalMessages(id, ms[1..])
  }

  /** What running the messages of `trace` one after the other leaves unsent. */
  function Produced(id: nat, trace: seq<Msg>): seq<Send> {
    if trace == [] then [] else RemotePart(id, trace[0].sends) + Produced(id, trace[1..])
  }

  lemma {:induction false} LastFirstConcat(id: nat, xs: seq<Msg>, ys: seq<Msg>)
    ensures LastFirst(id, xs + ys) == LastFirst(id, ys) + LastFirst(id, xs)
    decreases |ys|
  {
    if ys == [] {
      assert xs + ys == xs;
    } else {
      var n := |ys| - 1;
      assert (xs + ys)[..|xs + ys| - 1] == xs + ys[..n];
      LastFirstConcat(id, xs, ys[..n]);
    }
  }

  lemma {:induction false} ProducedConcat(id: nat, xs: seq<Msg>, ys: seq<Msg>)
    ensures Produced(id, xs + ys) == Produced(id, xs) + Produced(id, ys)
  {
    if xs == [] {
      Empty(ys);
    } else {
      HeadAndTail(xs, ys);
      ProducedConcat(id, xs[1..], ys);
      Associative(RemotePart(id, xs[0].sends), Produced(id, xs[1..]), Produced(id, ys));
    }
  }

  /** Taking the top of the stack and pushing what it sends leaves the rest of the traversal to do. */
  lemma PopRunsNext(id: nat, rest: seq<Msg>, top: Msg)
    ensures LastFirst(id, rest + [top]) == [top] + LastFirst(id, rest + LocalPart(id, top.sends))
  {
    var stack := rest + [top];
    assert stack[|stack| - 1] == top && stack[..|stack| - 1] == rest;
    LastFirstConcat(id, rest, LocalPart(id, top.sends));
  }

  lemma {:induction false} LocalMessagesConcat(id: nat, xs: seq<Msg>, ys: seq<Msg>)
    ensures LocalMessages(id, xs + ys) == LocalMessages(id, xs) + LocalMessages(id, ys)
  {
    if xs == [] {
      assert xs + ys == ys;
    } else {
      assert (xs + ys)[1..] == xs[1..] + ys;
      LocalMessagesConcat(id, xs[1..], ys);
    }
  }

  lemma LocalMessagesSingle(id: nat, m: Msg)
    ensures LocalMessages(id, [m]) == multiset{m} + LocalMessages(id, LocalPart(id, m.sends))
  {
    SingleTail(m);
    assert LocalMessages(id, []) == multiset{};
  }

  lemma LastFirstMembers(id: nat, rest: seq<Msg>, top: Msg)
    ensures multiset(LastFirst(id, rest + [top]))
         == multiset{top} + multiset(LastFirst(id, LocalPart(id, top.sends))) + multiset(LastFirst(id, rest))
  {
    PopRunsNext(id, rest, top);
    LastFirstConcat(id, rest, LocalPart(id, top.sends));
  }

  /** The traversal visits each message of the trees exactly once. */
  lemma {:induction false} VisitsEachOnce(id: nat, ms: seq<Msg>)
    ensures multiset(LastFirst(id, ms)) == LocalMessages(id, ms)
    decreases Sum(Nodes, ms), |ms|
  {
    if ms != [] {
      var rest, top := ms[..|ms| - 1], ms[|ms| - 1];
      assert ms == rest + [top];
      SumDropLast(Nodes, ms);
      LocalPartIsSmaller(id, top);
      VisitsEachOnce(id, rest);
      VisitsEachOnce(id, LocalPart(id, top.sends));
      LastFirstMembers(id, rest, top);
      LocalMessagesConcat(id, rest, [top]);
      LocalMessagesSingle(id, top);
    }
  }

  // ---------- the loops ----------

  /** The private part of a context's data, with the messages it has run so far. */
  class ContextData {
    const id: nat
    const localQueue: LocalQueue<Msg>
    var unsentMessages: seq<Send>
    var ran: seq<Msg>

    constructor (id: nat)
      ensures this.id == id && fresh(localQueue)
      ensures localQueue.items == [] && unsentMessages == [] && ran == []
    {
      this.id := id;
      localQueue := new LocalQueue();
      unsentMessages, ran := [], [];
    }

    /** The handler's sends, each to the local queue or to the unsent messages. */
    method Run(m: Msg)
      modifies this, localQueue
      ensures ran == old(ran) + [m]
      ensures localQueue.items == old(localQueue.items) + LocalPart(id, m.sends)
      ensures unsentMessages == old(unsentMessages) + RemotePart(id, m.sends)
    {
      ran := ran + [m];
      for k := 0 to |m.sends|
        invariant ran == old(ran) + [m]
        invariant localQueue.items == old(localQueue.items) + LocalPart(id, m.sends[..k])
        invariant unsentMessages == old(unsentMessages) + RemotePart(id, m.sends[..k])
      {
        var send := m.sends[k];
        PartsAppend(id, m.sends, k);
        if send.dest == id {
          localQueue.Send(send.msg);
        } else {
          unsentMessages := unsentMessages + [send];
        }
      }
      assert m.sends[..|m.sends|] == m.sends;
    }

    /** Runs local messages until none is left. */
    method DrainLocal()
      modifies this, localQueue
      ensures localQueue.items == []
      ensures ran == old(ran) + LastFirst(id, old(localQueue.items))
      ensures unsentMessages == old(unsentMessages) + Produced(id, LastFirst(id, old(localQueue.items)))
    {
      ghost var done: seq<Msg> := [];
      ghost var stack, all := localQueue.items, LastFirst(id, localQueue.items);
      ghost var ran0, unsent0 := ran, unsentMessages;
      var msg := localQueue.Recv();
      while msg.Some?
        invariant stack == if msg.Some? then localQueue.items + [msg.value] else []
        invariant msg.None? ==> localQueue.items == []
        invariant Underway(id, all, done, stack, ran0, ran, unsent0, unsentMessages)
        decreases Sum(Nodes, stack)
      {
        DrainRound(id, all, done, localQueue.items, msg.value, ran0, ran, unsent0, unsentMessages);
        DrainLowers(id, localQueue.items, msg.value);
        done := done + [msg.value];
        Run(msg.value);
        stack := localQueue.items;
        msg := localQueue.Recv();
      }
      assert done + LastFirst(id, []) == done;
    }

    /** A message and all that stays local: run in depth-first order, each exactly once. */
    method Handle(m: Msg)
      requires localQueue.items == []
      modifies this, localQueue
      ensures localQueue.items == []
      ensures ran == old(ran) + DepthFirst(id, m)
      ensures unsentMessages == old(unsentMessages) + Produced(id, DepthFirst(id, m))
    {
      Run(m);
      ghost var local := localQueue.items;
      assert local == LocalPart(id, m.sends);
      DrainLocal();
      Associative(old(ran), [m], LastFirst(id, local));
      ProducedConcat(id, [m], LastFirst(id, local));
      ProducedSingle(id, m);
      Associative(old(unsentMessages), RemotePart(id, m.sends), Produced(id, LastFirst(id, local)));
    }
  }

  lemma ProducedSingle(id: nat, m: Msg)
    ensures Produced(id, [m]) == RemotePart(id, m.sends)
  {
    assert [m][1..] == [];
    assert Produced(id, []) == [];
  }

  /** The messages `done` have run and those of `stack` are left. */
  ghost predicate Underway(id: nat, all: seq<Msg>, done: seq<Msg>, stack: seq<Msg>,
                           ran0: seq<Msg>, ran: seq<Msg>, unsent0: seq<Send>, unsent: seq<Send>)
  {
    && done + LastFirst(id, stack) == all
    && ran == ran0 + done
    && unsent == unsent0 + Produced(id, done)
  }

  lemma DrainRound(id: nat, all: seq<Msg>, done: seq<Msg>, rest: seq<Msg>, top: Msg,
                   ran0: seq<Msg>, ran: seq<Msg>, unsent0: seq<Send>, unsent: seq<Send>)
    requires Underway(id, all, done, rest + [top], ran0, ran, unsent0, unsent)
    ensures Underway(id, all, done + [top], rest + LocalPart(id, top.sends),
                     ran0, ran + [top], unsent0, unsent + RemotePart(id, top.sends))
  {
    PopRunsNext(id, rest, top);
    Associative(done, [top], LastFirst(id, rest + LocalPart(id, top.sends)));
    Associative(ran0, done, [top]);
    ProducedAppend(id, done, top);
    Associative(unsent0, Produced(id, done), RemotePart(id, top.sends));
  }

  lemma ProducedAppend(id: nat, done: seq<Msg>, top: Msg)
    ensures Produced(id, done + [top]) == Produced(id, done) + RemotePart(id, top.sends)
  {
    ProducedConcat(id, done, [top]);
    ProducedSingle(id, top);
  }

  lemma DrainLowers(id: nat, rest: seq<Msg>, top: Msg)
    ensures Sum(Nodes, rest + LocalPart(id, top.sends)) < Sum(Nodes, rest + [top])
  {
    RunLowers(id, rest, top);
    SumAppend(Nodes, rest, top);
  }

  lemma DepthFirstVisitsEachOnce(id: nat, m: Msg)
    ensures multiset(DepthFirst(id, m)) == LocalMessages(id, [m])
  {
    VisitsEachOnce(id, [m]);
    assert [m][..0] == [];
    assert LastFirst(id, [m]) == DepthFirst(id, m) + LastFirst(id, []);
  }

  lemma PartsAppend(id: nat, sends: seq<Send>, k: nat)
    requires k < |sends|
    ensures LocalPart(id, sends[..k + 1])
         == LocalPart(id, sends[..k]) + if sends[k].dest == id then [sends[k].msg] else []
    ensures RemotePart(id, sends[..k + 1])
         == RemotePart(id, sends[..k]) + if sends[k].dest == id then [] else [sends[k]]
  {
    assert sends[..k + 1] == sends[..k] + [sends[k]];
    LocalPartConcat(id, sends[..k], [sends[k]]);
    assert [sends[k]][1..] == [];
  }

  lemma RunLowers(id: nat, rest: seq<Msg>, top: Msg)
    ensures Sum(Nodes, rest + LocalPart(id, top.sends)) < Sum(Nodes, rest) + Nodes(top)
  {
    LocalPartIsSmaller(id, top);
    SumConcat(Nodes, rest, LocalPart(id, top.sends));
  }

  // ---------- the same in the step machine ----------

  /** What draining leaves unsent. */
  function Leaves(id: nat, local: seq<Msg>): seq<Send> {
    Produced(id, LastFirst(id, local))
  }

  lemma LeavesStep(id: nat, local: seq<Msg>)
    requires local != []
    ensures var n := |local| - 1;
      && Sum(Nodes, local[..n] + LocalPart(id, local[n].sends)) < Sum(Nodes, local)
      && Leaves(id, local) == RemotePart(id, local[n].sends) + Leaves(id, local[..n] + LocalPart(id, local[n].sends))
      && LastFirst(id, local) == [local[n]] + LastFirst(id, local[..n] + LocalPart(id, local[n].sends))
  {
    var n := |local| - 1;
    assert local == local[..n] + [local[n]];
    SumDropLast(Nodes, local);
    RunLowers(id, local[..n], local[n]);
    PopRunsNext(id, local[..n], local[n]);
    ProducedConcat(id, [local[n]], LastFirst(id, local[..n] + LocalPart(id, local[n].sends)));
    assert [local[n]][1..] == [];
  }

  /** What the machine's steps make of a draining thread before it settles. */
  function Drained(i: nat, t: P.Thread): P.Thread
    decreases Sum(Nodes, t.local)
  {
    if t.local == [] then t
    else
      LeavesStep(i, t.local);
      Drained(i, P.RunLocal(i, t))
  }

  /** `d` is `t` with its local queue drained: the messages `trace` have run and `more` is left unsent. */
  predicate DrainedTo(t: P.Thread, d: P.Thread, trace: seq<Msg>, more: seq<Send>) {
    d == t.(local := [], unsent := t.unsent + more, produced := t.produced + more, ran := t.ran + trace)
  }

  lemma DrainedToStep(i: nat, t: P.Thread, d: P.Thread, trace: seq<Msg>, more: seq<Send>)
    requires t.local != [] && DrainedTo(P.RunLocal(i, t), d, trace, more)
    ensures var top := t.local[|t.local| - 1];
      DrainedTo(t, d, [top] + trace, RemotePart(i, top.sends) + more)
  {
    var top := t.local[|t.local| - 1];
    Associative(t.unsent, RemotePart(i, top.sends), more);
    Associative(t.produced, RemotePart(i, top.sends), more);
    Associative(t.ran, [top], trace);
  }

  /** The machine's steps run the same messages in the same order as the loop, to the same effect. */
  lemma {:induction false} MachineDrainsAlike(i: nat, t: P.Thread)
    ensures DrainedTo(t, Drained(i, t), LastFirst(i, t.local), Leaves(i, t.local))
    decreases Sum(Nodes, t.local)
  {
    if t.local == [] {
      assert Leaves(i, t.local) == [];
    } else {
      var t1 := P.RunLocal(i, t);
      LeavesStep(i, t.local);
      MachineDrainsAlike(i, t1);
      DrainedToStep(i, t, Drained(i, t1), LastFirst(i, t1.local), Leaves(i, t1.local));
    }
  }

  /** As many steps of thread `i` as there are local messages to run. */
  function Moves(i: nat, k: nat): seq<P.Action> {
    if k == 0 then [] else [P.ThreadMoves(i)] + Moves(i, k - 1)
  }

  lemma DrainingStep(c: P.Config, s: P.State, i: nat)
    requires s.fault.NoFault? && i < |s.threads| && s.threads[i].phase.Draining? && s.threads[i].local != []
    ensures P.Enabled(s, P.ThreadMoves(i))
    ensures P.Apply(c, s, P.ThreadMoves(i)) == s.Put(i, P.RunLocal(i, s.threads[i]))
  {
  }

  /** From a draining thread the machine reaches the drained one, one local message a step. */
  lemma {:induction false} DrainingIsARun(c: P.Config, s: P.State, i: nat)
    requires s.fault.NoFault? && i < |s.threads| && s.threads[i].phase.Draining?
    ensures P.Reaches(c, s, Moves(i, |LastFirst(i, s.threads[i].local)|), s.Put(i, Drained(i, s.threads[i])))
    decreases Sum(Nodes, s.threads[i].local)
  {
    var t := s.threads[i];
    if t.local == [] {
      assert s.Put(i, t) == s;
    } else {
      var s' := DrainedOneStep(c, s, i);
      DrainingIsARun(c, s', i);
    }
  }

  lemma DrainedOneStep(c: P.Config, s: P.State, i: nat) returns (s': P.State)
    requires s.fault.NoFault? && i < |s.threads| && s.threads[i].phase.Draining? && s.threads[i].local != []
    ensures s' == s.Put(i, P.RunLocal(i, s.threads[i])) && s'.threads[i].phase.Draining?
    ensures Sum(Nodes, s'.threads[i].local) < Sum(Nodes, s.threads[i].local)
    ensures s'.Put(i, Drained(i, s'.threads[i])) == s.Put(i, Drained(i, s.threads[i]))
    ensures var run := Moves(i, |LastFirst(i, s.threads[i].local)|);
      && run != [] && run[0] == P.ThreadMoves(i)
      && run[1..] == Moves(i, |LastFirst(i, s'.threads[i].local)|)
    ensures P.Enabled(s, P.ThreadMoves(i)) && P.Apply(c, s, P.ThreadMoves(i)) == s'
  {
    s' := s.Put(i, P.RunLocal(i, s.threads[i]));
    LeavesStep(i, s.threads[i].local);
    DrainingStep(c, s, i);
  }
}
