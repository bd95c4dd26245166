/**
 * Messages as finite trees. A queued closure is known here by what it sends when it runs: each send
 * names the context of its key, and whether that is the sender's own context decides between the
 * local queue and the unsent messages.
 */
module Messages {
  import opened Sequences
  import opened Sums

  datatype Msg = Msg(id: nat, sends: seq<Send>)

  datatype Send = Send(dest: nat, msg: Msg)

  /** The number of messages in a tree: itself and everything its handlers will ever cause. */
  function Nodes(m: Msg): nat
    decreases m
  {
    1 + NodesIn(m.sends)
  }

  function NodesIn(sends: seq<Send>): nat
    decreases sends
  {
    if sends == [] then 0 else SendNodes(sends[0]) + NodesIn(sends[1..])
  }

  function SendNodes(s: Send): nat
    decreases s
  {
    Nodes(s.msg)
  }

  /** What a run of `sends` in context `self` pushes onto the local queue, in order. */
  function LocalPart(self: nat, sends: seq<Send>): seq<Msg> {
    if sends == [] then []
    else (if sends[0].dest == self then [sends[0].msg] else []) + LocalPart(self, sends[1..])
  }

  /** What a run of `sends` in context `self` pushes onto the unsent messages, in order. */
  function RemotePart(self: nat, sends: seq<Send>): seq<Send> {
    if sends == [] then []
    else (if sends[0].dest == self then [] else [sends[0]]) + RemotePart(self, sends[1..])
  }

  /** Splitting a run's sends into local and remote ones loses no message. */
  lemma {:induction false} SplitKeepsNodes(self: nat, sends: seq<Send>)
    ensures Sum(Nodes, LocalPart(self, sends)) + Sum(SendNodes, RemotePart(self, sends)) == NodesIn(sends)
  {
    if sends != [] {
      SplitKeepsNodes(self, sends[1..]);
      SumConcat(Nodes, if sends[0].dest == self then [sends[0].msg] else [], LocalPart(self, sends[1..]));
      SumConcat(SendNodes, if sends[0].dest == self then [] else [sends[0]], RemotePart(self, sends[1..]));
      SumSingle(Nodes, sends[0].msg);
      SumSingle(SendNodes, sends[0]);
    }
  }

  lemma {:induction false} LocalPartConcat(self: nat, xs: seq<Send>, ys: seq<Send>)
    ensures LocalPart(self, xs + ys) == LocalPart(self, xs) + LocalPart(self, ys)
    ensures RemotePart(self, xs + ys) == RemotePart(self, xs) + RemotePart(self, ys)
  {
    if xs == [] {
      Empty(ys);
    } else {
      HeadAndTail(xs, ys);
      LocalPartConcat(self, xs[1..], ys);
      var local := if xs[0].dest == self then [xs[0].msg] else [];
      var remote := if xs[0].dest == self then [] else [xs[0]];
      Associative(local, LocalPart(self, xs[1..]), LocalPart(self, ys));
      Associative(remote, RemotePart(self, xs[1..]), RemotePart(self, ys));
    }
  }

  lemma {:induction false} RemotePartIsRemote(self: nat, sends: seq<Send>)
    ensures forall s :: s in RemotePart(self, sends) ==> s.dest != self
  {
    if sends != [] {
      RemotePartIsRemote(self, sends[1..]);
    }
  }
}
