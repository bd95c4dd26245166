/**
 * The runtime as a step machine: N context threads, their queues, the shared counter of unhandled
 * events, and the accessors that other threads own. Every atomic operation and every queue operation
 * is a step of its own; which thread or accessor moves next is the only choice left open.
 */
module Protocol {
  import opened Messages
  import opened Links

  datatype Item =
    | Event(msg: Msg, from: Origin)
    | AccessorDropped
    | Stop

  datatype Origin = Context(id: nat) | Outside(k: nat)

  /** What an actor's initialisation may do: create an accessor, or send a message. */
  datatype InitOp =
    | NewAccessor(dest: nat, todo: seq<Msg>)
    | InitSend(send: Send)

  datatype Phase =
    | Initialising(ops: seq<InitOp>)
    | DrainingInit
    | FreeingOnDetach
    | Waiting
    | Handling(msg: Msg)
    | Draining
    | HandlingDrop
    | Flushing(batch: seq<Send>)
    | Stopping(next: nat, thenFree: bool)
    | FreeingLast
    | Exited

  /**
   * A context's thread and the receiving end of its queue. The last four fields are history: every
   * remote message its handlers produced, every one it pushed, every item it took from its queue, and
   * every message it ran.
   */
  datatype Thread = Thread(
    phase: Phase,
    local: seq<Msg>,
    unsent: seq<Send>,
    inbox: seq<Item>,
    handledAny: bool,
    produced: seq<Send>,
    pushed: seq<Send>,
    received: seq<Item>,
    ran: seq<Msg>)

  datatype Stage = Idle | Counted | Dropped

  /** An accessor with the messages its owner will still send before dropping it; `sent` is history. */
  datatype Accessor = Accessor(dest: nat, todo: seq<Msg>, stage: Stage, sent: seq<Msg>)

  /** Who brought the counter to zero (history). */
  datatype LastDecrement =
    | NotYet
    | ByDetach(id: nat)
    | ByHandler(id: nat, viaDrop: bool)

  /** What would panic or be undefined behaviour in the program. */
  datatype Fault =
    | NoFault
    | BlockUsedAfterFree
    | BlockFreedTwice
    | SendToExited
    | BadLink(sender: nat, dest: nat)
    | BadAccessorContext(dest: nat)
    | ReceiveDisconnected(id: nat)

  datatype State = State(
    threads: seq<Thread>,
    accessors: seq<Accessor>,
    counter: int,
    freed: bool,
    last: LastDecrement,
    fault: Fault)
  {
    function Put(i: nat, t: Thread): State
      requires i < |threads|
    {
      this.(threads := threads[i := t])
    }
  }

  /** One initialisation script a context, and the index each sender uses to reach a destination. */
  datatype Config = Config(scripts: seq<seq<InitOp>>, route: (nat, nat) -> int)

  datatype Action = ThreadMoves(i: nat) | AccessorMoves(k: nat)

  function InitialThread(ops: seq<InitOp>): Thread {
    Thread(Initialising(ops), [], [], [], false, [], [], [], [])
  }

  /** What set-up hands over: nothing has run, and each context holds one count. */
  function Initial(c: Config): State {
    State(seq(|c.scripts|, i requires 0 <= i < |c.scripts| => InitialThread(c.scripts[i])),
          [], |c.scripts|, false, NotYet, NoFault)
  }

  /** The sends of a message, or of an initialisation: local sends and remote sends part ways. */
  function Deliver(i: nat, t: Thread, sends: seq<Send>): Thread {
    t.(local := t.local + LocalPart(i, sends),
       unsent := t.unsent + RemotePart(i, sends),
       produced := t.produced + RemotePart(i, sends))
  }

  function RunMessage(i: nat, t: Thread, m: Msg): Thread {
    Deliver(i, t, m.sends).(ran := t.ran + [m])
  }

  /** The local queue is a stack: the message sent last runs first. */
  function RunLocal(i: nat, t: Thread): Thread
    requires t.local != []
  {
    RunMessage(i, t.(local := t.local[..|t.local| - 1]), t.local[|t.local| - 1])
  }

  function Push(s: State, j: nat, item: Item): State
    requires j < |s.threads|
  {
    var r := s.threads[j];
    if r.phase.Exited? then s.(fault := SendToExited)
    else s.Put(j, r.(inbox := r.inbox + [item]))
  }

  predicate HasLiveAccessor(s: State, i: nat) {
    exists k :: 0 <= k < |s.accessors| && s.accessors[k].dest == i && !s.accessors[k].stage.Dropped?
  }

  /** Nobody is left that could push to context `i`: its receive on an empty queue fails. */
  predicate Disconnected(s: State, i: nat)
    requires i < |s.threads|
  {
    && s.threads[i].inbox == []
    && (forall j :: 0 <= j < |s.threads| && j != i ==> s.threads[j].phase.Exited?)
    && !HasLiveAccessor(s, i)
  }

  predicate ThreadEnabled(s: State, i: nat) {
    && i < |s.threads|
    && !s.threads[i].phase.Exited?
    && (s.threads[i].phase.Waiting? ==> s.threads[i].inbox != [] || Disconnected(s, i))
  }

  function InitStep(s: State, i: nat, ops: seq<InitOp>): State
    requires i < |s.threads|
  {
    var t := s.threads[i];
    if ops == [] then s.Put(i, t.(phase := DrainingInit))
    else
      match ops[0]
      case NewAccessor(dest, todo) =>
        if s.freed then s.(fault := BlockUsedAfterFree)
        else if dest >= |s.threads| then s.(fault := BadAccessorContext(dest))
        else s.Put(i, t.(phase := Initialising(ops[1..])))
             .(counter := s.counter + 1, accessors := s.accessors + [Accessor(dest, todo, Idle, [])])
      case InitSend(send) =>
        s.Put(i, Deliver(i, t, [send]).(phase := Initialising(ops[1..])))
  }

  function DrainInitStep(s: State, i: nat): State
    requires i < |s.threads|
  {
    var t := s.threads[i];
    if t.local != [] then s.Put(i, RunLocal(i, t))
    else if s.freed then s.(fault := BlockUsedAfterFree)
    else if s.counter > 1 then s.Put(i, t.(phase := Waiting)).(counter := s.counter - 1)
    else s.Put(i, t.(phase := FreeingOnDetach)).(counter := s.counter - 1, last := ByDetach(i))
  }

  function ReceiveStep(s: State, i: nat): State
    requires i < |s.threads|
    requires ThreadEnabled(s, i) && s.threads[i].phase.Waiting?
  {
    var t := s.threads[i];
    if t.inbox == [] then s.(fault := ReceiveDisconnected(i))
    else
      var t' := t.(inbox := t.inbox[1..], received := t.received + [t.inbox[0]]);
      match t.inbox[0]
      case Event(m, _) => s.Put(i, t'.(phase := Handling(m), handledAny := true))
      case AccessorDropped => s.Put(i, t'.(phase := HandlingDrop))
      case Stop => s.Put(i, t'.(phase := Exited))
  }

  /** Draining is over: settle the count of the message just handled against what it left to send. */
  function SettleStep(s: State, i: nat): State
    requires i < |s.threads|
  {
    var t := s.threads[i];
    var n := |t.unsent|;
    if s.freed then s.(fault := BlockUsedAfterFree)
    else if n == 0 then
      if s.counter <= 1 then
        s.Put(i, t.(phase := Stopping(0, false))).(counter := s.counter - 1, last := ByHandler(i, false))
      else s.Put(i, t.(phase := Waiting)).(counter := s.counter - 1)
    else
      s.Put(i, t.(phase := Flushing(Grouped(t.unsent)), unsent := [])).(counter := s.counter + n - 1)
  }

  function DropStep(s: State, i: nat): State
    requires i < |s.threads|
  {
    var t := s.threads[i];
    if s.freed then s.(fault := BlockUsedAfterFree)
    else if s.counter <= 1 then
      s.Put(i, t.(phase := Stopping(0, true))).(counter := s.counter - 1, last := ByHandler(i, true))
    else s.Put(i, t.(phase := Waiting)).(counter := s.counter - 1)
  }

  function FlushStep(c: Config, s: State, i: nat, batch: seq<Send>): State
    requires i < |s.threads|
  {
    var t := s.threads[i];
    if batch == [] then s.Put(i, t.(phase := Waiting))
    else
      var index := c.route(i, batch[0].dest);
      if !InTable(|s.threads|, index) then s.(fault := BadLink(i, batch[0].dest))
      else
        var after := if |batch| == 1 then Waiting else Flushing(batch[1..]);
        Push(s.Put(i, t.(phase := after, pushed := t.pushed + [batch[0]])),
             LinkTarget(i, index), Event(batch[0].msg, Context(i)))
  }

  function StopStep(s: State, i: nat, next: nat, thenFree: bool): State
    requires i < |s.threads|
  {
    var t := s.threads[i];
    if next + 1 >= |s.threads| then s.Put(i, t.(phase := if thenFree then FreeingLast else Exited))
    else Push(s.Put(i, t.(phase := Stopping(next + 1, thenFree))), LinkTarget(i, next), Stop)
  }

  function FreeStep(s: State, i: nat, after: Phase): State
    requires i < |s.threads|
  {
    if s.freed then s.(fault := BlockFreedTwice)
    else s.Put(i, s.threads[i].(phase := after)).(freed := true)
  }

  function ThreadStep(c: Config, s: State, i: nat): State
    requires ThreadEnabled(s, i)
  {
    var t := s.threads[i];
    match t.phase
    case Initialising(ops) => InitStep(s, i, ops)
    case DrainingInit => DrainInitStep(s, i)
    case FreeingOnDetach => FreeStep(s, i, Waiting)
    case Waiting => ReceiveStep(s, i)
    case Handling(m) => s.Put(i, RunMessage(i, t, m).(phase := Draining))
    case Draining => if t.local != [] then s.Put(i, RunLocal(i, t)) else SettleStep(s, i)
    case HandlingDrop => DropStep(s, i)
    case Flushing(batch) => FlushStep(c, s, i, batch)
    case Stopping(next, thenFree) => StopStep(s, i, next, thenFree)
    case FreeingLast => FreeStep(s, i, Exited)
    case Exited => s
  }

  predicate AccessorEnabled(s: State, k: nat) {
    k < |s.accessors| && !s.accessors[k].stage.Dropped? && s.accessors[k].dest < |s.threads|
  }

  function HavingSent(a: Accessor): Accessor
    requires a.todo != []
  {
    a.(stage := Idle, todo := a.todo[1..], sent := a.sent + [a.todo[0]])
  }

  /** Sending counts first and pushes second; a dropped accessor pushes a notice and is gone. */
  function AccessorStep(s: State, k: nat): State
    requires AccessorEnabled(s, k)
  {
    var a := s.accessors[k];
    if a.stage.Counted? && a.todo != [] then
      Push(s.(accessors := s.accessors[k := HavingSent(a)]), a.dest, Event(a.todo[0], Outside(k)))
    else if a.todo != [] then
      if s.freed then s.(fault := BlockUsedAfterFree)
      else s.(accessors := s.accessors[k := a.(stage := Counted)], counter := s.counter + 1)
    else
      Push(s.(accessors := s.accessors[k := a.(stage := Dropped)]), a.dest, AccessorDropped)
  }

  predicate Enabled(s: State, a: Action) {
    && s.fault.NoFault?
    && match a
       case ThreadMoves(i) => ThreadEnabled(s, i)
       case AccessorMoves(k) => AccessorEnabled(s, k)
  }

  function Apply(c: Config, s: State, a: Action): State
    requires Enabled(s, a)
  {
    match a
    case ThreadMoves(i) => ThreadStep(c, s, i)
    case AccessorMoves(k) => AccessorStep(s, k)
  }

  /** `s'` is what the actions of `run`, one after the other, make of `s`. */
  predicate Reaches(c: Config, s: State, run: seq<Action>, s': State)
    decreases run
  {
    if run == [] then s' == s
    else Enabled(s, run[0]) && Reaches(c, Apply(c, s, run[0]), run[1..], s')
  }
}
