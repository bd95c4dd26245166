/**
 * When can a detach make the last decrement? Never if every context is the target of an accessor that
 * some initialisation creates; always if none creates any.
 */
module CleanStop {
  import opened Sums
  import opened Messages
  import opened Links
  import opened Protocol
  import opened Invariant
  import opened InvariantSteps

  predicate Creates(ops: seq<InitOp>, target: nat) {
    exists p :: 0 <= p < |ops| && ops[p].NewAccessor? && ops[p].dest == target
  }

  /** Every context is the target of some accessor created during initialisation, by whichever context. */
  predicate EveryContextTargeted(c: Config) {
    forall target :: 0 <= target < |c.scripts| ==> Targeted(c, target)
  }

  predicate Targeted(c: Config, target: nat) {
    exists i :: 0 <= i < |c.scripts| && Creates(c.scripts[i], target)
  }

  predicate Undetached(t: Thread) {
    t.phase.Initialising? || t.phase.DrainingInit?
  }

  predicate WillCreate(s: State, i: nat, target: nat) {
    i < |s.threads| && s.threads[i].phase.Initialising? && Creates(s.threads[i].phase.ops, target)
  }

  /** Accessor `k` still counts: it is alive, or its drop notice waits in the queue of its target. */
  predicate StillCounts(s: State, k: nat, target: nat)
    requires target < |s.threads|
  {
    && k < |s.accessors| && s.accessors[k].dest == target
    && (s.accessors[k].stage.Dropped? ==> AccessorDropped in s.threads[target].inbox)
  }

  ghost predicate Promised(s: State, target: nat)
    requires target < |s.threads|
  {
    Undetached(s.threads[target]) ==>
      (exists i: nat :: WillCreate(s, i, target)) || (exists k: nat :: StillCounts(s, k, target))
  }

  /** Context `target` has not made the last decrement by detaching, and is not going to. */
  ghost predicate Secured(s: State, target: nat) {
    target < |s.threads| && s.last != ByDetach(target) && Promised(s, target)
  }

  lemma {:induction false} NoticeIsToken(inbox: seq<Item>)
    requires AccessorDropped in inbox
    ensures Sum(ItemTokens, inbox) > 0
  {
    if inbox[0] != AccessorDropped {
      NoticeIsToken(inbox[1..]);
    }
  }

  /** A promised context that detaches leaves a token behind. */
  lemma PromiseIsAnotherToken(s: State, target: nat)
    requires Inv(s) && target < |s.threads| && Promised(s, target) && s.threads[target].phase.DrainingInit?
    ensures s.counter > 1
  {
    SumBound(ThreadTokens, s.threads, target);
    if i: nat :| WillCreate(s, i, target) {
      if i < target {
        SumBoundPair(ThreadTokens, s.threads, i, target);
      } else {
        SumBoundPair(ThreadTokens, s.threads, target, i);
      }
    } else {
      var k: nat :| StillCounts(s, k, target);
      if s.accessors[k].stage.Dropped? {
        NoticeIsToken(s.threads[target].inbox);
      } else {
        SumBound(AccessorTokens, s.accessors, k);
      }
    }
  }

  /** To another thread a step at most appends to its queue. */
  predicate OnlyPushedTo(t: Thread, t': Thread) {
    t' == t.(inbox := t'.inbox) && t.inbox <= t'.inbox
  }

  lemma PushFrame(s: State, target: nat, item: Item, j: nat)
    requires target < |s.threads| && j < |s.threads|
    ensures |Push(s, target, item).threads| == |s.threads|
    ensures OnlyPushedTo(s.threads[j], Push(s, target, item).threads[j])
  {
  }

  lemma FlushFrame(c: Config, s: State, i: nat, batch: seq<Send>, j: nat)
    requires i < |s.threads| && s.threads[i].phase == Flushing(batch) && j < |s.threads| && j != i
    ensures |FlushStep(c, s, i, batch).threads| == |s.threads|
    ensures OnlyPushedTo(s.threads[j], FlushStep(c, s, i, batch).threads[j])
  {
    if batch != [] && InTable(|s.threads|, c.route(i, batch[0].dest)) {
      var after := if |batch| == 1 then Waiting else Flushing(batch[1..]);
      var mid := s.Put(i, s.threads[i].(phase := after, pushed := s.threads[i].pushed + [batch[0]]));
      PushFrame(mid, LinkTarget(i, c.route(i, batch[0].dest)), Event(batch[0].msg, Context(i)), j);
    }
  }

  lemma StopFrame(s: State, i: nat, next: nat, thenFree: bool, j: nat)
    requires i < |s.threads| && j < |s.threads| && j != i
    ensures |StopStep(s, i, next, thenFree).threads| == |s.threads|
    ensures OnlyPushedTo(s.threads[j], StopStep(s, i, next, thenFree).threads[j])
  {
    if next + 1 < |s.threads| {
      PushFrame(s.Put(i, s.threads[i].(phase := Stopping(next + 1, thenFree))), LinkTarget(i, next), Stop, j);
    }
  }

  lemma ThreadFrame(c: Config, s: State, i: nat, j: nat)
    requires ThreadEnabled(s, i) && j < |s.threads| && j != i
    ensures |ThreadStep(c, s, i).threads| == |s.threads|
    ensures OnlyPushedTo(s.threads[j], ThreadStep(c, s, i).threads[j])
  {
    match s.threads[i].phase
    case Flushing(batch) => FlushFrame(c, s, i, batch, j);
    case Stopping(next, thenFree) => StopFrame(s, i, next, thenFree, j);
    case Initialising(_) | DrainingInit | FreeingOnDetach | Waiting
       | Handling(_) | Draining | HandlingDrop | FreeingLast =>
      assert ThreadStep(c, s, i).threads[j] == s.threads[j];
  }

  lemma AccessorsFrame(c: Config, s: State, i: nat)
    requires ThreadEnabled(s, i)
    ensures s.accessors <= ThreadStep(c, s, i).accessors
  {
  }

  lemma OwnFrame(c: Config, s: State, i: nat)
    requires ThreadEnabled(s, i)
    ensures |ThreadStep(c, s, i).threads| == |s.threads|
    ensures Undetached(ThreadStep(c, s, i).threads[i]) ==>
      Undetached(s.threads[i]) && ThreadStep(c, s, i).threads[i].inbox == s.threads[i].inbox
  {
    match s.threads[i].phase
    case Flushing(batch) =>
    case Stopping(next, thenFree) =>
    case _ =>
  }

  lemma AccessorFrame(s: State, k: nat, j: nat)
    requires AccessorEnabled(s, k) && j < |s.threads|
    ensures |AccessorStep(s, k).threads| == |s.threads|
    ensures OnlyPushedTo(s.threads[j], AccessorStep(s, k).threads[j])
  {
  }

  lemma CreatorKept(c: Config, s: State, i: nat, target: nat)
    requires ThreadEnabled(s, i) && target < |s.threads| && WillCreate(s, i, target)
    requires ThreadStep(c, s, i).fault.NoFault?
    ensures |ThreadStep(c, s, i).threads| == |s.threads|
    ensures WillCreate(ThreadStep(c, s, i), i, target) || StillCounts(ThreadStep(c, s, i), |s.accessors|, target)
  {
    var ops := s.threads[i].phase.ops;
    var p :| 0 <= p < |ops| && ops[p].NewAccessor? && ops[p].dest == target;
    var s' := InitStep(s, i, ops);
    if p > 0 {
      assert ops[1..][p - 1] == ops[p];
      assert Creates(s'.threads[i].phase.ops, target);
    }
  }

  lemma CreatorLeftAlone(c: Config, s: State, a: Action, i: nat, target: nat)
    requires Enabled(s, a) && a != ThreadMoves(i) && target < |s.threads| && WillCreate(s, i, target)
    ensures |Apply(c, s, a).threads| == |s.threads|
    ensures WillCreate(Apply(c, s, a), i, target)
  {
    match a
    case ThreadMoves(j) => ThreadFrame(c, s, j, i);
    case AccessorMoves(k) => AccessorFrame(s, k, i);
  }

  lemma TargetInboxGrows(c: Config, s: State, a: Action, target: nat)
    requires Enabled(s, a) && target < |s.threads|
    ensures |Apply(c, s, a).threads| == |s.threads|
    ensures Undetached(Apply(c, s, a).threads[target]) ==>
      Undetached(s.threads[target]) && s.threads[target].inbox <= Apply(c, s, a).threads[target].inbox
  {
    match a
    case ThreadMoves(i) =>
      if i == target {
        OwnFrame(c, s, i);
      } else {
        ThreadFrame(c, s, i, target);
      }
    case AccessorMoves(k) => AccessorFrame(s, k, target);
  }

  lemma HolderKept(c: Config, s: State, a: Action, k: nat, target: nat)
    requires Enabled(s, a) && target < |s.threads| && StillCounts(s, k, target)
    requires Apply(c, s, a).fault.NoFault?
    ensures |Apply(c, s, a).threads| == |s.threads|
    ensures Undetached(Apply(c, s, a).threads[target]) ==> StillCounts(Apply(c, s, a), k, target)
  {
    TargetInboxGrows(c, s, a, target);
    if a.ThreadMoves? {
      AccessorsFrame(c, s, a.i);
    }
  }

  lemma PromiseKept(c: Config, s: State, a: Action, target: nat)
    requires Enabled(s, a) && target < |s.threads| && Promised(s, target)
    requires Apply(c, s, a).fault.NoFault?
    ensures |Apply(c, s, a).threads| == |s.threads|
    ensures Promised(Apply(c, s, a), target)
  {
    StepKeepsContexts(c, s, a);
    var s' := Apply(c, s, a);
    if Undetached(s'.threads[target]) {
      TargetInboxGrows(c, s, a, target);
      if i: nat :| WillCreate(s, i, target) {
        if a == ThreadMoves(i) {
          CreatorKept(c, s, i, target);
        } else {
          CreatorLeftAlone(c, s, a, i, target);
        }
      } else {
        var k: nat :| StillCounts(s, k, target);
        HolderKept(c, s, a, k, target);
      }
    }
  }

  lemma LastIsNotDetach(c: Config, s: State, a: Action, target: nat)
    requires Sound(c, s) && Secured(s, target) && Enabled(s, a)
    ensures Apply(c, s, a).last != ByDetach(target)
  {
    if a == ThreadMoves(target) && s.threads[target].phase.DrainingInit? {
      PromiseIsAnotherToken(s, target);
    } else {
      OthersLeaveLast(c, s, a, target);
    }
  }

  /** Only a thread that is draining its first messages can detach. */
  lemma OthersLeaveLast(c: Config, s: State, a: Action, target: nat)
    requires Enabled(s, a) && target < |s.threads| && s.last != ByDetach(target)
    requires a != ThreadMoves(target) || !s.threads[target].phase.DrainingInit?
    ensures Apply(c, s, a).last != ByDetach(target)
  {
  }

  lemma FaultEndsRun(c: Config, s: State, run: seq<Action>, s': State)
    requires Reaches(c, s, run, s') && !s.fault.NoFault?
    ensures s' == s
  {
  }

  lemma {:induction false} RunSecured(c: Config, s: State, run: seq<Action>, s': State, target: nat)
    requires Sound(c, s) && Secured(s, target) && Reaches(c, s, run, s')
    ensures s'.last != ByDetach(target)
    decreases run
  {
    if run != [] {
      var mid := Apply(c, s, run[0]);
      StepSound(c, s, run[0]);
      StepKeepsContexts(c, s, run[0]);
      LastIsNotDetach(c, s, run[0], target);
      if mid.fault.NoFault? {
        PromiseKept(c, s, run[0], target);
        RunSecured(c, mid, run[1..], s', target);
      } else {
        FaultEndsRun(c, mid, run[1..], s');
      }
    }
  }

  lemma InitialSecured(c: Config, target: nat)
    requires target < |c.scripts| && Targeted(c, target)
    ensures Secured(Initial(c), target)
  {
    var i: nat :| 0 <= i < |c.scripts| && Creates(c.scripts[i], target);
    assert WillCreate(Initial(c), i, target);
  }

  // ---------- without any accessor ----------

  predicate NoAccessorOps(ops: seq<InitOp>) {
    forall p :: 0 <= p < |ops| ==> ops[p].InitSend?
  }

  predicate CreatesNoAccessor(c: Config) {
    forall i :: 0 <= i < |c.scripts| ==> NoAccessorOps(c.scripts[i])
  }

  predicate Untouched(t: Thread) {
    && t.inbox == []
    && match t.phase
       case Initialising(ops) => NoAccessorOps(ops)
       case DrainingInit | FreeingOnDetach | Waiting => true
       case _ => false
  }

  /** Nothing ever arrives anywhere, so nobody gets past waiting. */
  predicate Silent(s: State) {
    && s.accessors == [] && !s.last.ByHandler?
    && forall i :: 0 <= i < |s.threads| ==> Untouched(s.threads[i])
  }

  lemma SilentStep(c: Config, s: State, a: Action)
    requires Silent(s) && Enabled(s, a)
    ensures Silent(Apply(c, s, a))
    ensures NoIndexFault(Apply(c, s, a).fault)
  {
    assert a.ThreadMoves?;
    assert Untouched(s.threads[a.i]);
  }

  predicate NoIndexFault(f: Fault) {
    !f.BadLink? && !f.BadAccessorContext?
  }

  lemma {:induction false} RunSilent(c: Config, s: State, run: seq<Action>, s': State)
    requires Silent(s) && NoIndexFault(s.fault) && Reaches(c, s, run, s')
    ensures Silent(s') && NoIndexFault(s'.fault)
    decreases run
  {
    if run != [] {
      SilentStep(c, s, run[0]);
      RunSilent(c, Apply(c, s, run[0]), run[1..], s');
    }
  }
}
