/**
 * Who may move, and in which order things are done: what a batch holds, where a flush that fails stands,
 * which contexts the Stops have reached, and that an accessor counts before it pushes.
 */
module StepOrder {
  import opened Sums
  import opened Messages
  import opened Links
  import opened Protocol
  import opened Invariant
  import opened InvariantSteps
  import opened Delivery
  import opened CleanStop
  import opened Runs

  /**
   * Settling n > 0 unsent messages makes them the batch, in the order of their destinations and, for
   * each destination, in the order in which they were sent; one count becomes n.
   */
  lemma SettlingSorts(c: Config, s: State, i: nat)
    requires i < |s.threads| && s.threads[i].phase.Draining? && s.threads[i].local == []
    requires s.threads[i].unsent != [] && s.fault.NoFault? && !s.freed
    ensures Enabled(s, ThreadMoves(i))
    ensures var t, s' := s.threads[i], Apply(c, s, ThreadMoves(i));
      && |s'.threads| == |s.threads| && s'.threads[i].phase.Flushing? && s'.threads[i].unsent == []
      && s'.counter == s.counter + |t.unsent| - 1 && |s'.threads[i].phase.batch| == |t.unsent|
      && SortedByDest(s'.threads[i].phase.batch)
      && forall d: nat :: ToDest(s'.threads[i].phase.batch, d) == ToDest(t.unsent, d)
  {
    GroupedIsStableSort(s.threads[i].unsent);
  }

  /** So any sequence that orders them so is the batch. */
  lemma BatchIsTheStableSort(c: Config, s: State, i: nat, sorted: seq<Send>)
    requires i < |s.threads| && s.threads[i].phase.Draining? && s.threads[i].local == []
    requires s.threads[i].unsent != [] && s.fault.NoFault? && !s.freed
    requires SortedByDest(sorted) && forall d: nat :: ToDest(sorted, d) == ToDest(s.threads[i].unsent, d)
    ensures Enabled(s, ThreadMoves(i)) && |Apply(c, s, ThreadMoves(i)).threads| == |s.threads|
    ensures Apply(c, s, ThreadMoves(i)).threads[i].phase == Flushing(sorted)
  {
    SettlingSorts(c, s, i);
    StableSortIsUnique(Apply(c, s, ThreadMoves(i)).threads[i].phase.batch, sorted);
  }

  // ---------- in every reachable state ----------

  predicate BatchSorted(t: Thread) {
    SortedByDest(BatchOf(t.phase))
  }

  predicate AllBatchesSorted(s: State) {
    forall i :: 0 <= i < |s.threads| ==> BatchSorted(s.threads[i])
  }

  lemma OwnBatchSorted(c: Config, s: State, i: nat)
    requires ThreadEnabled(s, i) && BatchSorted(s.threads[i])
    ensures |ThreadStep(c, s, i).threads| == |s.threads|
    ensures BatchSorted(ThreadStep(c, s, i).threads[i])
  {
    if s.threads[i].phase.Draining? {
      GroupedIsStableSort(s.threads[i].unsent);
    }
  }

  lemma StepKeepsSorted(c: Config, s: State, a: Action)
    requires AllBatchesSorted(s) && Enabled(s, a)
    ensures AllBatchesSorted(Apply(c, s, a))
  {
    StepKeepsContexts(c, s, a);
    forall j | 0 <= j < |s.threads|
      ensures BatchSorted(Apply(c, s, a).threads[j])
    {
      match a
      case ThreadMoves(i) =>
        if i == j {
          OwnBatchSorted(c, s, i);
        } else {
          ThreadFrame(c, s, i, j);
        }
      case AccessorMoves(k) => AccessorFrame(s, k, j);
    }
  }

  lemma {:induction false} RunKeepsSorted(c: Config, s: State, run: seq<Action>, s': State)
    requires AllBatchesSorted(s) && Reaches(c, s, run, s')
    ensures AllBatchesSorted(s')
    decreases run
  {
    if run != [] {
      StepKeepsSorted(c, s, run[0]);
      RunKeepsSorted(c, Apply(c, s, run[0]), run[1..], s');
    }
  }

  /** Whatever is being flushed is ordered by destination. */
  lemma BatchesAreSorted(c: Config, s: State, i: nat, batch: seq<Send>)
    requires Reachable(c, s) && i < |s.threads| && s.threads[i].phase == Flushing(batch)
    ensures SortedByDest(batch)
  {
    var run :| Reaches(c, Initial(c), run, s);
    RunKeepsSorted(c, Initial(c), run, s);
    assert BatchSorted(s.threads[i]);
  }

  // ---------- an index outside the table ----------

  /** The thread named by the fault was about to push to the destination named. */
  predicate StuckAt(s: State, i: nat, d: nat) {
    i < |s.threads| && s.threads[i].phase.Flushing? && s.threads[i].phase.batch != []
    && s.threads[i].phase.batch[0].dest == d
  }

  lemma StepStuck(c: Config, s: State, a: Action)
    requires Enabled(s, a)
    ensures var s' := Apply(c, s, a); s'.fault.BadLink? ==> StuckAt(s', s'.fault.sender, s'.fault.dest)
  {
    if a.ThreadMoves? && s.threads[a.i].phase.Stopping? {
      StopNotStuck(s, a.i, s.threads[a.i].phase.next, s.threads[a.i].phase.thenFree);
    }
  }

  lemma StopNotStuck(s: State, i: nat, next: nat, thenFree: bool)
    requires i < |s.threads| && s.fault.NoFault?
    ensures !StopStep(s, i, next, thenFree).fault.BadLink?
  {
  }

  lemma {:induction false} RunStuck(c: Config, s: State, run: seq<Action>, s': State)
    requires s.fault.BadLink? ==> StuckAt(s, s.fault.sender, s.fault.dest)
    requires Reaches(c, s, run, s')
    ensures s'.fault.BadLink? ==> StuckAt(s', s'.fault.sender, s'.fault.dest)
    decreases run
  {
    if run != [] {
      StepStuck(c, s, run[0]);
      RunStuck(c, Apply(c, s, run[0]), run[1..], s');
    }
  }

  /** An index panic happens at the least destination left to flush, and its index is outside the table. */
  lemma PanicsInOrder(c: Config, s: State, i: nat, d: nat)
    requires c.scripts != [] && Reachable(c, s) && s.fault == BadLink(i, d)
    ensures i < |s.threads| && s.threads[i].phase.Flushing? && !InTable(|c.scripts|, c.route(i, d))
    ensures (exists x :: x in s.threads[i].phase.batch && x.dest == d)
    ensures forall x :: x in s.threads[i].phase.batch ==> d <= x.dest
  {
    var run :| Reaches(c, Initial(c), run, s);
    RunStuck(c, Initial(c), run, s);
    ReachableIsSound(c, s);
    var batch := s.threads[i].phase.batch;
    BatchesAreSorted(c, s, i, batch);
    assert batch[0] in batch;
  }

  // ---------- Stops and accessors ----------

  /** Stops go out in the order of the table of links: those before `next` have one, the others none yet. */
  lemma StopsGoInOrder(c: Config, s: State, i: nat, next: nat, thenFree: bool)
    requires c.scripts != [] && Reachable(c, s) && i < |s.threads| && s.threads[i].phase == Stopping(next, thenFree)
    ensures forall k: nat :: InTable(|s.threads|, k) ==>
      LinkTarget(i, k) < |s.threads| &&
      if k < next then Told(s.threads[LinkTarget(i, k)]) else AtRest(s.threads[LinkTarget(i, k)])
  {
    ReachableIsSound(c, s);
    assert !Live(s.threads[i]);
    assert s.last == ByHandler(i, thenFree);
    IntendedLinkInvertsTable(|s.threads|, i);
    forall k: nat | InTable(|s.threads|, k)
      ensures LinkTarget(i, k) < |s.threads|
      ensures if k < next then Told(s.threads[LinkTarget(i, k)]) else AtRest(s.threads[LinkTarget(i, k)])
    {
      assert IntendedLink(i, LinkTarget(i, k)) == k;
    }
  }

  /** Counting a send and pushing it are two steps, in this order, and anything may come between them. */
  lemma AccessorCountsFirst(c: Config, s: State, k: nat)
    requires c.scripts != [] && Reachable(c, s) && s.fault.NoFault?
    requires k < |s.accessors| && s.accessors[k].todo != []
    ensures Enabled(s, AccessorMoves(k))
    ensures var a, s' := s.accessors[k], Apply(c, s, AccessorMoves(k));
      && |s'.accessors| == |s.accessors| && |s'.threads| == |s.threads| && a.dest < |s.threads| && s'.fault.NoFault?
      && if a.stage.Idle?
         then s'.counter == s.counter + 1 && s'.threads == s.threads && s'.accessors[k] == a.(stage := Counted)
         else s'.counter == s.counter && s'.accessors[k].todo == a.todo[1..] && s'.accessors[k].stage.Idle?
              && s'.threads[a.dest].inbox == s.threads[a.dest].inbox + [Event(a.todo[0], Outside(k))]
  {
    ReachableIsSound(c, s);
    assert AccessorShape(|s.threads|, s.accessors[k]);
    StepSound(c, s, AccessorMoves(k));
    SumBound(AccessorTokens, s.accessors, k);
  }

  // ---------- the schedule is free ----------

  /** Somebody may still push to context `i`: another context that has not exited, or a live accessor of it. */
  predicate MayBePushedTo(s: State, i: nat) {
    || (exists j :: 0 <= j < |s.threads| && j != i && !s.threads[j].phase.Exited?)
    || exists k :: 0 <= k < |s.accessors| && s.accessors[k].dest == i && !s.accessors[k].stage.Dropped?
  }

  /**
   * Without a fault every context that has not exited can move, unless it waits for what somebody may
   * still push; and so can every accessor that has not been dropped.
   */
  lemma NobodyIsHeldUp(c: Config, s: State)
    requires c.scripts != [] && Reachable(c, s) && s.fault.NoFault?
    ensures forall i :: 0 <= i < |s.threads| ==>
      var t := s.threads[i];
      Enabled(s, ThreadMoves(i)) <==> !t.phase.Exited? && !(t.phase.Waiting? && t.inbox == [] && MayBePushedTo(s, i))
    ensures forall k :: 0 <= k < |s.accessors| ==>
      (Enabled(s, AccessorMoves(k)) <==> !s.accessors[k].stage.Dropped?)
  {
    ReachableIsSound(c, s);
    forall k | 0 <= k < |s.accessors|
      ensures Enabled(s, AccessorMoves(k)) <==> !s.accessors[k].stage.Dropped?
    {
      assert AccessorShape(|s.threads|, s.accessors[k]);
    }
  }
}
