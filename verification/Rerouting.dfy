/**
 * Two routes for the same scripts: where one of them has an index in the table, the other has the same.
 * A run that uses only such indices is a run with either.
 */
module Rerouting {
  import opened Messages
  import opened Links
  import opened Protocol
  import opened Invariant
  import opened InvariantSteps
  import opened Delivery
  import opened DeliverySteps
  import opened CleanStop
  import opened Runs
  import opened Confinement

  /** `c'` has some of the links of `c`, and no others. */
  ghost predicate Fewer(c: Config, c': Config) {
    && c'.scripts == c.scripts
    && forall i: nat, d: nat :: InTable(|c.scripts|, c'.route(i, d)) ==> c'.route(i, d) == c.route(i, d)
  }

  /** Without any link. */
  function Unrouted(c: Config): Config {
    Config(c.scripts, (i: nat, d: nat) => -1)
  }

  /** Everything that has been pushed could have been pushed by the links of `c`. */
  predicate PushedBy(c: Config, s: State) {
    forall i, x :: 0 <= i < |s.threads| && x in s.threads[i].pushed ==> InTable(|c.scripts|, c.route(i, x.dest))
  }

  lemma SameInitial(c: Config, c': Config)
    requires c'.scripts == c.scripts
    ensures Initial(c') == Initial(c)
  {
    assert Initial(c').threads == Initial(c).threads;
  }

  /** Without a flush the route plays no part. */
  lemma SameStep(c: Config, c': Config, s: State, a: Action)
    requires Enabled(s, a) && (a.ThreadMoves? ==> !s.threads[a.i].phase.Flushing?)
    ensures Apply(c', s, a) == Apply(c, s, a)
  {
  }

  /** A flush is the same if the index used is in the table of both, or of neither. */
  lemma SameFlush(c: Config, c': Config, s: State, i: nat, batch: seq<Send>)
    requires Fewer(c, c') && |c.scripts| == |s.threads| && i < |s.threads|
    requires batch != [] && InTable(|s.threads|, c.route(i, batch[0].dest)) ==>
      InTable(|s.threads|, c'.route(i, batch[0].dest))
    ensures FlushStep(c', s, i, batch) == FlushStep(c, s, i, batch)
  {
  }

  // ---------- what has been pushed ----------

  lemma OnlyFlushPushes(c: Config, s: State, i: nat)
    requires ThreadEnabled(s, i) && !s.threads[i].phase.Flushing?
    ensures |ThreadStep(c, s, i).threads| == |s.threads|
    ensures ThreadStep(c, s, i).threads[i].pushed == s.threads[i].pushed
  {
    if s.threads[i].phase.Stopping? {
      StopPushesNone(s, i, s.threads[i].phase.next, s.threads[i].phase.thenFree);
    }
  }

  lemma StopPushesNone(s: State, i: nat, next: nat, thenFree: bool)
    requires i < |s.threads| && s.threads[i].phase == Stopping(next, thenFree)
    ensures |StopStep(s, i, next, thenFree).threads| == |s.threads|
    ensures StopStep(s, i, next, thenFree).threads[i].pushed == s.threads[i].pushed
  {
  }

  /** A flush through a link records what it pushes. */
  lemma FlushPushes(c: Config, s: State, i: nat, batch: seq<Send>)
    requires i < |s.threads| && s.threads[i].phase == Flushing(batch)
    ensures |FlushStep(c, s, i, batch).threads| == |s.threads|
    ensures FlushStep(c, s, i, batch).threads[i].pushed
         == s.threads[i].pushed
          + if batch != [] && InTable(|s.threads|, c.route(i, batch[0].dest)) then [batch[0]] else []
  {
  }

  lemma StepPushesGrow(c: Config, s: State, a: Action)
    requires Enabled(s, a)
    ensures |Apply(c, s, a).threads| == |s.threads|
    ensures forall j :: 0 <= j < |s.threads| ==> s.threads[j].pushed <= Apply(c, s, a).threads[j].pushed
  {
    StepKeepsContexts(c, s, a);
    forall j | 0 <= j < |s.threads|
      ensures s.threads[j].pushed <= Apply(c, s, a).threads[j].pushed
    {
      match a
      case ThreadMoves(i) =>
        if i != j {
          ThreadFrame(c, s, i, j);
        } else if s.threads[i].phase.Flushing? {
          FlushPushes(c, s, i, s.threads[i].phase.batch);
        } else {
          OnlyFlushPushes(c, s, i);
        }
      case AccessorMoves(k) => AccessorFrame(s, k, j);
    }
  }

  lemma {:induction false} RunPushesGrow(c: Config, s: State, run: seq<Action>, s': State)
    requires Reaches(c, s, run, s')
    ensures |s'.threads| == |s.threads|
    ensures forall j :: 0 <= j < |s.threads| ==> s.threads[j].pushed <= s'.threads[j].pushed
    decreases run
  {
    if run != [] {
      StepPushesGrow(c, s, run[0]);
      RunPushesGrow(c, Apply(c, s, run[0]), run[1..], s');
    }
  }

  lemma PushedBefore(c: Config, s: State, s': State)
    requires |s'.threads| == |s.threads| && PushedBy(c, s')
    requires forall j :: 0 <= j < |s.threads| ==> s.threads[j].pushed <= s'.threads[j].pushed
    ensures PushedBy(c, s)
  {
    forall i, x | 0 <= i < |s.threads| && x in s.threads[i].pushed
      ensures InTable(|c.scripts|, c.route(i, x.dest))
    {
      assert x in s'.threads[i].pushed;
    }
  }

  // ---------- from more links to fewer, and back ----------

  lemma StepByFewer(c: Config, c': Config, s: State, a: Action)
    requires Fewer(c, c') && |c.scripts| == |s.threads| && Enabled(s, a) && PushedBy(c', Apply(c, s, a))
    ensures Apply(c', s, a) == Apply(c, s, a)
  {
    if a.ThreadMoves? && s.threads[a.i].phase.Flushing? {
      var batch := s.threads[a.i].phase.batch;
      FlushPushes(c, s, a.i, batch);
      if batch != [] && InTable(|s.threads|, c.route(a.i, batch[0].dest)) {
        assert batch[0] in Apply(c, s, a).threads[a.i].pushed;
      }
      SameFlush(c, c', s, a.i, batch);
    } else {
      SameStep(c, c', s, a);
    }
  }

  /** A run that pushes only through the links of `c'` is a run of `c'`. */
  lemma {:induction false} RunByFewer(c: Config, c': Config, s: State, run: seq<Action>, s': State)
    requires Fewer(c, c') && |c.scripts| == |s.threads| && Reaches(c, s, run, s') && PushedBy(c', s')
    ensures Reaches(c', s, run, s')
    decreases run
  {
    if run != [] {
      var mid := Apply(c, s, run[0]);
      StepKeepsContexts(c, s, run[0]);
      RunPushesGrow(c, mid, run[1..], s');
      PushedBefore(c', mid, s');
      StepByFewer(c, c', s, run[0]);
      RunByFewer(c, c', mid, run[1..], s');
    }
  }

  lemma ReachableByFewer(c: Config, c': Config, s: State)
    requires Fewer(c, c') && Reachable(c, s) && PushedBy(c', s)
    ensures Reachable(c', s)
  {
    var run :| Reaches(c, Initial(c), run, s);
    SameInitial(c, c');
    RunByFewer(c, c', Initial(c), run, s);
  }

  lemma StepByMore(c: Config, c': Config, s: State, a: Action)
    requires Fewer(c, c') && |c.scripts| == |s.threads| && Enabled(s, a) && PushedBy(c', s)
    requires !Apply(c', s, a).fault.BadLink?
    ensures Apply(c, s, a) == Apply(c', s, a) && PushedBy(c', Apply(c', s, a))
  {
    StepKeepsContexts(c', s, a);
    var s' := Apply(c', s, a);
    if a.ThreadMoves? && s.threads[a.i].phase.Flushing? {
      FlushPushes(c', s, a.i, s.threads[a.i].phase.batch);
      SameFlush(c, c', s, a.i, s.threads[a.i].phase.batch);
    } else {
      SameStep(c, c', s, a);
    }
    forall i, x | 0 <= i < |s.threads| && x in s'.threads[i].pushed
      ensures InTable(|c'.scripts|, c'.route(i, x.dest))
    {
      PushedNow(c', s, a, i, x);
    }
  }

  /** What has been pushed was pushed before, or is pushed now through a link. */
  lemma PushedNow(c: Config, s: State, a: Action, i: nat, x: Send)
    requires Enabled(s, a) && i < |s.threads| && |c.scripts| == |s.threads|
    requires |Apply(c, s, a).threads| == |s.threads| && x in Apply(c, s, a).threads[i].pushed
    ensures x in s.threads[i].pushed || InTable(|c.scripts|, c.route(i, x.dest))
  {
    match a
    case ThreadMoves(j) =>
      if i != j {
        ThreadFrame(c, s, j, i);
      } else if s.threads[i].phase.Flushing? {
        FlushPushes(c, s, i, s.threads[i].phase.batch);
      } else {
        OnlyFlushPushes(c, s, i);
      }
    case AccessorMoves(k) => AccessorFrame(s, k, i);
  }

  lemma NoBadLinkBefore(c: Config, s: State, run: seq<Action>, s': State)
    requires Reaches(c, s, run, s') && !s'.fault.BadLink?
    ensures !s.fault.BadLink?
  {
  }

  /** A run of `c'` that never misses the table is a run of `c`, and pushes only through links of `c'`. */
  lemma {:induction false} RunByMore(c: Config, c': Config, s: State, run: seq<Action>, s': State)
    requires Fewer(c, c') && |c.scripts| == |s.threads| && PushedBy(c', s)
    requires Reaches(c', s, run, s') && !s'.fault.BadLink?
    ensures Reaches(c, s, run, s') && PushedBy(c', s')
    decreases run
  {
    if run != [] {
      var mid := Apply(c', s, run[0]);
      StepKeepsContexts(c', s, run[0]);
      NoBadLinkBefore(c', mid, run[1..], s');
      StepByMore(c, c', s, run[0]);
      RunByMore(c, c', mid, run[1..], s');
    }
  }

  lemma ReachableByMore(c: Config, c': Config, s: State)
    requires Fewer(c, c') && Reachable(c', s) && !s.fault.BadLink?
    ensures Reachable(c, s) && PushedBy(c', s)
  {
    var run :| Reaches(c', Initial(c'), run, s);
    SameInitial(c, c');
    RunByMore(c, c', Initial(c'), run, s);
  }

  // ---------- if a set is closed with the fewer links, the others are never used ----------

  lemma ClosedStep(c: Config, c': Config, h: set<nat>, s: State, a: Action)
    requires Fewer(c, c') && |c.scripts| == |s.threads| && History(c', s) && Confined(c', h, s) && Enabled(s, a)
    ensures Apply(c, s, a) == Apply(c', s, a)
  {
    if a.ThreadMoves? && s.threads[a.i].phase.Flushing? {
      var batch := s.threads[a.i].phase.batch;
      assert ThreadHistory(s.threads[a.i]) && ThreadWithin(c', h, a.i, s.threads[a.i]);
      if batch != [] {
        assert batch[0] in batch;
      }
      SameFlush(c, c', s, a.i, batch);
    } else {
      SameStep(c, c', s, a);
    }
  }

  lemma {:induction false} ClosedRun(c: Config, c': Config, h: set<nat>, s: State, run: seq<Action>, s': State)
    requires Fewer(c, c') && |c.scripts| == |s.threads|
    requires Sound(c', s) && History(c', s) && Confined(c', h, s) && Reaches(c, s, run, s')
    ensures Reaches(c', s, run, s')
    decreases run
  {
    if run != [] {
      ClosedStep(c, c', h, s, run[0]);
      StepSound(c', s, run[0]);
      StepKeepsContexts(c', s, run[0]);
      StepHistory(c', s, run[0]);
      StepConfined(c', h, s, run[0]);
      ClosedRun(c, c', h, Apply(c', s, run[0]), run[1..], s');
    }
  }

  lemma ReachableIfClosed(c: Config, c': Config, h: set<nat>, s: State)
    requires Fewer(c, c') && c.scripts != [] && Closed(c', h) && Reachable(c, s)
    ensures Reachable(c', s)
  {
    var run :| Reaches(c, Initial(c), run, s);
    SameInitial(c, c');
    InitialSound(c');
    InitialHistory(c');
    InitialConfined(c', h);
    ClosedRun(c, c', h, Initial(c), run, s);
  }
}
