/** The states that some run of a configuration reaches, and what holds in all of them. */
module Runs {
  import opened Sequences
  import opened Protocol
  import opened Invariant
  import opened InvariantSteps
  import opened Delivery
  import opened DeliverySteps

  ghost predicate Reachable(c: Config, s: State) {
    exists run :: Reaches(c, Initial(c), run, s)
  }

  lemma ReachableIsSound(c: Config, s: State)
    requires c.scripts != [] && Reachable(c, s)
    ensures Sound(c, s) && History(c, s) && |s.threads| == |c.scripts|
  {
    var run :| Reaches(c, Initial(c), run, s);
    InitialSound(c);
    InitialHistory(c);
    RunSound(c, Initial(c), run, s);
    RunHistory(c, Initial(c), run, s);
  }

  lemma {:induction false} ReachesOn(c: Config, s: State, run: seq<Action>, mid: State, more: seq<Action>, s': State)
    requires Reaches(c, s, run, mid) && Reaches(c, mid, more, s')
    ensures Reaches(c, s, run + more, s')
    decreases run
  {
    if run == [] {
      Empty(more);
    } else {
      HeadAndTail(run, more);
      ReachesOn(c, Apply(c, s, run[0]), run[1..], mid, more, s');
    }
  }
}
