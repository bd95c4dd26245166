/** Facts about sequences that the solver does not find quickly by itself. */
module Sequences {

  lemma Associative<T>(xs: seq<T>, ys: seq<T>, zs: seq<T>)
    ensures (xs + ys) + zs == xs + (ys + zs)
  {
  }

  /** Taking the head off a concatenation. */
  lemma HeadAndTail<T>(xs: seq<T>, ys: seq<T>)
    requires xs != []
    ensures (xs + ys)[0] == xs[0] && (xs + ys)[1..] == xs[1..] + ys
  {
  }

  lemma Empty<T>(ys: seq<T>)
    ensures [] + ys == ys && ys + [] == ys
  {
  }

  lemma SingleTail<T>(x: T)
    ensures [x][1..] == [] && [x] + [] == [x]
  {
  }
}
