/**
 * Runs of states in which each state is linked to the next, for the
 * command loops that replay a list of moves.
 */
module Chains {
  /** Every element is linked to the one after it. */
  ghost predicate Chain<S>(xs: seq<S>, link: (S, S) -> bool)
    decreases |xs|
  {
    |xs| <= 1 || (Chain(xs[..|xs| - 1], link) && link(xs[|xs| - 2], xs[|xs| - 1]))
  }

  /** A chain stays one when an element linked to its last is appended. */
  lemma ChainExtend<S>(xs: seq<S>, x: S, link: (S, S) -> bool)
    requires Chain(xs, link) && |xs| > 0 && link(xs[|xs| - 1], x)
    ensures Chain(xs + [x], link)
  {
    assert (xs + [x])[..|xs|] == xs;
  }

  /** Every link of a chain holds between the elements it joins. */
  lemma {:induction false} ChainAt<S>(xs: seq<S>, link: (S, S) -> bool, i: nat)
    requires Chain(xs, link) && i + 1 < |xs|
    ensures link(xs[i], xs[i + 1])
    decreases |xs|
  {
    if i + 2 < |xs| {
      var ys := xs[..|xs| - 1];
      ChainAt(ys, link, i);
      assert ys[i] == xs[i] && ys[i + 1] == xs[i + 1];
    }
  }

  /** When every link raises a measure by at least step, the i-th element lies i steps above the first. */
  lemma {:induction false} ChainRises<S>(xs: seq<S>, link: (S, S) -> bool, at: S -> int, step: nat, i: nat)
    requires Chain(xs, link) && i < |xs|
    requires forall x, y :: link(x, y) ==> at(y) >= at(x) + step
    ensures at(xs[i]) >= at(xs[0]) + step * i
  {
    if i > 0 {
      ChainRises(xs, link, at, step, i - 1);
      ChainAt(xs, link, i - 1);
      assert step * i == step * (i - 1) + step;
    }
  }

  /**
   * When every link raises a measure by at least step and starts at most
   * step below bound, a chain of n elements starts at least (n - 1) steps
   * below bound.
   */
  lemma ChainBound<S>(xs: seq<S>, link: (S, S) -> bool, at: S -> int, step: nat, bound: int)
    requires Chain(xs, link) && |xs| > 1
    requires forall x, y :: link(x, y) ==> at(y) >= at(x) + step && at(x) + step <= bound
    ensures at(xs[0]) + step * (|xs| - 1) <= bound
  {
    var n := |xs|;
    ChainRises(xs, link, at, step, n - 2);
    ChainAt(xs, link, n - 2);
    assert step * (n - 1) == step * (n - 2) + step;
  }
}
