/** Counting in sequences of table indices, and votes, for the two vote-counting drivers. */
module Bags {

  /** How often x occurs in xs. */
  function Count(xs: seq<nat>, x: nat): (n: nat)
    ensures n > 0 <==> x in xs
  {
    if xs == [] then 0 else Count(xs[..|xs| - 1], x) + (if xs[|xs| - 1] == x then 1 else 0)
  }

  lemma {:induction false} CountAppend(xs: seq<nat>, ys: seq<nat>, x: nat)
    ensures Count(xs + ys, x) == Count(xs, x) + Count(ys, x)
  {
    if ys == [] {
      assert xs + ys == xs;
    } else {
      var init := ys[..|ys| - 1];
      assert (xs + ys)[..|xs + ys| - 1] == xs + init;
      CountAppend(xs, init, x);
    }
  }

  /** Votes with one more vote on each listed index, as often as it is listed. */
  ghost function Plus(votes: seq<int>, ms: seq<nat>): (v: seq<int>)
    ensures |v| == |votes|
  {
    seq(|votes|, x requires 0 <= x < |votes| => votes[x] + Count(ms, x))
  }

  /** Votes with one vote less on each listed index, as often as it is listed. */
  ghost function Minus(votes: seq<int>, ms: seq<nat>): (v: seq<int>)
    ensures |v| == |votes|
  {
    seq(|votes|, x requires 0 <= x < |votes| => votes[x] - Count(ms, x))
  }

  lemma PlusSnoc(votes: seq<int>, init: seq<nat>, m: nat)
    requires m < |votes|
    ensures Plus(votes, init + [m]) == Plus(votes, init)[m := Plus(votes, init)[m] + 1]
    ensures Minus(votes, init + [m]) == Minus(votes, init)[m := Minus(votes, init)[m] - 1]
  {
    assert (init + [m])[..|init|] == init;
  }

  lemma PlusNone(votes: seq<int>)
    ensures Plus(votes, []) == votes && Minus(votes, []) == votes
  {
  }

  lemma PlusMinus(votes: seq<int>, ms: seq<nat>)
    ensures Plus(Minus(votes, ms), ms) == votes && Minus(Plus(votes, ms), ms) == votes
  {
  }

  /** No entry has become smaller. */
  ghost predicate NoLower(a: seq<int>, b: seq<int>) {
    |a| == |b| && forall x :: 0 <= x < |a| ==> a[x] <= b[x]
  }
}
