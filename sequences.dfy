/** Concatenating what a function yields for each element of a sequence. */
module Sequences {
  /** `f(xs[0]) + f(xs[1]) + ...`, built from the back. */
  function FlatMap<T, U>(xs: seq<T>, f: T -> seq<U>): seq<U> {
    if xs == [] then [] else FlatMap(xs[..|xs| - 1], f) + f(xs[|xs| - 1])
  }

  /** One more element appends its part. */
  lemma FlatMapSnoc<T, U>(xs: seq<T>, f: T -> seq<U>, i: nat)
    requires i < |xs|
    ensures FlatMap(xs[..i + 1], f) == FlatMap(xs[..i], f) + f(xs[i])
  {
    assert xs[..i + 1][..i] == xs[..i];
  }

  /** Every part of every element is in the result. */
  lemma {:induction false} FlatMapComplete<T, U>(xs: seq<T>, f: T -> seq<U>, j: nat)
    requires j < |xs|
    ensures forall u :: u in f(xs[j]) ==> u in FlatMap(xs, f)
    decreases |xs|
  {
    var n := |xs| - 1;
    if j < n {
      assert xs[..n][j] == xs[j];
      FlatMapComplete(xs[..n], f, j);
    }
  }

  /** Everything in the result comes from some element. */
  lemma {:induction false} FlatMapSound<T, U>(xs: seq<T>, f: T -> seq<U>)
    ensures forall u :: u in FlatMap(xs, f) ==> exists j :: 0 <= j < |xs| && u in f(xs[j])
    decreases |xs|
  {
    if xs != [] {
      var n := |xs| - 1;
      FlatMapSound(xs[..n], f);
      forall u | u in FlatMap(xs, f) ensures exists j :: 0 <= j < |xs| && u in f(xs[j]) {
        if u in FlatMap(xs[..n], f) {
          var j :| 0 <= j < n && u in f(xs[..n][j]);
          assert xs[..n][j] == xs[j];
        } else {
          assert u in f(xs[n]);
        }
      }
    }
  }

  /** When every element yields at most one part, there are at most as many parts as elements. */
  lemma {:induction false} FlatMapShort<T, U>(xs: seq<T>, f: T -> seq<U>)
    requires forall x :: x in xs ==> |f(x)| <= 1
    ensures |FlatMap(xs, f)| <= |xs|
    decreases |xs|
  {
    if xs != [] {
      var n := |xs| - 1;
      assert forall x :: x in xs[..n] ==> x in xs;
      FlatMapShort(xs[..n], f);
    }
  }
}
