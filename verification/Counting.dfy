/** How many elements of a sequence pass a test. */
module Counting {
  function Count<T>(xs: seq<T>, f: T -> bool): nat {
    if xs == [] then 0 else Count(xs[..|xs| - 1], f) + if f(xs[|xs| - 1]) then 1 else 0
  }

  lemma {:induction false} CountUpdate<T>(xs: seq<T>, i: nat, x: T, f: T -> bool)
    requires i < |xs|
    ensures Count(xs[i := x], f) == Count(xs, f) + (if f(x) then 1 else 0) - (if f(xs[i]) then 1 else 0)
    ensures Count(xs, f) <= |xs|
  {
    var n := |xs| - 1;
    if i == n {
      assert xs[i := x][..n] == xs[..n];
      if n > 0 {
        CountUpdate(xs[..n], 0, xs[0], f);
      }
    } else {
      assert xs[i := x][..n] == xs[..n][i := x];
      CountUpdate(xs[..n], i, x, f);
    }
  }

  lemma CountAppend<T>(xs: seq<T>, x: T, f: T -> bool)
    ensures Count(xs + [x], f) == Count(xs, f) + if f(x) then 1 else 0
  {
    assert (xs + [x])[..|xs|] == xs;
  }

  lemma {:induction false} NoneCount<T>(xs: seq<T>, f: T -> bool)
    requires forall x :: x in xs ==> !f(x)
    ensures Count(xs, f) == 0
  {
    if xs != [] {
      NoneCount(xs[..|xs| - 1], f);
    }
  }

  lemma {:induction false} AllCount<T>(xs: seq<T>, f: T -> bool)
    requires forall x :: x in xs ==> f(x)
    ensures Count(xs, f) == |xs|
  {
    if xs != [] {
      AllCount(xs[..|xs| - 1], f);
    }
  }

  lemma {:induction false} CountConcat<T>(xs: seq<T>, ys: seq<T>, f: T -> bool)
    ensures Count(xs + ys, f) == Count(xs, f) + Count(ys, f)
  {
    if ys == [] {
      assert xs + ys == xs;
    } else {
      var n := |ys| - 1;
      assert xs + ys == xs + ys[..n] + [ys[n]];
      CountAppend(xs + ys[..n], ys[n], f);
      CountConcat(xs, ys[..n], f);
    }
  }

  lemma CountFirst<T>(xs: seq<T>, f: T -> bool)
    requires xs != []
    ensures Count(xs, f) == Count(xs[1..], f) + if f(xs[0]) then 1 else 0
  {
    assert xs == [xs[0]] + xs[1..];
    CountConcat([xs[0]], xs[1..], f);
    assert [xs[0]][..0] == [];
  }
}
