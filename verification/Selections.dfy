/** Filtering a list, kept apart from the programs whose results it describes. */
module Selections {

  /** The elements of `xs` that meet `p`, in order. */
  function Filter<T(!new)>(p: T -> bool, xs: seq<T>): (r: seq<T>)
    ensures |r| <= |xs|
    decreases |xs|
  {
    if xs == [] then []
    else
      var init, last := xs[..|xs| - 1], xs[|xs| - 1];
      if p(last) then Filter(p, init) + [last] else Filter(p, init)
  }

  lemma {:induction false} FilterMembers<T(!new)>(p: T -> bool, xs: seq<T>)
    ensures forall x :: x in Filter(p, xs) <==> x in xs && p(x)
    decreases |xs|
  {
    if xs != [] {
      var init, last := xs[..|xs| - 1], xs[|xs| - 1];
      FilterMembers(p, init);
      assert forall x :: x in xs <==> x in init || x == last;
    }
  }

  lemma FilterAppend<T(!new)>(p: T -> bool, xs: seq<T>, x: T)
    ensures Filter(p, xs + [x]) == if p(x) then Filter(p, xs) + [x] else Filter(p, xs)
  {
    assert (xs + [x])[..|xs|] == xs;
  }

  lemma {:induction false} FilterConcat<T(!new)>(p: T -> bool, xs: seq<T>, ys: seq<T>)
    ensures Filter(p, xs + ys) == Filter(p, xs) + Filter(p, ys)
    decreases |ys|
  {
    if ys == [] {
      assert xs + ys == xs;
    } else {
      var init, last := ys[..|ys| - 1], ys[|ys| - 1];
      assert ys == init + [last];
      FilterConcat(p, xs, init);
      FilterAppend(p, init, last);
      FilterAppend(p, xs + init, last);
      Regroup(xs, init, [last]);
      Regroup(Filter(p, xs), Filter(p, init), [last]);
    }
  }

  lemma Regroup<T>(xs: seq<T>, ys: seq<T>, zs: seq<T>)
    ensures (xs + ys) + zs == xs + (ys + zs)
  {
  }

  lemma FilterPrepend<T(!new)>(p: T -> bool, x: T, xs: seq<T>)
    ensures Filter(p, [x] + xs) == (if p(x) then [x] else []) + Filter(p, xs)
  {
    FilterConcat(p, [x], xs);
    FilterAppend(p, [], x);
    assert [] + [x] == [x];
    assert Filter(p, [x]) == if p(x) then [x] else [];
  }

  /** Only the elements of the list matter. */
  lemma {:induction false} FilterAgree<T(!new)>(p: T -> bool, q: T -> bool, xs: seq<T>)
    requires forall x :: x in xs ==> (p(x) <==> q(x))
    ensures Filter(p, xs) == Filter(q, xs)
    decreases |xs|
  {
    if xs != [] {
      FilterAgree(p, q, xs[..|xs| - 1]);
    }
  }

  /** The positions below `n`, in order. */
  function UpTo(n: nat): (r: seq<nat>)
    ensures |r| == n && forall i :: 0 <= i < n ==> r[i] == i
  {
    seq(n, i => i)
  }

  lemma UpToNext(n: nat)
    ensures UpTo(n + 1) == UpTo(n) + [n]
  {
  }
}
