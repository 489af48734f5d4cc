/** Left folds over event sequences, and when the order of the events does not matter.
    Rounds process results in thread-completion order, so every order-independence
    theorem of the model goes through `FoldPermutation`. */
module Permutations {

  function Fold<S, E>(step: (S, E) -> S, s: S, es: seq<E>): S
    decreases |es|
  {
    if es == [] then s else Fold(step, step(s, es[0]), es[1..])
  }

  ghost predicate Commutes<S(!new), E(!new)>(step: (S, E) -> S) {
    forall s, a, b :: step(step(s, a), b) == step(step(s, b), a)
  }

  lemma {:induction false} FoldConcat<S, E>(step: (S, E) -> S, s: S, xs: seq<E>, ys: seq<E>)
    ensures Fold(step, s, xs + ys) == Fold(step, Fold(step, s, xs), ys)
    decreases |xs|
  {
    if xs == [] {
      assert xs + ys == ys;
    } else {
      assert (xs + ys)[1..] == xs[1..] + ys;
      FoldConcat(step, step(s, xs[0]), xs[1..], ys);
    }
  }

  /** An event may be pulled to the front of a commuting fold. */
  lemma {:induction false} PullToFront<S(!new), E(!new)>(step: (S, E) -> S, s: S, es: seq<E>, k: nat)
    requires Commutes(step)
    requires k < |es|
    ensures Fold(step, s, es) == Fold(step, step(s, es[k]), es[..k] + es[k + 1..])
    decreases k
  {
    var rest := es[..k] + es[k + 1..];
    if k == 0 {
      assert rest == es[1..];
    } else {
      PullToFront(step, step(s, es[0]), es[1..], k - 1);
      assert es[1..][..k - 1] + es[1..][k..] == rest[1..];
      assert step(step(s, es[0]), es[k]) == step(step(s, es[k]), es[0]);
      assert rest[0] == es[0];
    }
  }

  /** A commuting fold gives the same result on every permutation of its events. */
  lemma {:induction false} FoldPermutation<S(!new), E(!new)>(step: (S, E) -> S, s: S, xs: seq<E>, ys: seq<E>)
    requires Commutes(step)
    requires multiset(xs) == multiset(ys)
    ensures Fold(step, s, xs) == Fold(step, s, ys)
    decreases |xs|
  {
    if xs == [] {
      assert |multiset(ys)| == 0;
    } else {
      var k := IndexOf(ys, xs[0]);
      RemoveSame(xs, ys, k);
      FoldPermutation(step, step(s, xs[0]), xs[1..], ys[..k] + ys[k + 1..]);
      PullToFront(step, s, ys, k);
    }
  }

  lemma RemoveOne<E>(es: seq<E>, k: nat)
    requires k < |es|
    ensures multiset(es[..k] + es[k + 1..]) == multiset(es) - multiset{es[k]}
  {
    assert es == es[..k] + [es[k]] + es[k + 1..];
  }

  function Flatten<E>(ess: seq<seq<E>>): (r: seq<E>) {
    if ess == [] then [] else ess[0] + Flatten(ess[1..])
  }

  /** Moving one block of a concatenation to the front keeps its multiset of elements. */
  lemma {:induction false} FlattenRemove<E>(ess: seq<seq<E>>, k: nat)
    requires k < |ess|
    ensures multiset(Flatten(ess)) == multiset(ess[k]) + multiset(Flatten(ess[..k] + ess[k + 1..]))
    decreases k
  {
    var rest := ess[..k] + ess[k + 1..];
    if k == 0 {
      assert rest == ess[1..];
    } else {
      FlattenRemove(ess[1..], k - 1);
      assert ess[1..][..k - 1] + ess[1..][k..] == rest[1..];
      assert rest[0] == ess[0];
    }
  }

  lemma {:induction false} FlattenPermutation<E>(xss: seq<seq<E>>, yss: seq<seq<E>>)
    requires multiset(xss) == multiset(yss)
    ensures multiset(Flatten(xss)) == multiset(Flatten(yss))
    decreases |xss|
  {
    if xss == [] {
      assert |multiset(yss)| == 0;
    } else {
      var k := IndexOf(yss, xss[0]);
      RemoveSame(xss, yss, k);
      FlattenPermutation(xss[1..], yss[..k] + yss[k + 1..]);
      FlattenRemove(yss, k);
    }
  }

  lemma IndexOf<E>(es: seq<E>, e: E) returns (k: nat)
    requires e in multiset(es)
    ensures k < |es| && es[k] == e
  {
    k :| 0 <= k < |es| && es[k] == e;
  }

  /** Dropping the first event on one side and its twin on the other keeps a permutation. */
  lemma RemoveSame<E>(xs: seq<E>, ys: seq<E>, k: nat)
    requires multiset(xs) == multiset(ys) && xs != [] && k < |ys| && ys[k] == xs[0]
    ensures multiset(xs[1..]) == multiset(ys[..k] + ys[k + 1..])
  {
    RemoveOne(xs, 0);
    RemoveOne(ys, k);
    assert xs[..0] + xs[0 + 1..] == xs[1..];
  }

  function Map<A, B>(f: A -> B, xs: seq<A>): (r: seq<B>)
    ensures |r| == |xs|
  {
    if xs == [] then [] else Map(f, xs[..|xs| - 1]) + [f(xs[|xs| - 1])]
  }

  lemma MapAppend<A, B>(f: A -> B, xs: seq<A>, x: A)
    ensures Map(f, xs + [x]) == Map(f, xs) + [f(x)]
  {
    assert (xs + [x])[..|xs|] == xs;
  }

  /** Taking one element out of a list takes its image out of the image. */
  lemma {:induction false} MapRemove<A, B>(f: A -> B, xs: seq<A>, k: nat)
    requires k < |xs|
    ensures multiset(Map(f, xs)) == multiset(Map(f, xs[..k] + xs[k + 1..])) + multiset{f(xs[k])}
    decreases |xs|
  {
    var init, last := xs[..|xs| - 1], xs[|xs| - 1];
    MapLast(f, xs);
    if k == |xs| - 1 {
      assert xs[..k] + xs[k + 1..] == init;
    } else {
      var rest := init[..k] + init[k + 1..];
      MapRemove(f, init, k);
      assert xs[..k] + xs[k + 1..] == rest + [last];
      MapAppend(f, rest, last);
      assert multiset(Map(f, rest) + [f(last)]) == multiset(Map(f, rest)) + multiset{f(last)};
    }
  }

  lemma MapLast<A, B>(f: A -> B, xs: seq<A>)
    requires xs != []
    ensures multiset(Map(f, xs)) == multiset(Map(f, xs[..|xs| - 1])) + multiset{f(xs[|xs| - 1])}
  {
  }

  lemma {:induction false} MapAt<A, B>(f: A -> B, xs: seq<A>, i: nat)
    requires i < |xs|
    ensures Map(f, xs)[i] == f(xs[i])
    decreases |xs|
  {
    var n := |xs| - 1;
    if i < n {
      MapAt(f, xs[..n], i);
    }
  }

  lemma MapTail<A, B>(f: A -> B, xs: seq<A>)
    requires xs != []
    ensures multiset(Map(f, xs)) == multiset(Map(f, xs[1..])) + multiset{f(xs[0])}
  {
    var ys, zs := Map(f, xs), Map(f, xs[1..]);
    MapAt(f, xs, 0);
    forall i | 0 <= i < |zs|
      ensures zs[i] == ys[i + 1]
    {
      MapAt(f, xs[1..], i);
      MapAt(f, xs, i + 1);
    }
    assert ys == [f(xs[0])] + zs;
  }

  lemma {:induction false} MapPermutation<A, B>(f: A -> B, xs: seq<A>, ys: seq<A>)
    requires multiset(xs) == multiset(ys)
    ensures multiset(Map(f, xs)) == multiset(Map(f, ys))
    decreases |xs|
  {
    if xs == [] {
      assert |multiset(ys)| == 0;
    } else {
      var k := IndexOf(ys, xs[0]);
      var rest := ys[..k] + ys[k + 1..];
      RemoveSame(xs, ys, k);
      MapPermutation(f, xs[1..], rest);
      MapRemove(f, ys, k);
      MapTail(f, xs);
    }
  }
}
