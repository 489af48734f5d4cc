/** The online mean/variance accumulator of normalization.py, and the closed forms it computes.

    Arithmetic is over `real`: rounding, NaN and infinities are not part of the model. */
module Welford {
  import opened Permutations

  /** The three numbers a `_Welford` accumulator holds. */
  datatype Stats = Stats(n: nat, mean: real, m2: real) {
    function Variance(): (r: real) {
      if n > 0 then m2 / n as real else 0.0
    }
  }

  const EMPTY: Stats := Stats(0, 0.0, 0.0)

  /** The accumulator after one more sample. */
  function Absorb(s: Stats, x: real): Stats {
    var n := s.n + 1;
    var delta := x - s.mean;
    var mean := s.mean + delta / n as real;
    Stats(n, mean, s.m2 + delta * (x - mean))
  }

  /** The accumulator after a whole sample history, oldest first. */
  function StatsOf(xs: seq<real>): (s: Stats)
    ensures s.n == |xs|
  {
    if xs == [] then EMPTY else Absorb(StatsOf(xs[..|xs| - 1]), xs[|xs| - 1])
  }

  class Accumulator {
    var n: nat
    var mean: real
    var m2: real

    constructor (s: Stats)
      ensures View() == s
    {
      n, mean, m2 := s.n, s.mean, s.m2;
    }

    function View(): (s: Stats)
      reads this
    {
      Stats(n, mean, m2)
    }

    method Update(x: real)
      modifies this
      ensures View() == Absorb(old(View()), x)
    {
      n := n + 1;
      var delta := x - mean;
      mean := mean + delta / n as real;
      var delta2 := x - mean;
      m2 := m2 + delta * delta2;
    }
  }

  // ---- power sums: what an accumulator is exact about ---------------------

  /** Count, total and total of squares of a history. */
  datatype Moments = Moments(n: nat, s: real, q: real)

  function Add(m: Moments, x: real): Moments {
    Moments(m.n + 1, m.s + x, m.q + x * x)
  }

  function MomentsOf(xs: seq<real>): Moments {
    if xs == [] then Moments(0, 0.0, 0.0) else Add(MomentsOf(xs[..|xs| - 1]), xs[|xs| - 1])
  }

  /** The accumulator holds exactly the mean and the spread of the power sums. */
  ghost predicate Exact(s: Stats, m: Moments) {
    && s.n == m.n
    && s.n as real * s.mean == m.s
    && s.m2 == m.q - s.mean * m.s
  }

  lemma DivideExactly(a: real, b: real, c: real)
    requires b != 0.0 && a == b * c
    ensures a / b == c
  {
  }

  lemma CancelFactor(k: real, a: real, b: real)
    requires k != 0.0 && k * a == k * b
    ensures a == b
  {
    DivideExactly(k * a, k, a);
    DivideExactly(k * b, k, b);
  }

  function Times(a: real, b: real): real {
    a * b
  }

  lemma TimesSign(a: real, b: real)
    ensures a > 0.0 && b > 0.0 ==> Times(a, b) > 0.0
    ensures a < 0.0 && b < 0.0 ==> Times(a, b) > 0.0
    ensures a == 0.0 || b == 0.0 ==> Times(a, b) == 0.0
  {
  }

  ghost function Square(d: real): real {
    Times(d, d)
  }

  lemma SquareSign(d: real)
    ensures Square(d) >= 0.0
    ensures Square(d) == 0.0 <==> d == 0.0
  {
    TimesSign(d, d);
  }

  lemma ProductNonNegative(a: real, b: real)
    requires a >= 0.0 && b >= 0.0
    ensures a * b >= 0.0
  {
  }

  /** An update moves the mean by `e` and grows M2 by a non-negative amount. */
  lemma OneUpdate(s: Stats, x: real, k: real, e: real)
    requires k == s.n as real && x - s.mean == (k + 1.0) * e
    ensures Absorb(s, x) == Stats(s.n + 1, s.mean + e, s.m2 + ((k + 1.0) * e) * (k * e))
  {
    DivideExactly(x - s.mean, k + 1.0, e);
    assert x - (s.mean + e) == k * e;
  }

  lemma UpdateIdentity(k: real, m: real, e: real, m2: real)
    ensures (k + 1.0) * (m + e) == k * m + (m + (k + 1.0) * e)
    ensures m2 + ((k + 1.0) * e) * (k * e)
         == (m2 + m * (k * m)) + (m + (k + 1.0) * e) * (m + (k + 1.0) * e) - (m + e) * (k * m + (m + (k + 1.0) * e))
  {
  }

  lemma ExactUpdate(s: Stats, m: Moments, x: real, t: Stats, e: real)
    requires Exact(s, m) && x == s.mean + (s.n as real + 1.0) * e
    requires t == Stats(s.n + 1, s.mean + e, s.m2 + ((s.n as real + 1.0) * e) * (s.n as real * e))
    ensures Exact(t, Add(m, x))
  {
    UpdateIdentity(s.n as real, s.mean, e, s.m2);
  }

  lemma ExactStep(s: Stats, m: Moments, x: real)
    requires Exact(s, m)
    ensures Exact(Absorb(s, x), Add(m, x))
  {
    var e := (x - s.mean) / (s.n as real + 1.0);
    OneUpdate(s, x, s.n as real, e);
    ExactUpdate(s, m, x, Absorb(s, x), e);
  }

  /** The accumulator after any history is exact, although no sample is ever revisited. */
  lemma {:induction false} ExactAfter(xs: seq<real>)
    ensures Exact(StatsOf(xs), MomentsOf(xs))
  {
    if xs != [] {
      ExactAfter(xs[..|xs| - 1]);
      ExactStep(StatsOf(xs[..|xs| - 1]), MomentsOf(xs[..|xs| - 1]), xs[|xs| - 1]);
    }
  }

  /** The power sums determine a non-empty accumulator. */
  lemma ExactUnique(s: Stats, t: Stats, m: Moments)
    requires Exact(s, m) && Exact(t, m) && m.n > 0
    ensures s == t
  {
    CancelFactor(m.n as real, s.mean, t.mean);
  }

  // ---- the textbook meaning ------------------------------------------------

  ghost function Sum(xs: seq<real>): real {
    if xs == [] then 0.0 else Sum(xs[..|xs| - 1]) + xs[|xs| - 1]
  }

  ghost function AddDeviation(p: real, x: real, c: real): real {
    p + Square(x - c)
  }

  /** Sum of squared deviations from `c`. */
  ghost function SquaredDeviations(xs: seq<real>, c: real): real {
    if xs == [] then 0.0 else AddDeviation(SquaredDeviations(xs[..|xs| - 1], c), xs[|xs| - 1], c)
  }

  ghost predicate Expanded(p: real, m: Moments, c: real) {
    p == m.q - 2.0 * (c * m.s) + m.n as real * (c * c)
  }

  lemma ExpandIdentity(q: real, s: real, k: real, c: real, x: real)
    ensures q - 2.0 * (c * s) + k * (c * c) + (x - c) * (x - c)
         == (q + x * x) - 2.0 * (c * (s + x)) + (k + 1.0) * (c * c)
  {
  }

  lemma ExpandStep(p: real, m: Moments, c: real, x: real)
    requires Expanded(p, m, c)
    ensures Expanded(AddDeviation(p, x, c), Add(m, x), c)
  {
    ExpandIdentity(m.q, m.s, m.n as real, c, x);
  }

  lemma {:induction false} ExpandDeviations(xs: seq<real>, c: real)
    ensures Expanded(SquaredDeviations(xs, c), MomentsOf(xs), c)
    decreases |xs|
  {
    if xs == [] {
      assert c * 0.0 == 0.0;
    } else {
      ExpandDeviations(xs[..|xs| - 1], c);
      ExpandStep(SquaredDeviations(xs[..|xs| - 1], c), MomentsOf(xs[..|xs| - 1]), c, xs[|xs| - 1]);
    }
  }

  lemma {:induction false} MomentsAreSums(xs: seq<real>)
    ensures MomentsOf(xs).n == |xs| && MomentsOf(xs).s == Sum(xs)
  {
    if xs != [] {
      MomentsAreSums(xs[..|xs| - 1]);
    }
  }

  lemma MeaningOfExact(s: Stats, m: Moments, p: real)
    requires Exact(s, m) && Expanded(p, m, s.mean)
    ensures s.m2 == p
  {
    var k, c := s.n as real, s.mean;
    assert c * (k * c) == k * (c * c);
  }

  /** An exact accumulator holds the mean and the sum of squared deviations from it. */
  lemma WelfordMeaning(xs: seq<real>, s: Stats)
    requires Exact(s, MomentsOf(xs))
    ensures s.n == |xs|
    ensures s.n as real * s.mean == Sum(xs)
    ensures s.m2 == SquaredDeviations(xs, s.mean)
  {
    MomentsAreSums(xs);
    ExpandDeviations(xs, s.mean);
    MeaningOfExact(s, MomentsOf(xs), SquaredDeviations(xs, s.mean));
  }

  lemma ZeroSum(p: real, x: real, c: real)
    requires p >= 0.0
    ensures AddDeviation(p, x, c) >= 0.0
    ensures AddDeviation(p, x, c) == 0.0 <==> p == 0.0 && x == c
  {
    SquareSign(x - c);
  }

  lemma {:induction false} DeviationsZero(xs: seq<real>, c: real)
    ensures SquaredDeviations(xs, c) >= 0.0
    ensures SquaredDeviations(xs, c) == 0.0 <==> forall i :: 0 <= i < |xs| ==> xs[i] == c
    decreases |xs|
  {
    if xs != [] {
      var ys, x := xs[..|xs| - 1], xs[|xs| - 1];
      DeviationsZero(ys, c);
      ZeroSum(SquaredDeviations(ys, c), x, c);
      assert forall i :: 0 <= i < |ys| ==> ys[i] == xs[i];
    }
  }

  lemma {:induction false} MomentsOfConstant(xs: seq<real>, c: real)
    requires forall i :: 0 <= i < |xs| ==> xs[i] == c
    ensures MomentsOf(xs).n == |xs| && MomentsOf(xs).s == |xs| as real * c
    decreases |xs|
  {
    if xs != [] {
      MomentsOfConstant(xs[..|xs| - 1], c);
      var k := |xs[..|xs| - 1]| as real;
      assert (k + 1.0) * c == k * c + c;
    }
  }

  /** M2 is never negative, and it is zero exactly when all samples are equal. */
  lemma SpreadZeroIffConstant(xs: seq<real>, s: Stats)
    requires Exact(s, MomentsOf(xs))
    ensures s.m2 >= 0.0
    ensures s.m2 == 0.0 <==> forall i, j :: 0 <= i < |xs| && 0 <= j < |xs| ==> xs[i] == xs[j]
  {
    WelfordMeaning(xs, s);
    DeviationsZero(xs, s.mean);
    if xs != [] && forall i, j :: 0 <= i < |xs| && 0 <= j < |xs| ==> xs[i] == xs[j] {
      MomentsOfConstant(xs, xs[0]);
      CancelFactor(|xs| as real, s.mean, xs[0]);
    }
  }

  // ---- outliers -----------------------------------------------------------

  /** Taking one sample out of a history takes it out of the power sums. */
  lemma {:induction false} WithoutSample(xs: seq<real>, i: nat)
    requires i < |xs|
    ensures MomentsOf(xs) == Add(MomentsOf(xs[..i] + xs[i + 1..]), xs[i])
    decreases |xs|
  {
    var rest := xs[..i] + xs[i + 1..];
    var ys, last := xs[..|xs| - 1], xs[|xs| - 1];
    if i == |xs| - 1 {
      assert rest == ys;
    } else {
      WithoutSample(ys, i);
      var rest' := ys[..i] + ys[i + 1..];
      assert rest == rest' + [last];
      MomentsOfAppend(rest', last);
      AddCommutes(MomentsOf(rest'), xs[i], last);
    }
  }

  lemma MomentsOfAppend(ys: seq<real>, x: real)
    ensures MomentsOf(ys + [x]) == Add(MomentsOf(ys), x)
  {
    assert (ys + [x])[..|ys|] == ys;
  }

  lemma AddCommutes(m: Moments, x: real, y: real)
    ensures Add(Add(m, x), y) == Add(Add(m, y), x)
  {
  }

  /** Cauchy-Schwarz for power sums. */
  ghost predicate Spread(m: Moments) {
    m.s * m.s <= m.n as real * m.q
  }

  lemma SquareOfTotal(s: Stats, m: Moments)
    requires Exact(s, m) && s.m2 >= 0.0
    ensures Spread(m)
  {
    var k := m.n as real;
    ProductNonNegative(k, s.m2);
    assert k * (m.q - s.mean * m.s) == k * m.q - (k * s.mean) * m.s;
  }

  lemma SamuelsonArithmetic(k: real, s: real, q: real, x: real, m: real)
    requires s * s <= k * q
    requires (k + 1.0) * m == s + x
    ensures (k + 1.0) * ((x - m) * (x - m)) <= k * ((q + x * x) - m * (s + x))
  {
    SamuelsonIdentity(k, m, x, q);
  }

  lemma SamuelsonIdentity(k: real, m: real, x: real, q: real)
    ensures k * ((q + x * x) - m * ((k + 1.0) * m)) - (k + 1.0) * ((x - m) * (x - m))
         == k * q - ((k + 1.0) * m - x) * ((k + 1.0) * m - x)
  {
  }

  /** `x` is at most sqrt(n - 1) standard deviations away from the mean. */
  ghost predicate WithinReach(s: Stats, x: real) {
    s.n as real * ((x - s.mean) * (x - s.mean)) <= (s.n - 1) as real * s.m2
  }

  lemma SamuelsonCore(s: Stats, m: Moments, x: real)
    requires Exact(s, Add(m, x)) && Spread(m)
    ensures WithinReach(s, x)
  {
    SamuelsonArithmetic(m.n as real, m.s, m.q, x, s.mean);
  }

  lemma SamuelsonRest(rest: seq<real>, s: Stats, x: real)
    requires Exact(s, Add(MomentsOf(rest), x))
    ensures WithinReach(s, x)
  {
    SquareOfSum(rest);
    SamuelsonCore(s, MomentsOf(rest), x);
  }

  /** Samuelson's inequality: no sample of a history lies further than
      sqrt(n - 1) standard deviations from the history's own mean. */
  lemma Samuelson(xs: seq<real>, s: Stats, i: nat)
    requires Exact(s, MomentsOf(xs)) && i < |xs|
    ensures WithinReach(s, xs[i])
  {
    WithoutSample(xs, i);
    SamuelsonRest(xs[..i] + xs[i + 1..], s, xs[i]);
  }

  lemma SquareOfSum(xs: seq<real>)
    ensures Spread(MomentsOf(xs))
  {
    ExactAfter(xs);
    SquareOfSumFrom(xs, StatsOf(xs));
  }

  lemma SquareOfSumFrom(xs: seq<real>, t: Stats)
    requires Exact(t, MomentsOf(xs))
    ensures Spread(MomentsOf(xs))
  {
    SpreadZeroIffConstant(xs, t);
    SquareOfTotal(t, MomentsOf(xs));
  }

  // ---- order and units ----------------------------------------------------

  /** Power sums an arbitrary accumulator state is exact about. */
  lemma SomeMoments(s: Stats) returns (m: Moments)
    ensures Exact(s, m)
  {
    var k := s.n as real;
    m := Moments(s.n, k * s.mean, s.m2 + s.mean * (k * s.mean));
  }

  /** Two samples may be absorbed in either order, whatever the accumulator already holds. */
  lemma AbsorbCommutes(s: Stats, x: real, y: real)
    ensures Absorb(Absorb(s, x), y) == Absorb(Absorb(s, y), x)
  {
    var m := SomeMoments(s);
    ExactTwice(s, m, x, y);
    ExactTwice(s, m, y, x);
    AddCommutes(m, x, y);
    ExactUnique(Absorb(Absorb(s, x), y), Absorb(Absorb(s, y), x), Add(Add(m, x), y));
  }

  lemma ExactTwice(s: Stats, m: Moments, x: real, y: real)
    requires Exact(s, m)
    ensures Exact(Absorb(Absorb(s, x), y), Add(Add(m, x), y))
  {
    ExactStep(s, m, x);
    ExactStep(Absorb(s, x), Add(m, x), y);
  }

  /** The accumulator forgets the order of its history. */
  lemma StatsPermutation(s: Stats, xs: seq<real>, ys: seq<real>)
    requires multiset(xs) == multiset(ys)
    ensures Fold(Absorb, s, xs) == Fold(Absorb, s, ys)
  {
    forall t, a, b
      ensures Absorb(Absorb(t, a), b) == Absorb(Absorb(t, b), a)
    {
      AbsorbCommutes(t, a, b);
    }
    FoldPermutation(Absorb, s, xs, ys);
  }

  function Convert(a: real, b: real, x: real): real {
    a * x + b
  }

  /** The same history expressed in another unit. */
  function Affine(a: real, b: real, xs: seq<real>): (r: seq<real>)
    ensures |r| == |xs|
  {
    if xs == [] then [] else Affine(a, b, xs[..|xs| - 1]) + [Convert(a, b, xs[|xs| - 1])]
  }

  /** `t` is `s` with every sample `x` replaced by `a * x + b`. */
  ghost predicate Rescaled(a: real, b: real, s: Stats, t: Stats) {
    && t.n == s.n
    && (if s.n == 0 then s == t == EMPTY else t.mean == a * s.mean + b && t.m2 == a * a * s.m2)
  }

  lemma RescaleIdentity(a: real, b: real, m: real, k: real, e: real, m2: real)
    ensures (a * (m + (k + 1.0) * e) + b) - (a * m + b) == (k + 1.0) * (a * e)
    ensures a * m + b + a * e == a * (m + e) + b
    ensures a * a * m2 + ((k + 1.0) * (a * e)) * (k * (a * e)) == a * a * (m2 + ((k + 1.0) * e) * (k * e))
  {
  }

  lemma RescaledStep(a: real, b: real, s: Stats, t: Stats, x: real)
    requires Rescaled(a, b, s, t)
    ensures Rescaled(a, b, Absorb(s, x), Absorb(t, Convert(a, b, x)))
  {
    if s.n == 0 {
      assert a * a * 0.0 == 0.0;
      OneUpdate(s, x, 0.0, x);
      OneUpdate(t, a * x + b, 0.0, a * x + b);
    } else {
      RescaledLaterStep(a, b, s, t, x, (x - s.mean) / (s.n as real + 1.0));
    }
  }

  lemma RescaledLaterStep(a: real, b: real, s: Stats, t: Stats, x: real, e: real)
    requires Rescaled(a, b, s, t) && s.n > 0 && x == s.mean + (s.n as real + 1.0) * e
    ensures Rescaled(a, b, Absorb(s, x), Absorb(t, Convert(a, b, x)))
  {
    var k := s.n as real;
    RescaleIdentity(a, b, s.mean, k, e, s.m2);
    OneUpdate(s, x, k, e);
    OneUpdate(t, a * x + b, k, a * e);
  }

  /** Changing the unit of a probe changes its statistics the way a mean and a
      squared spread should change. */
  lemma {:induction false} StatsAffine(a: real, b: real, xs: seq<real>)
    ensures Rescaled(a, b, StatsOf(xs), StatsOf(Affine(a, b, xs)))
    decreases |xs|
  {
    if xs != [] {
      var ys, x := xs[..|xs| - 1], xs[|xs| - 1];
      StatsAffine(a, b, ys);
      RescaledStep(a, b, StatsOf(ys), StatsOf(Affine(a, b, ys)), x);
      StatsOfAppend(Affine(a, b, ys), Convert(a, b, x));
    }
  }

  lemma StatsOfAppend(ys: seq<real>, x: real)
    ensures StatsOf(ys + [x]) == Absorb(StatsOf(ys), x)
  {
    assert (ys + [x])[..|ys|] == ys;
  }
}
