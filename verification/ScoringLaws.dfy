/** Laws of the normalized score: range, monotonicity, independence of units, and
    independence of the order in which raw values arrive. */
module ScoringLaws {
  import opened Options
  import opened Permutations
  import opened Welford
  import opened Scoring

  // ---- the score is a weighted average of the contributions ---------------------

  ghost function MinContribution(cs: seq<Component>): real
    requires cs != []
  {
    var last := cs[|cs| - 1].contribution;
    if |cs| == 1 then last
    else var m := MinContribution(cs[..|cs| - 1]); if last < m then last else m
  }

  ghost function MaxContribution(cs: seq<Component>): real
    requires cs != []
  {
    var last := cs[|cs| - 1].contribution;
    if |cs| == 1 then last
    else var m := MaxContribution(cs[..|cs| - 1]); if last > m then last else m
  }

  ghost predicate Between(sum: real, lo: real, hi: real, weight: real) {
    Times(lo, weight) <= sum <= Times(hi, weight)
  }

  lemma TimesMonotone(a: real, b: real, w: real)
    requires a <= b && w >= 0.0
    ensures Times(a, w) <= Times(b, w)
    ensures a < b && w > 0.0 ==> Times(a, w) < Times(b, w)
  {
    TimesSign(b - a, w);
    assert Times(b, w) - Times(a, w) == Times(b - a, w);
  }

  lemma BetweenStep(sum: real, lo: real, hi: real, weight: real, c: real, w: real)
    requires Between(sum, lo, hi, weight) && lo <= c <= hi && w > 0.0
    ensures Between(sum + Times(c, w), lo, hi, weight + w)
  {
    TimesMonotone(lo, c, w);
    TimesMonotone(c, hi, w);
    assert Times(lo, weight + w) == Times(lo, weight) + Times(lo, w);
    assert Times(hi, weight + w) == Times(hi, weight) + Times(hi, w);
  }

  lemma BetweenWider(sum: real, lo: real, hi: real, lo': real, hi': real, weight: real)
    requires Between(sum, lo, hi, weight) && lo' <= lo && hi <= hi' && weight >= 0.0
    ensures Between(sum, lo', hi', weight)
  {
    TimesMonotone(lo', lo, weight);
    TimesMonotone(hi, hi', weight);
  }

  ghost predicate PositiveWeights(cs: seq<Component>) {
    forall i :: 0 <= i < |cs| ==> cs[i].weight > 0.0
  }

  lemma {:induction false} SumBetween(cs: seq<Component>)
    requires cs != [] && PositiveWeights(cs)
    ensures TotalWeight(cs) > 0.0
    ensures Between(WeightedSum(cs), MinContribution(cs), MaxContribution(cs), TotalWeight(cs))
    decreases |cs|
  {
    var init, c := cs[..|cs| - 1], cs[|cs| - 1];
    if |cs| == 1 {
      assert Between(0.0, c.contribution, c.contribution, 0.0);
      BetweenStep(0.0, c.contribution, c.contribution, 0.0, c.contribution, c.weight);
    } else {
      SumBetween(init);
      BetweenWider(WeightedSum(init), MinContribution(init), MaxContribution(init),
                   MinContribution(cs), MaxContribution(cs), TotalWeight(init));
      BetweenStep(WeightedSum(init), MinContribution(cs), MaxContribution(cs), TotalWeight(init), c.contribution,
          c.weight);
    }
  }

  lemma AverageBetween(sum: real, lo: real, hi: real, weight: real)
    requires Between(sum, lo, hi, weight) && weight > 0.0
    ensures lo <= Average(sum, weight) <= hi
  {
    var q := sum / weight;
    assert sum == Times(q, weight);
    if q < lo {
      TimesMonotone(q, lo, weight);
    }
    if q > hi {
      TimesMonotone(hi, q, weight);
    }
  }

  lemma {:induction false} ComponentsWeights(num: Numerics, st: Norm, probes: Probes, weights: map<string, real>)
    ensures PositiveWeights(Components(num, st, probes, weights))
  {
    if probes != [] {
      ComponentsWeights(num, st, probes[..|probes| - 1], weights);
    }
  }

  /** Whenever any probe counts, the score lies between the smallest and the largest
      contribution; when none counts it is zero. */
  lemma ScoreBetween(num: Numerics, st: Norm, probes: Probes, weights: map<string, real>)
    ensures var r := ScoreOf(num, st, probes, weights);
            if r.components == [] then r.score == 0.0
            else MinContribution(r.components) <= r.score <= MaxContribution(r.components)
  {
    var cs := Components(num, st, probes, weights);
    ComponentsWeights(num, st, probes, weights);
    if cs != [] {
      SumBetween(cs);
      AverageBetween(WeightedSum(cs), MinContribution(cs), MaxContribution(cs), TotalWeight(cs));
    }
  }

  lemma {:induction false} SquashedComponents(num: Numerics, st: Norm, probes: Probes, weights: map<string, real>)
    requires IsSquash(num.tanh) && st.squash == "tanh"
    ensures forall c :: c in Components(num, st, probes, weights) ==> -1.0 < c.contribution < 1.0
  {
    if probes != [] {
      SquashedComponents(num, st, probes[..|probes| - 1], weights);
    }
  }

  lemma {:induction false} ExtremesAreContributions(cs: seq<Component>)
    requires cs != []
    ensures exists i :: 0 <= i < |cs| && cs[i].contribution == MinContribution(cs)
    ensures exists i :: 0 <= i < |cs| && cs[i].contribution == MaxContribution(cs)
    decreases |cs|
  {
    assert cs[|cs| - 1] == cs[|cs| - 1];
    if |cs| > 1 {
      var init := cs[..|cs| - 1];
      ExtremesAreContributions(init);
      assert forall i :: 0 <= i < |init| ==> init[i] == cs[i];
    }
  }

  /** With the tanh squash no outlier can push the score out of (-1, 1). */
  lemma ScoreInRange(num: Numerics, st: Norm, probes: Probes, weights: map<string, real>)
    requires IsSquash(num.tanh) && st.squash == "tanh"
    ensures -1.0 < ScoreOf(num, st, probes, weights).score < 1.0
  {
    ScoreBetween(num, st, probes, weights);
    SquashedComponents(num, st, probes, weights);
    var cs := Components(num, st, probes, weights);
    if cs != [] {
      ExtremesAreContributions(cs);
    }
  }

  // ---- improving a probe never hurts ----------------------------------------------

  /** `e'` is at least as good a measurement as `e`, in the probe's own direction. */
  ghost predicate NoWorse(e: Entry, e': Entry) {
    && e'.direction == e.direction
    && if e.direction == Some("minimize") then e'.Value() <= e.Value() else e'.Value() >= e.Value()
  }

  ghost predicate AllNoWorse(ps: Probes, ps': Probes) {
    && |ps| == |ps'|
    && forall i :: 0 <= i < |ps| ==> ps'[i].0 == ps[i].0 && NoWorse(ps[i].1, ps'[i].1)
  }

  /** Some probe that counts towards the score got strictly better. */
  ghost predicate SomeBetter(num: Numerics, st: Norm, ps: Probes, ps': Probes, weights: map<string, real>)
    requires |ps| == |ps'|
  {
    if ps == [] then false
    else
      var (name, e) := ps[|ps| - 1];
      || (Scores(name, e, weights) && Usable(num, st, name) && ps'[|ps| - 1].1.Value() != e.Value())
      || SomeBetter(num, st, ps[..|ps| - 1], ps'[..|ps| - 1], weights)
  }

  lemma QuotientMonotone(a: real, b: real, d: real)
    requires a <= b && d > 0.0
    ensures a / d <= b / d
    ensures a < b ==> a / d < b / d
  {
    var p, q := a / d, b / d;
    assert Times(p, d) == a && Times(q, d) == b;
    if q < p {
      TimesMonotone(q, p, d);
    }
  }

  lemma ContributionMonotone(num: Numerics, squash: string, s: Stats, e: Entry, e': Entry)
    requires StdDev(num, s) > 0.0 && NoWorse(e, e')
    requires squash == "tanh" ==> IsSquash(num.tanh)
    ensures Contribution(num, squash, s, e) <= Contribution(num, squash, s, e')
    ensures e'.Value() != e.Value() ==> Contribution(num, squash, s, e) < Contribution(num, squash, s, e')
  {
    var sd := StdDev(num, s);
    if e.direction == Some("minimize") {
      QuotientMonotone(e'.Value() - s.mean, e.Value() - s.mean, sd);
    } else {
      QuotientMonotone(e.Value() - s.mean, e'.Value() - s.mean, sd);
    }
  }

  /** What improving measurements does to the two sums of the score. */
  ghost predicate SumsImproved(cs: seq<Component>, cs': seq<Component>, strictly: bool) {
    && TotalWeight(cs') == TotalWeight(cs) && |cs'| == |cs|
    && WeightedSum(cs) <= WeightedSum(cs')
    && (strictly ==> cs != [] && WeightedSum(cs) < WeightedSum(cs'))
  }

  lemma SumsImprovedStep(cs: seq<Component>, cs': seq<Component>, strictly: bool, c: Component, c': Component)
    requires SumsImproved(cs, cs', strictly)
    requires c'.weight == c.weight && c.weight > 0.0 && c.contribution <= c'.contribution
    ensures SumsImproved(cs + [c], cs' + [c'], strictly || c.contribution < c'.contribution)
  {
    SumsStep(cs, c);
    SumsStep(cs', c');
    TimesMonotone(c.contribution, c'.contribution, c.weight);
  }

  lemma {:induction false} SumsMonotone(num: Numerics, st: Norm, ps: Probes, ps': Probes, weights: map<string, real>)
    requires AllNoWorse(ps, ps')
    requires st.squash == "tanh" ==> IsSquash(num.tanh)
    ensures SumsImproved(Components(num, st, ps, weights), Components(num, st, ps', weights),
                         SomeBetter(num, st, ps, ps', weights))
    decreases |ps|
  {
    if ps != [] {
      var qs, qs' := ps[..|ps| - 1], ps'[..|ps| - 1];
      var (name, e) := ps[|ps| - 1];
      var e' := ps'[|ps| - 1].1;
      SumsMonotone(num, st, qs, qs', weights);
      assert ps == qs + [(name, e)] && ps' == qs' + [(name, e')];
      ScoreStep(num, st, qs, name, e, weights);
      ScoreStep(num, st, qs', name, e', weights);
      if Scores(name, e, weights) && Usable(num, st, name) {
        var s, w := st.probes[name], Weight(weights, name);
        ContributionMonotone(num, st.squash, s, e, e');
        SumsImprovedStep(Components(num, st, qs, weights), Components(num, st, qs', weights),
                         SomeBetter(num, st, qs, qs', weights),
                         Component(name, ZScore(num, s, e.Value()), Contribution(num, st.squash, s, e), w),
                         Component(name, ZScore(num, s, e'.Value()), Contribution(num, st.squash, s, e'), w));
      }
    }
  }

  /** If every probe measures at least as well, each in its own direction, the score does
      not drop; if some counted probe measures strictly better, the score rises. */
  lemma ScoreMonotone(num: Numerics, st: Norm, ps: Probes, ps': Probes, weights: map<string, real>)
    requires AllNoWorse(ps, ps')
    requires st.squash == "tanh" ==> IsSquash(num.tanh)
    ensures ScoreOf(num, st, ps, weights).score <= ScoreOf(num, st, ps', weights).score
    ensures SomeBetter(num, st, ps, ps', weights)
        ==> ScoreOf(num, st, ps, weights).score < ScoreOf(num, st, ps', weights).score
  {
    SumsMonotone(num, st, ps, ps', weights);
    var cs, cs' := Components(num, st, ps, weights), Components(num, st, ps', weights);
    ComponentsWeights(num, st, ps, weights);
    if cs == [] {
      assert cs' == [];
    } else {
      SumBetween(cs);
      QuotientMonotone(WeightedSum(cs), WeightedSum(cs'), TotalWeight(cs));
    }
  }

  // ---- the weights ----------------------------------------------------------------------

  lemma AverageTimes(sum: real, weight: real)
    requires weight > 0.0
    ensures Times(Average(sum, weight), weight) == sum
  {
  }

  lemma PullIdentity(s': real, s: real, x: real, total: real, w: real)
    ensures Times(s' - s, total + w) - Times(x - s, w) == Times(s', total + w) - Times(s, total) - Times(x, w)
  {
  }

  lemma ZeroTotal(cs: seq<Component>)
    requires PositiveWeights(cs)
    ensures TotalWeight(cs) > 0.0 || (cs == [] && WeightedSum(cs) == 0.0)
  {
    if cs != [] {
      SumBetween(cs);
    }
  }

  /** One more counting probe pulls the score towards its own contribution, by its share of the
      total weight. */
  lemma ScorePull(num: Numerics, st: Norm, probes: Probes, name: string, e: Entry, weights: map<string, real>)
    requires Scores(name, e, weights) && Usable(num, st, name)
    ensures var s, s' := ScoreOf(num, st, probes, weights), ScoreOf(num, st, probes + [(name, e)], weights);
            var x, w := Contribution(num, st.squash, st.probes[name], e), Weight(weights, name);
            Times(s'.score - s.score, TotalWeight(s.components) + w) == Times(x - s.score, w)
  {
    var cs := Components(num, st, probes, weights);
    var x, w := Contribution(num, st.squash, st.probes[name], e), Weight(weights, name);
    var c := Component(name, ZScore(num, st.probes[name], e.Value()), x, w);
    ScoreStep(num, st, probes, name, e, weights);
    SumsStep(cs, c);
    ComponentsWeights(num, st, probes, weights);
    ZeroTotal(cs);
    PullCore(WeightedSum(cs), TotalWeight(cs), x, w);
  }

  lemma PullCore(sum: real, total: real, x: real, w: real)
    requires w > 0.0 && (total > 0.0 || (total == 0.0 && sum == 0.0))
    ensures var s, s' := Average(sum, total), Average(sum + Times(x, w), total + w);
            Times(s' - s, total + w) == Times(x - s, w)
  {
    var s, s' := Average(sum, total), Average(sum + Times(x, w), total + w);
    AverageTimes(sum + Times(x, w), total + w);
    if total > 0.0 {
      AverageTimes(sum, total);
    } else {
      assert Times(s, total) == 0.0;
    }
    PullIdentity(s', s, x, total, w);
  }

  function ScaledWeights(c: real, weights: map<string, real>): map<string, real> {
    map name | name in weights :: Times(c, weights[name])
  }

  ghost predicate Reweighted(c: real, cs: seq<Component>, cs': seq<Component>) {
    && |cs| == |cs'|
    && forall i :: 0 <= i < |cs| ==>
        cs'[i].contribution == cs[i].contribution && cs'[i].weight == Times(c, cs[i].weight)
  }

  lemma TimesRegroup(c: real, x: real, w: real)
    ensures Times(x, Times(c, w)) == Times(c, Times(x, w))
  {
  }

  lemma TimesSum(c: real, a: real, b: real)
    ensures Times(c, a + b) == Times(c, a) + Times(c, b)
  {
  }

  lemma {:induction false} ReweightedSums(c: real, cs: seq<Component>, cs': seq<Component>)
    requires Reweighted(c, cs, cs')
    ensures WeightedSum(cs') == Times(c, WeightedSum(cs)) && TotalWeight(cs') == Times(c, TotalWeight(cs))
    decreases |cs|
  {
    if cs != [] {
      var n := |cs| - 1;
      ReweightedSums(c, cs[..n], cs'[..n]);
      TimesRegroup(c, cs[n].contribution, cs[n].weight);
      TimesSum(c, WeightedSum(cs[..n]), Times(cs[n].contribution, cs[n].weight));
      TimesSum(c, TotalWeight(cs[..n]), cs[n].weight);
    }
  }

  lemma PositiveScale(c: real, w: real)
    requires c > 0.0
    ensures Times(c, w) > 0.0 <==> w > 0.0
  {
    TimesSign(c, w);
  }

  lemma {:induction false} ComponentsReweighted(num: Numerics, st: Norm, probes: Probes, weights: map<string,
                                                real>, c: real)
    requires c > 0.0
    ensures Reweighted(c, Components(num, st, probes, weights), Components(num, st, probes, ScaledWeights(c, weights)))
    decreases |probes|
  {
    if probes != [] {
      var (name, e) := probes[|probes| - 1];
      ComponentsReweighted(num, st, probes[..|probes| - 1], weights, c);
      PositiveScale(c, Weight(weights, name));
    }
  }

  lemma AverageRescaled(c: real, sum: real, total: real)
    requires c > 0.0
    ensures Average(Times(c, sum), Times(c, total)) == Average(sum, total)
  {
    PositiveScale(c, total);
    if total > 0.0 {
      var q := Average(sum, total);
      AverageTimes(sum, total);
      TimesRegroup(c, q, total);
      AverageTimes(Times(c, sum), Times(c, total));
      SameQuotient(q, Average(Times(c, sum), Times(c, total)), Times(c, total));
    }
  }

  lemma SameQuotient(p: real, q: real, d: real)
    requires d > 0.0 && Times(p, d) == Times(q, d)
    ensures p == q
  {
    if p < q {
      TimesMonotone(p, q, d);
    } else if q < p {
      TimesMonotone(q, p, d);
    }
  }

  /** Only the proportions of the weights matter. */
  lemma ScoreWeightScale(num: Numerics, st: Norm, probes: Probes, weights: map<string, real>, c: real)
    requires c > 0.0
    ensures ScoreOf(num, st, probes, ScaledWeights(c, weights)).score == ScoreOf(num, st, probes, weights).score
  {
    var cs := Components(num, st, probes, weights);
    ComponentsReweighted(num, st, probes, weights, c);
    ReweightedSums(c, cs, Components(num, st, probes, ScaledWeights(c, weights)));
    AverageRescaled(c, WeightedSum(cs), TotalWeight(cs));
  }

  // ---- units -------------------------------------------------------------------------

  /** A change of unit: `value -> a * value + b` with `a != 0`. A negative factor turns a
      cost into a gain, so the direction of the probe is swapped with it. */
  datatype Unit = Unit(a: real, b: real)

  function SwapDirection(d: Option<string>): Option<string> {
    match d
    case None => None
    case Some(s) =>
      if s == "record" then d else if s == "minimize" then Some("maximize") else Some("minimize")
  }

  function ConvertEntry(u: Unit, e: Entry): Entry {
    Entry(if u.a < 0.0 then SwapDirection(e.direction) else e.direction, Some(Convert(u.a, u.b, e.Value())))
  }

  function ConvertProbes(unit: string -> Unit, ps: Probes): (r: Probes)
    ensures |r| == |ps|
  {
    if ps == [] then []
    else
      var (name, e) := ps[|ps| - 1];
      ConvertProbes(unit, ps[..|ps| - 1]) + [(name, ConvertEntry(unit(name), e))]
  }

  /** The state after absorbing the given history of every probe. */
  function StateOf(history: map<string, seq<real>>, squash: string, minN: int): Norm {
    Norm(map k | k in history :: StatsOf(history[k]), squash, minN)
  }

  function ConvertHistory(unit: string -> Unit, history: map<string, seq<real>>): map<string, seq<real>> {
    map k | k in history :: Affine(unit(k).a, unit(k).b, history[k])
  }

  lemma RootUnique(x: real, y: real)
    requires x >= 0.0 && y >= 0.0 && Square(x) == Square(y)
    ensures x == y
  {
    assert Times(y, x) == Times(x, y);
    if x < y {
      TimesMonotone(x, y, y);
      TimesMonotone(x, y, x);
    } else if y < x {
      TimesMonotone(y, x, x);
      TimesMonotone(y, x, y);
    }
  }

  ghost function Abs(a: real): real {
    if a < 0.0 then -a else a
  }

  lemma SquareOfScaled(a: real, r: real)
    ensures Square(Abs(a) * r) == a * a * Square(r)
  {
  }

  lemma ScaledVariance(a: real, m2: real, n: real)
    requires n > 0.0
    ensures (a * a * m2) / n == a * a * (m2 / n)
  {
    DivideExactly(a * a * m2, n, a * a * (m2 / n));
  }

  lemma ScaledStdDev(num: Numerics, a: real, b: real, s: Stats, t: Stats)
    requires IsRoot(num.root) && Rescaled(a, b, s, t) && s.m2 >= 0.0
    ensures s.n > 0 ==> StdDev(num, t) == Abs(a) * StdDev(num, s)
    ensures s.n == 0 ==> StdDev(num, s) == StdDev(num, t) == 0.0
    ensures StdDev(num, s) >= 0.0
  {
    if s.n == 0 {
      assert Square(0.0) == 0.0;
      RootUnique(num.root(0.0), 0.0);
    } else {
      var n := s.n as real;
      ScaledVariance(a, s.m2, n);
      VarianceNonNegative(s.m2, n);
      var r := num.root(s.Variance());
      RootOfScaled(num.root, a, s.Variance(), t.Variance());
    }
  }

  lemma VarianceNonNegative(m2: real, n: real)
    requires m2 >= 0.0 && n > 0.0
    ensures m2 / n >= 0.0
  {
  }

  lemma RootOfScaled(root: real -> real, a: real, v: real, w: real)
    requires IsRoot(root) && v >= 0.0 && w == a * a * v
    ensures root(w) == Abs(a) * root(v)
  {
    TimesSign(a, a);
    ProductNonNegative(Abs(a), root(v));
    ProductNonNegative(a * a, v);
    SquareOfScaled(a, root(v));
    RootUnique(root(w), Abs(a) * root(v));
  }

  lemma ScaledZ(a: real, b: real, v: real, m: real, sd: real)
    requires a != 0.0 && sd > 0.0
    ensures Times(Abs(a), sd) > 0.0
    ensures (Convert(a, b, v) - (a * m + b)) / Times(Abs(a), sd) == if a < 0.0 then -((v - m) / sd) else (v - m) / sd
  {
    var z := (v - m) / sd;
    assert z * sd == v - m;
    TimesSign(Abs(a), sd);
    var z' := if a < 0.0 then -z else z;
    assert Convert(a, b, v) - (a * m + b) == a * (v - m);
    ScaledZIdentity(a, sd, z);
    DivideExactly(a * (v - m), Times(Abs(a), sd), z');
  }

  lemma ScaledZIdentity(a: real, sd: real, z: real)
    ensures a * (z * sd) == Times(Abs(a), sd) * (if a < 0.0 then -z else z)
  {
  }

  lemma UsableUnitFree(num: Numerics, s: Stats, t: Stats, u: Unit)
    requires IsRoot(num.root) && u.a != 0.0 && Rescaled(u.a, u.b, s, t) && s.m2 >= 0.0
    ensures StdDev(num, s) > 0.0 <==> StdDev(num, t) > 0.0
    ensures StdDev(num, s) > 0.0 ==> s.n > 0 && StdDev(num, t) == Times(Abs(u.a), StdDev(num, s))
  {
    ScaledStdDev(num, u.a, u.b, s, t);
    TimesSign(Abs(u.a), StdDev(num, s));
    assert Times(Abs(u.a), StdDev(num, s)) == Abs(u.a) * StdDev(num, s);
  }

  lemma ZScoreUnitFree(num: Numerics, s: Stats, t: Stats, u: Unit, v: real)
    requires u.a != 0.0 && s.n > 0 && Rescaled(u.a, u.b, s, t)
    requires StdDev(num, s) > 0.0 && StdDev(num, t) == Times(Abs(u.a), StdDev(num, s))
    requires StdDev(num, t) > 0.0
    ensures ZScore(num, t, Convert(u.a, u.b, v)) == if u.a < 0.0 then -ZScore(num, s, v) else ZScore(num, s, v)
  {
    ScaledZ(u.a, u.b, v, s.mean, StdDev(num, s));
  }

  lemma ContributionUnitFree(num: Numerics, squash: string, s: Stats, t: Stats, u: Unit, e: Entry)
    requires IsRoot(num.root) && u.a != 0.0 && Rescaled(u.a, u.b, s, t) && s.m2 >= 0.0
    requires e.direction.Some? && e.direction.value != "record"
    ensures StdDev(num, s) > 0.0 <==> StdDev(num, t) > 0.0
    ensures StdDev(num, s) > 0.0 ==>
              Contribution(num, squash, t, ConvertEntry(u, e)) == Contribution(num, squash, s, e)
  {
    UsableUnitFree(num, s, t, u);
    if StdDev(num, s) > 0.0 {
      ZScoreUnitFree(num, s, t, u, e.Value());
    }
  }

  ghost predicate SameContributions(cs: seq<Component>, cs': seq<Component>) {
    && |cs| == |cs'|
    && forall i :: 0 <= i < |cs| ==>
         cs'[i].name == cs[i].name && cs'[i].contribution == cs[i].contribution && cs'[i].weight == cs[i].weight
  }

  lemma {:induction false} SameSums(cs: seq<Component>, cs': seq<Component>)
    requires SameContributions(cs, cs')
    ensures WeightedSum(cs) == WeightedSum(cs') && TotalWeight(cs) == TotalWeight(cs')
    decreases |cs|
  {
    if cs != [] {
      SameSums(cs[..|cs| - 1], cs'[..|cs| - 1]);
    }
  }

  lemma HistoryRescaled(xs: seq<real>, a: real, b: real)
    ensures Rescaled(a, b, StatsOf(xs), StatsOf(Affine(a, b, xs)))
    ensures StatsOf(xs).m2 >= 0.0
  {
    StatsAffine(a, b, xs);
    ExactAfter(xs);
    SpreadZeroIffConstant(xs, StatsOf(xs));
  }

  lemma ProbeUnitFree(num: Numerics, history: map<string, seq<real>>, unit: string -> Unit,
                      squash: string, minN: int, name: string, e: Entry, weights: map<string, real>)
    requires IsRoot(num.root) && unit(name).a != 0.0
    ensures var st, st' := StateOf(history, squash, minN), StateOf(ConvertHistory(unit, history), squash, minN);
            var e' := ConvertEntry(unit(name), e);
            && Scores(name, e', weights) == Scores(name, e, weights)
            && (Scores(name, e, weights) ==>
                  && Usable(num, st', name) == Usable(num, st, name)
                  && (Usable(num, st, name) ==>
                        Contribution(num, squash, st'.probes[name], e')
                            == Contribution(num, squash, st.probes[name], e)))
  {
    if Scores(name, e, weights) && name in history {
      HistoryRescaled(history[name], unit(name).a, unit(name).b);
      ContributionUnitFree(num, squash, StatsOf(history[name]),
                           StatsOf(Affine(unit(name).a, unit(name).b, history[name])), unit(name), e);
    }
  }

  lemma {:induction false} ComponentsUnitFree(num: Numerics, history: map<string, seq<real>>, unit: string -> Unit,
                                             squash: string, minN: int, ps: Probes, weights: map<string, real>)
    requires IsRoot(num.root) && forall k :: unit(k).a != 0.0
    ensures var st, st' := StateOf(history, squash, minN), StateOf(ConvertHistory(unit, history), squash, minN);
            var ps' := ConvertProbes(unit, ps);
            && SameContributions(Components(num, st, ps, weights), Components(num, st', ps', weights))
            && Skipped(num, st, ps, weights) == Skipped(num, st', ps', weights)
    decreases |ps|
  {
    if ps != [] {
      var st, st' := StateOf(history, squash, minN), StateOf(ConvertHistory(unit, history), squash, minN);
      var init := ps[..|ps| - 1];
      var (name, e) := ps[|ps| - 1];
      ComponentsUnitFree(num, history, unit, squash, minN, init, weights);
      ProbeUnitFree(num, history, unit, squash, minN, name, e, weights);
      ScoreStep(num, st', ConvertProbes(unit, init), name, ConvertEntry(unit(name), e), weights);
      ScoreStep(num, st, init, name, e, weights);
      assert ps == init + [(name, e)];
    }
  }

  /** The score is unit-free: measuring the whole history and the new value of any probes
      in other units leaves it unchanged, and so does negating a probe while swapping its
      direction. */
  lemma ScoreUnitFree(num: Numerics, history: map<string, seq<real>>, unit: string -> Unit,
                      squash: string, minN: int, ps: Probes, weights: map<string, real>)
    requires IsRoot(num.root) && forall k :: unit(k).a != 0.0
    ensures ScoreOf(num, StateOf(ConvertHistory(unit, history), squash, minN), ConvertProbes(unit, ps), weights).score
         == ScoreOf(num, StateOf(history, squash, minN), ps, weights).score
  {
    ComponentsUnitFree(num, history, unit, squash, minN, ps, weights);
    SameSums(Components(num, StateOf(history, squash, minN), ps, weights),
             Components(num, StateOf(ConvertHistory(unit, history), squash, minN), ConvertProbes(unit, ps), weights));
  }

  // ---- outliers and order of arrival ------------------------------------------------------

  /** The z-score of an absorbed sample never exceeds sqrt(n - 1) in size. */
  lemma ZScoreBound(num: Numerics, xs: seq<real>, s: Stats, i: nat)
    requires IsRoot(num.root) && Exact(s, MomentsOf(xs)) && i < |xs| && StdDev(num, s) > 0.0
    ensures Square(ZScore(num, s, xs[i])) <= (s.n - 1) as real
  {
    WelfordMeaning(xs, s);
    SpreadZeroIffConstant(xs, s);
    Samuelson(xs, s, i);
    ReachBoundsZ(num, s, xs[i]);
  }

  lemma ReachBoundsZ(num: Numerics, s: Stats, x: real)
    requires IsRoot(num.root) && StdDev(num, s) > 0.0 && s.n > 0 && s.m2 >= 0.0 && WithinReach(s, x)
    ensures Square(ZScore(num, s, x)) <= (s.n - 1) as real
  {
    VarianceNonNegative(s.m2, s.n as real);
    ZBoundArithmetic(s.n as real, s.m2, StdDev(num, s), x - s.mean, ZScore(num, s, x));
  }

  lemma ZBoundArithmetic(n: real, m2: real, sd: real, d: real, z: real)
    requires n >= 1.0 && sd > 0.0 && Square(sd) == m2 / n && z == d / sd
    requires n * (d * d) <= (n - 1.0) * m2
    ensures Square(z) <= n - 1.0
  {
    var v := Square(sd);
    TimesSign(sd, sd);
    assert m2 == n * v;
    assert d == z * sd;
    assert d * d == Square(z) * v;
    TimesSign(n, v);
    assert (n - 1.0) * (n * v) == Times(n - 1.0, n * v);
    assert n * (Square(z) * v) == Times(Square(z), n * v);
    if Square(z) > n - 1.0 {
      TimesMonotone(n - 1.0, Square(z), n * v);
    }
  }

  lemma ObserveCommutes(m: map<string, Stats>, a: (string, real), b: (string, real))
    ensures Observe(Observe(m, a), b) == Observe(Observe(m, b), a)
  {
    if a.0 == b.0 {
      AbsorbCommutes(if a.0 in m then m[a.0] else EMPTY, a.1, b.1);
    }
    assert Observe(Observe(m, a), b) == Observe(Observe(m, b), a);
  }

  /** The running statistics do not depend on the order in which results arrive. */
  lemma StatisticsOrderFree(m: map<string, Stats>, xss: seq<seq<(string, real)>>, yss: seq<seq<(string, real)>>)
    requires multiset(xss) == multiset(yss)
    ensures Fold(ObserveAll, m, xss) == Fold(ObserveAll, m, yss)
  {
    forall t, a, b
      ensures Observe(Observe(t, a), b) == Observe(Observe(t, b), a)
    {
      ObserveCommutes(t, a, b);
    }
    FlattenPermutation(xss, yss);
    FoldPermutation(Observe, m, Flatten(xss), Flatten(yss));
    FoldBatches(m, xss);
    FoldBatches(m, yss);
  }

  lemma {:induction false} FoldBatches(m: map<string, Stats>, xss: seq<seq<(string, real)>>)
    ensures Fold(ObserveAll, m, xss) == Fold(Observe, m, Flatten(xss))
    decreases |xss|
  {
    if xss != [] {
      FoldConcat(Observe, m, xss[0], Flatten(xss[1..]));
      FoldBatches(ObserveAll(m, xss[0]), xss[1..]);
    }
  }

  /** A probe without a direction enters the running statistics but never the score:
      the two loops read a missing direction differently. */
  lemma MissingDirection(num: Numerics, st: Norm, name: string, v: real, weights: map<string, real>)
    ensures var ps := [(name, Entry(None, Some(v)))];
            && ExtractRawValues(ps) == [(name, v)]
            && ScoreOf(num, st, ps, weights) == Scored(0.0, [], [])
  {
    var ps := [(name, Entry(None, Some(v)))];
    assert ps[..0] == [] && !Scores(name, ps[0].1, weights);
    ScoreStep(num, st, [], name, ps[0].1, weights);
    assert ps == [] + [(name, ps[0].1)];
  }
}
