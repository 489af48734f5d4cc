/** What the score is, in terms of the raw histories: which probes count, and what each contributes. */
module ScoringExact {
  import opened Options
  import opened Permutations
  import opened Selections
  import opened Welford
  import opened Scoring
  import opened ScoringLaws

  // ---- which probes count --------------------------------------------------------------------------

  ghost predicate Varies(xs: seq<real>) {
    exists i, j :: 0 <= i < |xs| && 0 <= j < |xs| && xs[i] != xs[j]
  }

  /** The probe is asked for: it has a direction other than "record" and a positive weight. */
  predicate Asked(name: string, e: Entry, weights: map<string, real>) {
    && e.direction.Some? && e.direction.value != "record"
    && name in weights && weights[name] > 0.0
  }

  /** It is asked for, and its history has at least `minN` values that are not all equal. */
  ghost predicate Counted(history: map<string, seq<real>>, minN: int, name: string, e: Entry,
                          weights: map<string, real>) {
    && Asked(name, e, weights)
    && name in history && |history[name]| >= minN && Varies(history[name])
  }

  lemma SpreadOfHistory(num: Numerics, xs: seq<real>)
    requires IsRoot(num.root)
    ensures StdDev(num, StatsOf(xs)) > 0.0 <==> Varies(xs)
  {
    VariesExactly(xs, StatsOf(xs));
    SpreadPositive(num, StatsOf(xs));
  }

  lemma VariesExactly(xs: seq<real>, s: Stats)
    requires s == StatsOf(xs)
    ensures s.n == |xs| && s.m2 >= 0.0 && (s.m2 > 0.0 <==> Varies(xs)) && (Varies(xs) ==> xs != [])
  {
    ExactAfter(xs);
    SpreadZeroIffConstant(xs, s);
  }

  lemma SpreadPositive(num: Numerics, s: Stats)
    requires IsRoot(num.root) && s.m2 >= 0.0
    ensures StdDev(num, s) > 0.0 <==> s.n > 0 && s.m2 > 0.0
  {
    if s.n > 0 {
      QuotientSign(s.m2, s.n as real);
    }
    RootSign(num.root, s.Variance());
  }

  lemma QuotientSign(m2: real, n: real)
    requires m2 >= 0.0 && n > 0.0
    ensures m2 / n >= 0.0 && (m2 / n > 0.0 <==> m2 > 0.0)
  {
  }

  lemma RootSign(root: real -> real, v: real)
    requires IsRoot(root) && v >= 0.0
    ensures root(v) > 0.0 <==> v > 0.0
  {
    TimesSign(root(v), root(v));
  }

  lemma CountedExactly(num: Numerics, history: map<string, seq<real>>, squash: string, minN: int, name: string,
                       e: Entry, weights: map<string, real>)
    requires IsRoot(num.root)
    ensures Scores(name, e, weights) <==> Asked(name, e, weights)
    ensures Scores(name, e, weights) && Usable(num, StateOf(history, squash, minN), name) <==>
            Counted(history, minN, name, e, weights)
  {
    if name in history {
      SpreadOfHistory(num, history[name]);
    }
  }

  ghost function CountedOf(history: map<string, seq<real>>, minN: int, probes: Probes,
                           weights: map<string, real>): Probes {
    Filter((p: (string, Entry)) => Counted(history, minN, p.0, p.1, weights), probes)
  }

  /** Asked for, but without a usable history. */
  ghost function UncountedOf(history: map<string, seq<real>>, minN: int, probes: Probes,
                             weights: map<string, real>): Probes {
    Filter((p: (string, Entry)) => Asked(p.0, p.1, weights) && !Counted(history, minN, p.0, p.1, weights), probes)
  }

  function NamesOf(probes: Probes): seq<string> {
    Map((p: (string, Entry)) => p.0, probes)
  }

  function ComponentNames(cs: seq<Component>): seq<string> {
    Map((c: Component) => c.name, cs)
  }

  lemma NamesStep(probes: Probes, p: (string, Entry), cs: seq<Component>, c: Component)
    ensures NamesOf(probes + [p]) == NamesOf(probes) + [p.0]
    ensures ComponentNames(cs + [c]) == ComponentNames(cs) + [c.name]
  {
    MapAppend((q: (string, Entry)) => q.0, probes, p);
    MapAppend((d: Component) => d.name, cs, c);
  }

  lemma CountedStep(history: map<string, seq<real>>, minN: int, probes: Probes, p: (string, Entry),
                    weights: map<string, real>)
    ensures CountedOf(history, minN, probes + [p], weights)
         == if Counted(history, minN, p.0, p.1, weights) then CountedOf(history, minN, probes, weights) + [p]
            else CountedOf(history, minN, probes, weights)
    ensures UncountedOf(history, minN, probes + [p], weights)
         == if Asked(p.0, p.1, weights) && !Counted(history, minN, p.0, p.1, weights)
            then UncountedOf(history, minN, probes, weights) + [p] else UncountedOf(history, minN, probes, weights)
  {
    FilterAppend((q: (string, Entry)) => Counted(history, minN, q.0, q.1, weights), probes, p);
    FilterAppend((q: (string, Entry)) => Asked(q.0, q.1, weights) && !Counted(history, minN, q.0, q.1, weights),
                 probes, p);
  }

  /** The components are those of the counted probes and the skipped names those of the others asked for,
      both in the order of the results. */
  ghost predicate CountsRight(num: Numerics, history: map<string, seq<real>>, squash: string, minN: int,
                              probes: Probes, weights: map<string, real>) {
    var r := ScoreOf(num, StateOf(history, squash, minN), probes, weights);
    && ComponentNames(r.components) == NamesOf(CountedOf(history, minN, probes, weights))
    && r.skipped == NamesOf(UncountedOf(history, minN, probes, weights))
  }

  lemma {:induction false} ComponentsAreCounted(num: Numerics, history: map<string, seq<real>>, squash: string,
                                                minN: int, probes: Probes, weights: map<string, real>)
    requires IsRoot(num.root)
    ensures CountsRight(num, history, squash, minN, probes, weights)
    decreases |probes|
  {
    if probes != [] {
      var init, p := probes[..|probes| - 1], probes[|probes| - 1];
      assert probes == init + [p];
      ComponentsAreCounted(num, history, squash, minN, init, weights);
      NextIsCounted(num, history, squash, minN, init, p, weights);
    }
  }

  lemma NextIsCounted(num: Numerics, history: map<string, seq<real>>, squash: string, minN: int, init: Probes,
                      p: (string, Entry), weights: map<string, real>)
    requires IsRoot(num.root) && CountsRight(num, history, squash, minN, init, weights)
    ensures CountsRight(num, history, squash, minN, init + [p], weights)
  {
    var st := StateOf(history, squash, minN);
    CountedStep(history, minN, init, p, weights);
    CountedExactly(num, history, squash, minN, p.0, p.1, weights);
    ScoreStep(num, st, init, p.0, p.1, weights);
    assert (p.0, p.1) == p;
    if Counted(history, minN, p.0, p.1, weights) {
      var c := Component(p.0, ZScore(num, st.probes[p.0], p.1.Value()),
                         Contribution(num, squash, st.probes[p.0], p.1), Weight(weights, p.0));
      NamesStep(CountedOf(history, minN, init, weights), p, Components(num, st, init, weights), c);
    } else if Asked(p.0, p.1, weights) {
      NamesStep(UncountedOf(history, minN, init, weights), p, [], Component("", 0.0, 0.0, 0.0));
    }
  }

  // ---- what a counted probe contributes ---------------------------------------------------------------

  /** A value `k` standard deviations above its mean, squashed, with the sign of its direction. */
  function Pull(num: Numerics, squash: string, direction: Option<string>, k: real): real {
    var gain := if direction == Some("minimize") then -k else k;
    if squash == "tanh" then num.tanh(gain) else gain
  }

  /** `deviations[i]` says how many standard deviations the i-th counted value is off its mean. */
  ghost predicate Deviate(num: Numerics, history: map<string, seq<real>>, minN: int, probes: Probes,
                          weights: map<string, real>, deviations: seq<real>) {
    && |deviations| == |probes|
    && forall i :: 0 <= i < |probes| && Counted(history, minN, probes[i].0, probes[i].1, weights) ==>
         var s := StatsOf(history[probes[i].0]);
         probes[i].1.Value() == s.mean + Times(deviations[i], num.root(s.Variance()))
  }

  /** The weights of the counted probes, and their weighted pulls, summed. */
  ghost function Sums(num: Numerics, history: map<string, seq<real>>, squash: string, minN: int, probes: Probes,
                      weights: map<string, real>, deviations: seq<real>): (real, real)
    requires |deviations| == |probes|
  {
    if probes == [] then (0.0, 0.0)
    else
      var n := |probes| - 1;
      var (name, e) := probes[n];
      var (pulls, total) := Sums(num, history, squash, minN, probes[..n], weights, deviations[..n]);
      if Counted(history, minN, name, e, weights)
      then (pulls + Weighted(num, squash, e.direction, deviations[n], weights[name]), total + weights[name])
      else (pulls, total)
  }

  function Weighted(num: Numerics, squash: string, direction: Option<string>, k: real, weight: real): real {
    Times(Pull(num, squash, direction, k), weight)
  }

  lemma DeviationCancels(mean: real, k: real, sd: real)
    requires sd > 0.0
    ensures (mean + Times(k, sd) - mean) / sd == k
  {
    DivideExactly(mean + Times(k, sd) - mean, sd, k);
  }

  lemma ContributionOfDeviation(num: Numerics, squash: string, s: Stats, e: Entry, k: real)
    requires StdDev(num, s) > 0.0 && e.Value() == s.mean + Times(k, num.root(s.Variance()))
    ensures Contribution(num, squash, s, e) == Pull(num, squash, e.direction, k)
  {
    DeviationCancels(s.mean, k, StdDev(num, s));
  }

  /** The two sums of the score are those of the pulls. */
  ghost predicate SumsRight(num: Numerics, history: map<string, seq<real>>, squash: string, minN: int,
                            probes: Probes, weights: map<string, real>, deviations: seq<real>)
    requires |deviations| == |probes|
  {
    var cs := Components(num, StateOf(history, squash, minN), probes, weights);
    (WeightedSum(cs), TotalWeight(cs)) == Sums(num, history, squash, minN, probes, weights, deviations)
  }

  lemma {:induction false} SumsOfComponents(num: Numerics, history: map<string, seq<real>>, squash: string, minN: int,
                                            probes: Probes, weights: map<string, real>, deviations: seq<real>)
    requires IsRoot(num.root) && Deviate(num, history, minN, probes, weights, deviations)
    ensures SumsRight(num, history, squash, minN, probes, weights, deviations)
    decreases |probes|
  {
    if probes != [] {
      var n := |probes| - 1;
      SumsOfComponents(num, history, squash, minN, probes[..n], weights, deviations[..n]);
      var (name, e) := probes[n];
      NextSums(num, history, squash, minN, probes[..n], name, e, weights, deviations[n]);
      SumsStepRight(num, history, squash, minN, probes[..n], name, e, weights, deviations[..n], deviations[n]);
      assert probes == probes[..n] + [(name, e)] && deviations == deviations[..n] + [deviations[n]];
    }
  }

  lemma SumsUnfold(num: Numerics, history: map<string, seq<real>>, squash: string, minN: int, init: Probes,
                   name: string, e: Entry, weights: map<string, real>, deviations: seq<real>, k: real)
    requires |deviations| == |init|
    ensures var old_ := Sums(num, history, squash, minN, init, weights, deviations);
            Sums(num, history, squash, minN, init + [(name, e)], weights, deviations + [k])
            == if Counted(history, minN, name, e, weights)
               then (old_.0 + Weighted(num, squash, e.direction, k, weights[name]), old_.1 + weights[name]) else old_
  {
    assert (init + [(name, e)])[..|init|] == init && (deviations + [k])[..|init|] == deviations;
  }

  lemma SumsStepRight(num: Numerics, history: map<string, seq<real>>, squash: string, minN: int, init: Probes,
                      name: string, e: Entry, weights: map<string, real>, deviations: seq<real>, k: real)
    requires |deviations| == |init| && SumsRight(num, history, squash, minN, init, weights, deviations)
    requires SumsNext(num, history, squash, minN, init, name, e, weights, k)
    ensures SumsRight(num, history, squash, minN, init + [(name, e)], weights, deviations + [k])
  {
    SumsUnfold(num, history, squash, minN, init, name, e, weights, deviations, k);
  }

  /** How one more probe changes the two sums. */
  ghost predicate SumsNext(num: Numerics, history: map<string, seq<real>>, squash: string, minN: int, init: Probes,
                           name: string, e: Entry, weights: map<string, real>, k: real) {
    var st := StateOf(history, squash, minN);
    var cs, ds := Components(num, st, init, weights), Components(num, st, init + [(name, e)], weights);
    if Counted(history, minN, name, e, weights)
    then && WeightedSum(ds) == WeightedSum(cs) + Weighted(num, squash, e.direction, k, weights[name])
         && TotalWeight(ds) == TotalWeight(cs) + weights[name]
    else ds == cs
  }

  lemma NextSums(num: Numerics, history: map<string, seq<real>>, squash: string, minN: int, init: Probes,
                 name: string, e: Entry, weights: map<string, real>, k: real)
    requires IsRoot(num.root)
    requires Counted(history, minN, name, e, weights) ==>
               var s := StatsOf(history[name]); e.Value() == s.mean + Times(k, num.root(s.Variance()))
    ensures SumsNext(num, history, squash, minN, init, name, e, weights, k)
  {
    var st := StateOf(history, squash, minN);
    CountedExactly(num, history, squash, minN, name, e, weights);
    ScoreStep(num, st, init, name, e, weights);
    if Counted(history, minN, name, e, weights) {
      var s := st.probes[name];
      ContributionOfDeviation(num, squash, s, e, k);
      SumsStep(Components(num, st, init, weights),
               Component(name, ZScore(num, s, e.Value()), Contribution(num, squash, s, e), Weight(weights, name)));
    }
  }

  /** The score is the weighted mean of the squashed deviations of the counted probes, 0 without any. */
  lemma ScoreIsWeightedMean(num: Numerics, history: map<string, seq<real>>, squash: string, minN: int,
                            probes: Probes, weights: map<string, real>, deviations: seq<real>)
    requires IsRoot(num.root) && Deviate(num, history, minN, probes, weights, deviations)
    ensures var (pulls, total) := Sums(num, history, squash, minN, probes, weights, deviations);
            ScoreOf(num, StateOf(history, squash, minN), probes, weights).score
            == if total > 0.0 then pulls / total else 0.0
  {
    SumsOfComponents(num, history, squash, minN, probes, weights, deviations);
  }

  /** One counted probe, `k` standard deviations above its mean: its squashed deviation is the score. */
  lemma ScoreOfOne(num: Numerics, history: map<string, seq<real>>, squash: string, minN: int, name: string, e: Entry,
                   weights: map<string, real>, k: real)
    requires IsRoot(num.root) && Counted(history, minN, name, e, weights)
    requires var s := StatsOf(history[name]); e.Value() == s.mean + Times(k, num.root(s.Variance()))
    ensures ScoreOf(num, StateOf(history, squash, minN), [(name, e)], weights).score
         == if squash == "tanh" then (if e.direction == Some("minimize") then num.tanh(-k) else num.tanh(k))
            else (if e.direction == Some("minimize") then -k else k)
  {
    NextSums(num, history, squash, minN, [], name, e, weights, k);
    assert [] + [(name, e)] == [(name, e)];
    OneAverage(Pull(num, squash, e.direction, k), weights[name]);
  }

  lemma OneAverage(x: real, w: real)
    requires w > 0.0
    ensures Average(0.0 + Times(x, w), 0.0 + w) == x
  {
    DivideExactly(Times(x, w), w, x);
  }

  // ---- which values are absorbed -------------------------------------------------------------------------

  function NotRecorded(probes: Probes): Probes {
    Filter((p: (string, Entry)) => p.1.direction != Some("record"), probes)
  }

  /** The raw values are those of all probes but the record ones, in order. */
  lemma {:induction false} RawValuesExactly(probes: Probes)
    ensures ExtractRawValues(probes) == Map((p: (string, Entry)) => (p.0, p.1.Value()), NotRecorded(probes))
    decreases |probes|
  {
    if probes != [] {
      var init, p := probes[..|probes| - 1], probes[|probes| - 1];
      RawValuesExactly(init);
      MapAppend((q: (string, Entry)) => (q.0, q.1.Value()), NotRecorded(init), p);
      assert probes == init + [p];
      FilterAppend((q: (string, Entry)) => q.1.direction != Some("record"), init, p);
    }
  }

  /** The values a batch holds for one probe. */
  function ValuesOf(name: string, raw: seq<(string, real)>): seq<real> {
    Map((p: (string, real)) => p.1, Filter((p: (string, real)) => p.0 == name, raw))
  }

  function HistoryOf(history: map<string, seq<real>>, name: string): seq<real> {
    if name in history then history[name] else []
  }

  lemma ValuesStep(name: string, raw: seq<(string, real)>, p: (string, real))
    ensures ValuesOf(name, raw + [p]) == if p.0 == name then ValuesOf(name, raw) + [p.1] else ValuesOf(name, raw)
  {
    FilterAppend((q: (string, real)) => q.0 == name, raw, p);
    MapAppend((q: (string, real)) => q.1, Filter((q: (string, real)) => q.0 == name, raw), p);
  }

  lemma StatsStep(xs: seq<real>, ys: seq<real>, y: real)
    ensures StatsOf(xs + (ys + [y])) == Absorb(StatsOf(xs + ys), y)
  {
    assert (xs + (ys + [y]))[..|xs + ys|] == xs + ys;
  }

  /** After a batch the statistics of a probe are those of its history with the batch's values for it
      appended. */
  ghost predicate AbsorbedInto(history: map<string, seq<real>>, raw: seq<(string, real)>, name: string,
                               m: map<string, Stats>) {
    && (name in m <==> name in history || ValuesOf(name, raw) != [])
    && (name in m ==> m[name] == StatsOf(HistoryOf(history, name) + ValuesOf(name, raw)))
  }

  lemma {:induction false} BatchAbsorbed(history: map<string, seq<real>>, raw: seq<(string, real)>, name: string)
    ensures AbsorbedInto(history, raw, name, ObserveAll(StateOf(history, "", 0).probes, raw))
    decreases |raw|
  {
    var m := StateOf(history, "", 0).probes;
    if raw == [] {
      assert HistoryOf(history, name) + [] == HistoryOf(history, name);
    } else {
      var init, p := raw[..|raw| - 1], raw[|raw| - 1];
      BatchAbsorbed(history, init, name);
      assert raw == init + [p];
      FoldConcat(Observe, m, init, [p]);
      OneObserved(ObserveAll(m, init), p);
      ValuesStep(name, init, p);
      StatsStep(HistoryOf(history, name), ValuesOf(name, init), p.1);
      assert HistoryOf(history, name) + [] == HistoryOf(history, name);
    }
  }

  lemma OneObserved(m: map<string, Stats>, p: (string, real))
    ensures ObserveAll(m, [p]) == Observe(m, p)
  {
    assert [p][1..] == [];
    assert Fold(Observe, Observe(m, p), []) == Observe(m, p);
  }
}
