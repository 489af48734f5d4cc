/** `NormalizationState` of normalization.py: per-probe running statistics and the
    weighted, squashed z-score computed from them. */
module Scoring {
  import opened Options
  import opened Permutations
  import opened Welford

  // ---- data ------------------------------------------------------------------

  /** The two library functions the score relies on. */
  datatype Numerics = Numerics(root: real -> real, tanh: real -> real)

  /** `root` is the non-negative square root. */
  ghost predicate IsRoot(root: real -> real) {
    forall v :: v >= 0.0 ==> root(v) >= 0.0 && Square(root(v)) == v
  }

  /** What the score needs of `math.tanh`. */
  ghost predicate IsSquash(f: real -> real) {
    && (forall x :: f(-x) == -f(x))
    && (forall x, y :: x < y ==> f(x) < f(y))
    && (forall x :: -1.0 < f(x) < 1.0)
  }

  /** One probe's dictionary; `None` stands for a missing key. */
  datatype Entry = Entry(direction: Option<string>, value: Option<real>) {
    function Value(): real {
      value.GetOr(0.0)
    }
  }

  /** A dictionary in insertion order. */
  type Probes = seq<(string, Entry)>

  /** The value of a NormalizationState, which is also its `to_dict` shape. */
  datatype Norm = Norm(probes: map<string, Stats>, squash: string, minN: int)

  datatype Component = Component(name: string, z: real, contribution: real, weight: real)

  datatype Scored = Scored(score: real, components: seq<Component>, skipped: seq<string>)

  // ---- updating the statistics -------------------------------------------------

  /** One raw value absorbed into its probe's accumulator, created on first use. */
  function Observe(m: map<string, Stats>, obs: (string, real)): map<string, Stats> {
    m[obs.0 := Absorb(if obs.0 in m then m[obs.0] else EMPTY, obs.1)]
  }

  function ObserveAll(m: map<string, Stats>, raw: seq<(string, real)>): map<string, Stats> {
    Fold(Observe, m, raw)
  }

  /** Raw values worth absorbing: everything but "record" probes. A probe without a
      direction counts here, although `Scores` treats it as a "record" probe. */
  function ExtractRawValues(probes: Probes): seq<(string, real)> {
    if probes == [] then []
    else
      var (name, e) := probes[|probes| - 1];
      var init := ExtractRawValues(probes[..|probes| - 1]);
      if e.direction == Some("record") then init else init + [(name, e.Value())]
  }

  // ---- scoring -----------------------------------------------------------------

  function StdDev(num: Numerics, s: Stats): real {
    num.root(s.Variance())
  }

  function Weight(weights: map<string, real>, name: string): real {
    if name in weights then weights[name] else 0.0
  }

  /** The probe takes part in scoring: it has a direction and a positive weight. */
  predicate Scores(name: string, e: Entry, weights: map<string, real>) {
    e.direction.GetOr("record") != "record" && Weight(weights, name) > 0.0
  }

  /** The statistics of the probe are usable as a reference. */
  predicate Usable(num: Numerics, st: Norm, name: string) {
    name in st.probes && st.probes[name].n >= st.minN && StdDev(num, st.probes[name]) > 0.0
  }

  function ZScore(num: Numerics, s: Stats, v: real): real
    requires StdDev(num, s) > 0.0
  {
    (v - s.mean) / StdDev(num, s)
  }

  function Contribution(num: Numerics, squash: string, s: Stats, e: Entry): real
    requires StdDev(num, s) > 0.0
  {
    var z := ZScore(num, s, e.Value());
    var signed := if e.direction == Some("minimize") then -z else z;
    if squash == "tanh" then num.tanh(signed) else signed
  }

  function Components(num: Numerics, st: Norm, probes: Probes, weights: map<string, real>): seq<Component> {
    if probes == [] then []
    else
      var (name, e) := probes[|probes| - 1];
      var init := Components(num, st, probes[..|probes| - 1], weights);
      if Scores(name, e, weights) && Usable(num, st, name) then
        var s := st.probes[name];
        init + [Component(name, ZScore(num, s, e.Value()), Contribution(num, st.squash, s, e), Weight(weights, name))]
      else
        init
  }

  function Skipped(num: Numerics, st: Norm, probes: Probes, weights: map<string, real>): seq<string> {
    if probes == [] then []
    else
      var (name, e) := probes[|probes| - 1];
      var init := Skipped(num, st, probes[..|probes| - 1], weights);
      if Scores(name, e, weights) && !Usable(num, st, name) then init + [name] else init
  }

  function WeightedSum(cs: seq<Component>): real {
    if cs == [] then 0.0
    else WeightedSum(cs[..|cs| - 1]) + Times(cs[|cs| - 1].contribution, cs[|cs| - 1].weight)
  }

  function TotalWeight(cs: seq<Component>): real {
    if cs == [] then 0.0 else TotalWeight(cs[..|cs| - 1]) + cs[|cs| - 1].weight
  }

  function Average(sum: real, weight: real): real {
    if weight > 0.0 then sum / weight else 0.0
  }

  function ScoreOf(num: Numerics, st: Norm, probes: Probes, weights: map<string, real>): Scored {
    var cs := Components(num, st, probes, weights);
    Scored(Average(WeightedSum(cs), TotalWeight(cs)), cs, Skipped(num, st, probes, weights))
  }

  lemma SumsStep(cs: seq<Component>, c: Component)
    ensures WeightedSum(cs + [c]) == WeightedSum(cs) + Times(c.contribution, c.weight)
    ensures TotalWeight(cs + [c]) == TotalWeight(cs) + c.weight
  {
    assert (cs + [c])[..|cs|] == cs;
  }

  lemma ScoreStep(num: Numerics, st: Norm, init: Probes, name: string, e: Entry, weights: map<string, real>)
    ensures Components(num, st, init + [(name, e)], weights)
         == if Scores(name, e, weights) && Usable(num, st, name) then
              Components(num, st, init, weights)
              + [Component(name, ZScore(num, st.probes[name], e.Value()),
                           Contribution(num, st.squash, st.probes[name], e), Weight(weights, name))]
            else Components(num, st, init, weights)
    ensures Skipped(num, st, init + [(name, e)], weights)
         == if Scores(name, e, weights) && !Usable(num, st, name) then Skipped(num, st, init, weights) + [name]
            else Skipped(num, st, init, weights)
  {
    assert (init + [(name, e)])[..|init|] == init;
  }

  class NormalizationState {
    var probes: map<string, Accumulator>
    var squash: string
    var minN: int

    /** Every probe has an accumulator of its own. */
    ghost predicate Valid()
      reads this
    {
      forall k, l :: k in probes && l in probes && k != l ==> probes[k] != probes[l]
    }

    function View(): Norm
      reads this, probes.Values
    {
      Norm(map k | k in probes :: probes[k].View(), squash, minN)
    }

    constructor (squash: string, minN: int)
      ensures Valid() && View() == Norm(map[], squash, minN) && probes == map[]
    {
      this.probes, this.squash, this.minN := map[], squash, minN;
    }

    method Update(raw: seq<(string, real)>)
      requires Valid()
      modifies this, probes.Values
      ensures Valid() && fresh(probes.Values - old(probes.Values))
      ensures View() == Norm(ObserveAll(old(View()).probes, raw), old(squash), old(minN))
    {
      for i := 0 to |raw|
        invariant Valid() && fresh(probes.Values - old(probes.Values))
        invariant View() == Norm(ObserveAll(old(View()).probes, raw[..i]), old(squash), old(minN))
      {
        ghost var before := View().probes;
        var (name, v) := raw[i];
        if name !in probes {
          var a := new Accumulator(EMPTY);
          probes := probes[name := a];
        }
        ghost var acc := probes[name];
        probes[name].Update(v);
        assert View().probes == Observe(before, raw[i]);
        assert raw[..i + 1] == raw[..i] + [raw[i]];
        FoldConcat(Observe, old(View()).probes, raw[..i], [raw[i]]);
      }
      assert raw[..|raw|] == raw;
    }

    method ScoreProbe(num: Numerics, stats: Accumulator, entry: Entry) returns (z: real, contrib: real)
      requires StdDev(num, stats.View()) > 0.0
      ensures z == ZScore(num, stats.View(), entry.Value())
      ensures contrib == Contribution(num, squash, stats.View(), entry)
    {
      z := (entry.Value() - stats.mean) / StdDev(num, stats.View());
      var signed := if entry.direction == Some("minimize") then -z else z;
      contrib := if squash == "tanh" then num.tanh(signed) else signed;
    }

    method Score(num: Numerics, probeResults: Probes, weights: map<string, real>) returns (r: Scored)
      requires Valid()
      ensures r == ScoreOf(num, View(), probeResults, weights)
    {
      var sum, den := 0.0, 0.0;
      var components: seq<Component>, skipped: seq<string> := [], [];
      for i := 0 to |probeResults|
        invariant components == Components(num, View(), probeResults[..i], weights)
        invariant skipped == Skipped(num, View(), probeResults[..i], weights)
        invariant sum == WeightedSum(components) && den == TotalWeight(components)
      {
        var (name, entry) := probeResults[i];
        ScoreStep(num, View(), probeResults[..i], name, entry, weights);
        assert probeResults[..i + 1] == probeResults[..i] + [(name, entry)];
        var direction := entry.direction.GetOr("record");
        var w := if name in weights then weights[name] else 0.0;
        if direction != "record" && w > 0.0 {
          if name !in probes || probes[name].n < minN || StdDev(num, probes[name].View()) <= 0.0 {
            skipped := skipped + [name];
          } else {
            var z, contrib := ScoreProbe(num, probes[name], entry);
            SumsStep(components, Component(name, z, contrib, w));
            sum := sum + Times(contrib, w);
            den := den + w;
            components := components + [Component(name, z, contrib, w)];
          }
        }
      }
      assert probeResults[..|probeResults|] == probeResults;
      r := Scored(if den > 0.0 then sum / den else 0.0, components, skipped);
    }

    /** An independent copy: the frozen state a round is scored with. */
    static method FromDict(d: Norm) returns (st: NormalizationState)
      ensures fresh(st) && fresh(st.probes.Values)
      ensures st.Valid() && st.View() == d
    {
      st := new NormalizationState(d.squash, d.minN);
      var names := d.probes.Keys;
      while names != {}
        invariant names <= d.probes.Keys && st.probes.Keys == d.probes.Keys - names
        invariant fresh(st) && st.Valid() && forall k :: k in st.probes ==> fresh(st.probes[k])
        invariant st.squash == d.squash && st.minN == d.minN
        invariant forall k :: k in st.probes ==> st.probes[k].View() == d.probes[k]
        decreases |names|
      {
        var name :| name in names;
        var a := new Accumulator(d.probes[name]);
        assert forall k :: k in st.probes ==> st.probes[k] != a;
        st.probes := st.probes[name := a];
        names := names - {name};
      }
    }
  }
}
