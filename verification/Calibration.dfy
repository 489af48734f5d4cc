/** The job list of `calibrate` in loop.py: every seed runs `runs` times, spread over the workers. */
module Calibration {
  import opened Division

  /** `worker` is a position in the worker list. */
  datatype Job = Job(seed: string, run: nat, worker: nat)

  method BuildJobs(seeds: seq<string>, runs: nat, workers: nat) returns (jobs: seq<Job>)
    requires workers > 0
    ensures IsSchedule(seeds, runs, workers, jobs)
  {
    jobs := [];
    for run := 0 to runs
      invariant IsSchedule(seeds, run, workers, jobs)
    {
      for i := 0 to |seeds|
        invariant |jobs| == run * |seeds| + i
        invariant forall k :: 0 <= k < |jobs| ==> Scheduled(seeds, workers, jobs, k)
      {
        QuotientRemainder(|jobs|, |seeds|, run, i);
        var job := Job(seeds[i], run, (run * |seeds| + i) % workers);
        Appended(seeds, workers, jobs, job);
        jobs := jobs + [job];
      }
      NextRow(run, |seeds|);
    }
  }

  /** Job `k` is run k / S of seed k % S, on worker k % W. */
  ghost predicate Scheduled(seeds: seq<string>, workers: nat, jobs: seq<Job>, k: nat)
    requires workers > 0 && k < |jobs|
  {
    seeds != [] && jobs[k] == Job(seeds[k % |seeds|], k / |seeds|, k % workers)
  }

  ghost predicate IsSchedule(seeds: seq<string>, runs: nat, workers: nat, jobs: seq<Job>)
    requires workers > 0
  {
    |jobs| == runs * |seeds| && forall k :: 0 <= k < |jobs| ==> Scheduled(seeds, workers, jobs, k)
  }

  lemma Appended(seeds: seq<string>, workers: nat, jobs: seq<Job>, job: Job)
    requires workers > 0 && seeds != [] && forall k :: 0 <= k < |jobs| ==> Scheduled(seeds, workers, jobs, k)
    requires job == Job(seeds[|jobs| % |seeds|], |jobs| / |seeds|, |jobs| % workers)
    ensures forall k :: 0 <= k < |jobs + [job]| ==> Scheduled(seeds, workers, jobs + [job], k)
  {
    forall k | 0 <= k < |jobs + [job]|
      ensures Scheduled(seeds, workers, jobs + [job], k)
    {
      assert k < |jobs| ==> Scheduled(seeds, workers, jobs, k);
    }
  }

  lemma RowInside(run: nat, runs: nat, i: nat, s: nat)
    requires run < runs && i < s
    ensures run * s + i < runs * s
  {
    Distribute(runs, run, s);
    OneRow(runs - run, s);
  }

  predicate SamePair(a: Job, b: Job) {
    a.seed == b.seed && a.run == b.run
  }

  /** Every pair of a seed and a run is in the list exactly once. */
  lemma EachPairOnce(seeds: seq<string>, runs: nat, workers: nat, jobs: seq<Job>, i: nat, run: nat)
    requires workers > 0 && IsSchedule(seeds, runs, workers, jobs) && i < |seeds| && run < runs
    requires forall a, b :: 0 <= a < b < |seeds| ==> seeds[a] != seeds[b]
    ensures exists k :: 0 <= k < |jobs| && jobs[k].seed == seeds[i] && jobs[k].run == run
    ensures forall k, l :: 0 <= k < |jobs| && 0 <= l < |jobs| && SamePair(jobs[k], jobs[l]) ==> k == l
  {
    var k := run * |seeds| + i;
    RowInside(run, runs, i, |seeds|);
    QuotientRemainder(k, |seeds|, run, i);
    assert Scheduled(seeds, workers, jobs, k);
    forall k, l | 0 <= k < |jobs| && 0 <= l < |jobs| && jobs[k].seed == jobs[l].seed && jobs[k].run == jobs[l].run
      ensures k == l
    {
      SamePairSameJob(seeds, workers, jobs, k, l);
    }
  }

  lemma SamePairSameJob(seeds: seq<string>, workers: nat, jobs: seq<Job>, k: nat, l: nat)
    requires workers > 0 && k < |jobs| && l < |jobs|
    requires Scheduled(seeds, workers, jobs, k) && Scheduled(seeds, workers, jobs, l)
    requires forall a, b :: 0 <= a < b < |seeds| ==> seeds[a] != seeds[b]
    requires jobs[k].seed == jobs[l].seed && jobs[k].run == jobs[l].run
    ensures k == l
  {
    var s := |seeds|;
    assert k == (k / s) * s + k % s && l == (l / s) * s + l % s;
    var a, b := k % s, l % s;
    assert a == b;
  }

  /** The number of jobs of one worker. */
  function Load(jobs: seq<Job>, w: nat): nat {
    if jobs == [] then 0 else Load(jobs[..|jobs| - 1], w) + if jobs[|jobs| - 1].worker == w then 1 else 0
  }

  /** The full rounds, and one more job for the workers before the remainder. */
  function Share(n: nat, workers: nat, w: nat): nat
    requires workers > 0
  {
    n / workers + if w < n % workers then 1 else 0
  }

  lemma ShareGrows(n: nat, workers: nat, w: nat)
    requires workers > 0 && w < workers
    ensures Share(n + 1, workers, w) == Share(n, workers, w) + if n % workers == w then 1 else 0
  {
    NextQuotient(n, workers);
  }

  lemma {:induction false} LoadOf(jobs: seq<Job>, workers: nat, w: nat)
    requires workers > 0 && w < workers && forall k :: 0 <= k < |jobs| ==> jobs[k].worker == k % workers
    ensures Load(jobs, w) == Share(|jobs|, workers, w)
    decreases |jobs|
  {
    if jobs != [] {
      var n := |jobs| - 1;
      LoadOf(jobs[..n], workers, w);
      ShareGrows(n, workers, w);
    }
  }

  /** The load is balanced: any two workers differ by at most one job. */
  lemma LoadsBalanced(seeds: seq<string>, runs: nat, workers: nat, jobs: seq<Job>, v: nat, w: nat)
    requires workers > 0 && IsSchedule(seeds, runs, workers, jobs) && v < workers && w < workers
    ensures Load(jobs, v) <= Load(jobs, w) + 1
  {
    forall k | 0 <= k < |jobs|
      ensures jobs[k].worker == k % workers
    {
      assert Scheduled(seeds, workers, jobs, k);
    }
    LoadOf(jobs, workers, v);
    LoadOf(jobs, workers, w);
  }
}
