/**
  Model of `minimize_extraction` (icsc/semifinal/problem_b1.py). At each time step the
  defender either adds noise (no leak, trust drops by the query volume, allowed only
  while trust stays positive) or answers cleanly (the volume leaks, trust doubles up to
  a cap). The result is the least total leak.
 */
module Extraction {
  import opened Wrappers

  datatype Response = Noise | Clean

  /** Trust after a clean response: doubled, but never above the cap. */
  function TrustAfterClean(trust: int, maxTrust: int): (t: int)
    ensures t <= maxTrust
    ensures t == trust * 2 || t == maxTrust
    ensures trust * 2 <= maxTrust ==> t == trust * 2
  {
    Min(trust * 2, maxTrust)
  }

  /** The recursion `solve(t, trust)` without its memo; `None` plays the role of the
      `float("inf")` that marks the noise option as unavailable. */
  function Leak(vols: seq<int>, maxTrust: int, t: nat, trust: int): int
    requires t <= |vols|
    decreases |vols| - t
  {
    if t == |vols| then 0
    else
      var noise: Option<int> :=
        if trust - vols[t] > 0 then Some(Leak(vols, maxTrust, t + 1, trust - vols[t])) else None;
      var clean := vols[t] + Leak(vols, maxTrust, t + 1, TrustAfterClean(trust, maxTrust));
      if noise.Some? && noise.value <= clean then noise.value else clean
  }

  /** A plan answers every remaining query; it may add noise only while trust stays positive. */
  ghost predicate Admissible(vols: seq<int>, maxTrust: int, t: nat, trust: int, plan: seq<Response>)
    requires t <= |vols|
    decreases |vols| - t
  {
    |plan| == |vols| - t &&
    (t < |vols| ==>
      match plan[0]
      case Noise => trust - vols[t] > 0 && Admissible(vols, maxTrust, t + 1, trust - vols[t], plan[1..])
      case Clean => Admissible(vols, maxTrust, t + 1, TrustAfterClean(trust, maxTrust), plan[1..]))
  }

  /** What a plan leaks: the volumes of the queries answered cleanly. */
  function Cost(vols: seq<int>, t: nat, plan: seq<Response>): int
    requires t <= |vols| && |plan| == |vols| - t
    decreases |vols| - t
  {
    if t == |vols| then 0
    else (if plan[0] == Clean then vols[t] else 0) + Cost(vols, t + 1, plan[1..])
  }

  function Sum(vols: seq<int>, t: nat): int
    requires t <= |vols|
    decreases |vols| - t
  {
    if t == |vols| then 0 else vols[t] + Sum(vols, t + 1)
  }

  /** No admissible plan leaks less than `Leak`. */
  lemma {:induction false} LeakIsLowerBound(vols: seq<int>, maxTrust: int, t: nat, trust: int, plan: seq<Response>)
    requires t <= |vols| && Admissible(vols, maxTrust, t, trust, plan)
    ensures Leak(vols, maxTrust, t, trust) <= Cost(vols, t, plan)
    decreases |vols| - t
  {
    if t < |vols| {
      match plan[0]
      case Noise => LeakIsLowerBound(vols, maxTrust, t + 1, trust - vols[t], plan[1..]);
      case Clean => LeakIsLowerBound(vols, maxTrust, t + 1, TrustAfterClean(trust, maxTrust), plan[1..]);
    }
  }

  /** A plan that attains `Leak`: the choice `min` makes at every step. */
  function OptimalPlan(vols: seq<int>, maxTrust: int, t: nat, trust: int): (plan: seq<Response>)
    requires t <= |vols|
    ensures Admissible(vols, maxTrust, t, trust, plan)
    ensures Cost(vols, t, plan) == Leak(vols, maxTrust, t, trust)
    decreases |vols| - t
  {
    if t == |vols| then []
    else
      var clean := vols[t] + Leak(vols, maxTrust, t + 1, TrustAfterClean(trust, maxTrust));
      if trust - vols[t] > 0 && Leak(vols, maxTrust, t + 1, trust - vols[t]) <= clean then
        [Noise] + OptimalPlan(vols, maxTrust, t + 1, trust - vols[t])
      else
        [Clean] + OptimalPlan(vols, maxTrust, t + 1, TrustAfterClean(trust, maxTrust))
  }

  /** Answering everything cleanly is always admissible. */
  function AllClean(vols: seq<int>, maxTrust: int, t: nat, trust: int): (plan: seq<Response>)
    requires t <= |vols|
    ensures Admissible(vols, maxTrust, t, trust, plan)
    ensures Cost(vols, t, plan) == Sum(vols, t)
    decreases |vols| - t
  {
    if t == |vols| then [] else [Clean] + AllClean(vols, maxTrust, t + 1, TrustAfterClean(trust, maxTrust))
  }

  /** The clean branch is always available, so the result never exceeds the total volume. */
  lemma LeakAtMostTotal(vols: seq<int>, maxTrust: int, t: nat, trust: int)
    requires t <= |vols|
    ensures Leak(vols, maxTrust, t, trust) <= Sum(vols, t)
  {
    LeakIsLowerBound(vols, maxTrust, t, trust, AllClean(vols, maxTrust, t, trust));
  }

  /** With non-negative volumes nothing negative can leak. */
  lemma {:induction false} LeakNonNegative(vols: seq<int>, maxTrust: int, t: nat, trust: int)
    requires t <= |vols|
    requires forall i :: 0 <= i < |vols| ==> vols[i] >= 0
    ensures Leak(vols, maxTrust, t, trust) >= 0
    decreases |vols| - t
  {
    if t < |vols| {
      LeakNonNegative(vols, maxTrust, t + 1, trust - vols[t]);
      LeakNonNegative(vols, maxTrust, t + 1, TrustAfterClean(trust, maxTrust));
    }
  }

  /** `solve` together with the `memo` dictionary it fills in. */
  class Solver {
    const vols: seq<int>
    const maxTrust: int
    var memo: map<(nat, int), int>

    /** Every memoised entry holds the un-memoised result. */
    ghost predicate Valid()
      reads this
    {
      forall key :: key in memo ==> key.0 < |vols| && memo[key] == Leak(vols, maxTrust, key.0, key.1)
    }

    constructor (vols: seq<int>, maxTrust: int)
      ensures this.vols == vols && this.maxTrust == maxTrust && memo == map[] && Valid()
    {
      this.vols := vols;
      this.maxTrust := maxTrust;
      memo := map[];
    }

    method Solve(t: nat, trust: int) returns (r: int)
      requires Valid() && t <= |vols|
      modifies this
      ensures Valid() && r == Leak(vols, maxTrust, t, trust)
      decreases |vols| - t
    {
      if t == |vols| {
        return 0;
      }
      if (t, trust) in memo {
        return memo[(t, trust)];
      }
      var leakageNoise: Option<int> := None;
      var trustAfterNoise := trust - vols[t];
      if trustAfterNoise > 0 {
        var n := Solve(t + 1, trustAfterNoise);
        leakageNoise := Some(n);
      }
      var trustAfterClean := Min(trust * 2, maxTrust);
      var later := Solve(t + 1, trustAfterClean);
      var leakageClean := vols[t] + later;
      r := if leakageNoise.Some? && leakageNoise.value <= leakageClean then leakageNoise.value else leakageClean;
      memo := memo[(t, trust) := r];
    }
  }

  /** `minimize_extraction`: memoisation is transparent, the result is the least leak
      over all admissible plans, and an empty query list leaks nothing. */
  method MinimizeExtraction(queryVolumes: seq<int>, initialTrust: int, maxTrust: int) returns (r: int)
    ensures r == Leak(queryVolumes, maxTrust, 0, initialTrust)
    ensures |queryVolumes| == 0 ==> r == 0
  {
    var solver := new Solver(queryVolumes, maxTrust);
    r := solver.Solve(0, initialTrust);
  }
}
