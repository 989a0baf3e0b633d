/** The HC optimisation dialog: from a dimensioning result and a maximum
    occupancy it proposes a new headcount per interval (cut by 20% where the
    interval is underused, raised by 20% where it is overloaded), estimates
    the resulting occupancy, and sums up the savings with a few
    recommendations. */
module HcOptimization {
  import opened Wrappers
  import opened JsRuntime
  import opened OccupancyAnalysis

  /** The form's parameters. */
  datatype OptimizationParams = OptimizationParams(targetSLA: real, maxOccupancy: real)

  /** The form schema: targetSLA in [1, 100], maxOccupancy in [50, 95]. */
  predicate ValidParams(params: OptimizationParams)
  {
    1.0 <= params.targetSLA <= 100.0 && 50.0 <= params.maxOccupancy <= 95.0
  }

  /** The parts of the dimensioning result the dialog reads. */
  datatype CurrentResult = CurrentResult(
    totalHC: Option<real>,
    avgOccupancy: Option<real>,
    hcDistribution: Option<seq<nat>>,
    occupancyData: Option<seq<real>>)

  /** One interval before and after optimisation. A None occupancy is the
      NaN that a zero headcount produces (0 / 0). */
  datatype OptimizedInterval = OptimizedInterval(
    interval: nat,
    originalHC: nat,
    optimizedHC: int,
    originalOccupancy: real,
    optimizedOccupancy: Option<real>,
    improvement: Option<real>)

  datatype Figures = Figures(totalHC: real, avgOccupancy: Option<int>, overloadedPeriods: nat, underutilizedPeriods: nat)

  datatype Improvements = Improvements(hcSavings: real, occupancyBalance: bool, costSavings: real)

  /** A recommendation and the figure its text quotes. */
  datatype Advice = ReduceHC(savings: real) | RedistributeShifts(peakPeriods: nat) | Flexibilise(flexiblePeriods: nat)

  datatype Optimization = Optimization(
    current: Figures,
    optimized: Figures,
    improvements: Improvements,
    recommendations: seq<Advice>,
    detailedResults: seq<OptimizedInterval>)

  /** The monthly cost of one agent the savings are priced at. */
  const CostPerHC: real := 5000.0

  // ---------------------------------------------------------------------------
  // One interval

  /** The reduction rule: underused (below 50%) with more than one agent. */
  predicate ReduceRule(hc: nat, occupancy: real)
  {
    occupancy < 50.0 && hc > 1
  }

  /** The increase rule: above the maximum occupancy. */
  predicate IncreaseRule(occupancy: real, maxOccupancy: real)
  {
    occupancy > maxOccupancy
  }

  /** The proposed headcount of one interval; the increase rule is applied
      last and so wins. */
  function OptimizedHC(hc: nat, occupancy: real, maxOccupancy: real): (r: int)
    ensures IncreaseRule(occupancy, maxOccupancy) ==> hc as real * 1.2 <= r as real < hc as real * 1.2 + 1.0
    ensures !IncreaseRule(occupancy, maxOccupancy) && ReduceRule(hc, occupancy) ==>
              1 <= r <= hc && hc as real * 0.8 <= r as real < hc as real * 0.8 + 1.0
    ensures !IncreaseRule(occupancy, maxOccupancy) && !ReduceRule(hc, occupancy) ==> r == hc
  {
    var cut := Ceil(hc as real * 0.8);
    var reduced := if ReduceRule(hc, occupancy) then (if cut >= 1 then cut else 1) else hc;
    if IncreaseRule(occupancy, maxOccupancy) then Ceil(hc as real * 1.2) else reduced
  }

  /** An increase never lowers the headcount and a reduction never raises
      it; every staffed interval stays staffed. */
  lemma {:induction false} OptimizedHCBounds(hc: nat, occupancy: real, maxOccupancy: real)
    ensures IncreaseRule(occupancy, maxOccupancy) ==> OptimizedHC(hc, occupancy, maxOccupancy) >= hc
    ensures hc > 0 ==> OptimizedHC(hc, occupancy, maxOccupancy) >= 1
    ensures hc == 0 ==> OptimizedHC(hc, occupancy, maxOccupancy) == 0
  {
  }

  /** The reduction cuts only teams of five or more: ceil(0.8·hc) is hc
      itself for 2, 3 and 4 agents. */
  lemma {:induction false} ReductionNeedsFive(hc: nat, occupancy: real, maxOccupancy: real)
    requires ReduceRule(hc, occupancy) && !IncreaseRule(occupancy, maxOccupancy)
    ensures OptimizedHC(hc, occupancy, maxOccupancy) < hc <==> hc >= 5
  {
    var r := OptimizedHC(hc, occupancy, maxOccupancy);
    if hc >= 5 {
      assert hc as real * 0.8 <= (hc - 1) as real;
      assert r as real < (hc - 1) as real + 1.0;
    } else {
      assert (hc - 1) as real < hc as real * 0.8;
    }
  }

  /** With the schema's maxOccupancy >= 50 the two rules never both fire. */
  lemma {:induction false} RulesExclusive(hc: nat, occupancy: real, params: OptimizationParams)
    requires ValidParams(params)
    ensures !(ReduceRule(hc, occupancy) && IncreaseRule(occupancy, params.maxOccupancy))
  {
  }

  /** occupancy / (optimizedHC / hc), clamped to [0, 95]; NaN (None) when
      the interval has no agents. */
  function OptimizedOccupancy(hc: nat, occupancy: real, optimizedHC: int): (r: Option<real>)
    requires hc > 0 ==> optimizedHC > 0
    ensures r.None? <==> hc == 0
    ensures r.Some? ==> 0.0 <= r.value <= 95.0
    ensures r.Some? && 0.0 <= occupancy * hc as real / optimizedHC as real <= 95.0 ==>
              r.value == occupancy * hc as real / optimizedHC as real
    ensures r.Some? && occupancy * hc as real / optimizedHC as real > 95.0 ==> r.value == 95.0
    ensures r.Some? && occupancy * hc as real / optimizedHC as real < 0.0 ==> r.value == 0.0
  {
    if hc == 0 then None
    else
      var hcRatio := optimizedHC as real / hc as real;
      assert occupancy / hcRatio == occupancy * hc as real / optimizedHC as real;
      Some(Min2(95.0, Max2(0.0, occupancy / hcRatio)))
  }

  /** occupancy - occupancy / hcRatio, unclamped; NaN (None) with no agents.
      The dialog shows a positive improvement as a drop ("-N%") and a
      negative one as a rise ("+N%"): for a busy interval it is positive
      exactly when agents are added and negative exactly when some are cut. */
  function Improvement(hc: nat, occupancy: real, optimizedHC: int): (r: Option<real>)
    requires hc > 0 ==> optimizedHC > 0
    ensures r.None? <==> hc == 0
    ensures r.Some? && optimizedHC == hc ==> r.value == 0.0
    ensures r.Some? && occupancy > 0.0 ==>
              (r.value > 0.0 <==> optimizedHC > hc) && (r.value < 0.0 <==> optimizedHC < hc)
    ensures r.Some? && 0.0 <= occupancy * hc as real / optimizedHC as real <= 95.0 ==>
              r.value == occupancy - OptimizedOccupancy(hc, occupancy, optimizedHC).value
  {
    if hc == 0 then None
    else
      RatioQuotient(occupancy, hc as real, optimizedHC as real);
      ScaledBelow(occupancy, hc as real, optimizedHC as real);
      Some(occupancy - occupancy / (optimizedHC as real / hc as real))
  }

  /** Dividing by the ratio n / h is scaling by h / n. */
  lemma {:induction false} RatioQuotient(o: real, h: real, n: real)
    requires h > 0.0 && n > 0.0
    ensures o / (n / h) == o * h / n
  {
    var q := o * h / n;
    assert q * (n / h) == o by {
      assert q * n == o * h;
      assert q * (n / h) == (q * n) / h;
    }
  }

  /** For positive o, o·h/n is below o exactly when h < n (h, n > 0). */
  lemma {:induction false} ScaledBelow(o: real, h: real, n: real)
    requires h > 0.0 && n > 0.0
    ensures o > 0.0 ==> (o * h / n < o <==> h < n) && (o * h / n > o <==> h > n)
  {
    if o <= 0.0 {
      return;
    }
    var q := o * h / n;
    assert q * n == o * h;
    assert q - o == o * (h - n) / n by {
      assert (q - o) * n == o * (h - n);
    }
    if h < n {
      DivPos(o * (n - h), n);
      MulPos(o, n - h);
      assert o * (h - n) / n == -(o * (n - h) / n);
    } else if h > n {
      MulPos(o, h - n);
      DivPos(o * (h - n), n);
    }
  }

  /** The record of one interval. */
  function OptimizeInterval(index: nat, hc: nat, occupancy: real, maxOccupancy: real): (r: OptimizedInterval)
    ensures r.interval == index && r.originalHC == hc && r.originalOccupancy == occupancy
    ensures r.optimizedHC == OptimizedHC(hc, occupancy, maxOccupancy)
    ensures r.optimizedOccupancy.None? <==> hc == 0
    ensures r.optimizedOccupancy.Some? ==> 0.0 <= r.optimizedOccupancy.value <= 95.0
    ensures r.improvement.None? <==> hc == 0
    ensures r.improvement.Some? && occupancy > 0.0 ==>
              (r.improvement.value > 0.0 <==> r.optimizedHC > hc) && (r.improvement.value < 0.0 <==> r.optimizedHC < hc)
    ensures r.improvement.Some? && r.optimizedOccupancy.Some?
            && 0.0 <= occupancy * hc as real / r.optimizedHC as real <= 95.0 ==>
              r.improvement.value == occupancy - r.optimizedOccupancy.value
  {
    var optimizedHC := OptimizedHC(hc, occupancy, maxOccupancy);
    OptimizedHCBounds(hc, occupancy, maxOccupancy);
    OptimizedInterval(index, hc, optimizedHC, occupancy,
      OptimizedOccupancy(hc, occupancy, optimizedHC), Improvement(hc, occupancy, optimizedHC))
  }

  // ---------------------------------------------------------------------------
  // The whole curve

  /** detailedResults mapped through the two rules. */
  function OptimizedResults(hcs: seq<nat>, occupancyData: seq<real>, maxOccupancy: real): (r: seq<OptimizedInterval>)
    ensures |r| == |hcs|
    ensures forall i :: 0 <= i < |hcs| ==> r[i] == OptimizeInterval(i, hcs[i], OccupancyAt(occupancyData, i), maxOccupancy)
  {
    seq(|hcs|, i requires 0 <= i < |hcs| => OptimizeInterval(i, hcs[i], OccupancyAt(occupancyData, i), maxOccupancy))
  }

  /** reduce((m, r) => Math.max(m, r.optimizedHC), 0) */
  function MaxOptimizedHC(results: seq<OptimizedInterval>): (m: int)
    ensures m >= 0
    ensures forall i :: 0 <= i < |results| ==> results[i].optimizedHC <= m
    ensures m == 0 || exists i :: 0 <= i < |results| && results[i].optimizedHC == m
  {
    if results == [] then 0
    else
      var last := |results| - 1;
      var m := MaxOptimizedHC(results[..last]);
      if m >= results[last].optimizedHC then m else results[last].optimizedHC
  }

  /** The optimised occupancy of a record, NaN counting as no number. */
  function OptimizedOccupancies(results: seq<OptimizedInterval>): (r: Option<seq<real>>)
    ensures r.Some? ==> |r.value| == |results|
  {
    if results == [] then Some([])
    else
      var last := |results| - 1;
      match (OptimizedOccupancies(results[..last]), results[last].optimizedOccupancy)
      case (Some(prefix), Some(v)) => Some(prefix + [v])
      case _ => None
  }

  /** optimizedResults' mean occupancy: NaN for an empty list or when any
      interval's is NaN. */
  function OptimizedAvgOccupancy(results: seq<OptimizedInterval>): Option<real>
  {
    match OptimizedOccupancies(results)
    case Some(values) => Mean(values)
    case None => None
  }

  function Abs(x: real): real
  {
    if x < 0.0 then -x else x
  }

  function RoundOption(x: Option<real>): Option<int>
  {
    match x
    case Some(v) => Some(Round(v))
    case None => None
  }

  /** Some occupancy, NaN never matching. */
  predicate OptimizedAbove(r: OptimizedInterval, bound: real)
  {
    r.optimizedOccupancy.Some? && r.optimizedOccupancy.value > bound
  }

  predicate OptimizedBelow(r: OptimizedInterval, bound: real)
  {
    r.optimizedOccupancy.Some? && r.optimizedOccupancy.value < bound
  }

  /** generateOptimization */
  function GenerateOptimization(currentResult: CurrentResult, params: OptimizationParams): (o: Optimization)
    ensures var hcs := UnwrapOr(currentResult.hcDistribution, []);
            var data := UnwrapOr(currentResult.occupancyData, []);
            && o.detailedResults == OptimizedResults(hcs, data, params.maxOccupancy)
            && o.current.totalHC == OrElse(currentResult.totalHC, 0.0)
            && o.optimized.totalHC == MaxOptimizedHC(o.detailedResults) as real
            && o.improvements.hcSavings == o.current.totalHC - o.optimized.totalHC
            && o.improvements.costSavings == o.improvements.hcSavings * CostPerHC
            && o.recommendations == AdviceFor(o.detailedResults, o.improvements.hcSavings)
    ensures var hcs := UnwrapOr(currentResult.hcDistribution, []);
            var data := UnwrapOr(currentResult.occupancyData, []);
            var intervals := seq(|hcs|, i requires 0 <= i < |hcs| => (hcs[i], OccupancyAt(data, i)));
            && o.current.avgOccupancy == Some(Round(OrElse(currentResult.avgOccupancy, 0.0)))
            && o.current.overloadedPeriods == CountWhere(intervals, (p: (nat, real)) => p.1 > params.maxOccupancy)
            && o.current.underutilizedPeriods == CountWhere(intervals, (p: (nat, real)) => p.1 < 50.0)
    ensures && o.optimized.avgOccupancy == RoundOption(OptimizedAvgOccupancy(o.detailedResults))
            && o.optimized.overloadedPeriods
               == CountWhere(o.detailedResults, (r: OptimizedInterval) => OptimizedAbove(r, params.maxOccupancy))
            && o.optimized.underutilizedPeriods
               == CountWhere(o.detailedResults, (r: OptimizedInterval) => OptimizedBelow(r, 50.0))
    ensures o.improvements.occupancyBalance
        <==> var avg := OptimizedAvgOccupancy(o.detailedResults);
             avg.Some? && Abs(avg.value - 75.0) < Abs(OrElse(currentResult.avgOccupancy, 0.0) - 75.0)
  {
    var currentHC := OrElse(currentResult.totalHC, 0.0);
    var currentOccupancy := OrElse(currentResult.avgOccupancy, 0.0);
    var hcs := UnwrapOr(currentResult.hcDistribution, []);
    var data := UnwrapOr(currentResult.occupancyData, []);
    var intervals := seq(|hcs|, i requires 0 <= i < |hcs| => (hcs[i], OccupancyAt(data, i)));
    var optimizedResults := OptimizedResults(hcs, data, params.maxOccupancy);
    var optimizedTotalHC := MaxOptimizedHC(optimizedResults) as real;
    var optimizedAvg := OptimizedAvgOccupancy(optimizedResults);
    var hcSavings := currentHC - optimizedTotalHC;
    var balance := optimizedAvg.Some? && Abs(optimizedAvg.value - 75.0) < Abs(currentOccupancy - 75.0);
    Optimization(
      Figures(currentHC, Some(Round(currentOccupancy)),
        CountWhere(intervals, (p: (nat, real)) => p.1 > params.maxOccupancy),
        CountWhere(intervals, (p: (nat, real)) => p.1 < 50.0)),
      Figures(optimizedTotalHC, RoundOption(optimizedAvg),
        CountWhere(optimizedResults, (r: OptimizedInterval) => OptimizedAbove(r, params.maxOccupancy)),
        CountWhere(optimizedResults, (r: OptimizedInterval) => OptimizedBelow(r, 50.0))),
      Improvements(hcSavings, balance, hcSavings * CostPerHC),
      AdviceFor(optimizedResults, hcSavings),
      optimizedResults)
  }

  /** When no interval is underused or overloaded nothing changes: every
      proposed headcount is the current one. */
  lemma {:induction false} NothingToOptimize(hcs: seq<nat>, occupancyData: seq<real>, maxOccupancy: real)
    requires forall i :: 0 <= i < |hcs| ==> 50.0 <= OccupancyAt(occupancyData, i) <= maxOccupancy
    ensures forall i :: 0 <= i < |hcs| ==> OptimizedResults(hcs, occupancyData, maxOccupancy)[i].optimizedHC == hcs[i]
  {
  }

  /** Every staffed interval's optimised occupancy is a number in [0, 95]. */
  lemma {:induction false} StaffedIntervalsClamped(hcs: seq<nat>, occupancyData: seq<real>, maxOccupancy: real)
    requires forall i :: 0 <= i < |hcs| ==> hcs[i] > 0
    ensures OptimizedOccupancies(OptimizedResults(hcs, occupancyData, maxOccupancy)).Some?
  {
    StaffedOccupancies(OptimizedResults(hcs, occupancyData, maxOccupancy));
  }

  /** With every interval staffed, the optimised mean occupancy is a number
      in [0, 95]. */
  lemma {:induction false} OptimizedAverageInRange(hcs: seq<nat>, occupancyData: seq<real>, maxOccupancy: real)
    requires |hcs| > 0 && forall i :: 0 <= i < |hcs| ==> hcs[i] > 0
    ensures var avg := OptimizedAvgOccupancy(OptimizedResults(hcs, occupancyData, maxOccupancy));
            avg.Some? && 0.0 <= avg.value <= 95.0
  {
    var results := OptimizedResults(hcs, occupancyData, maxOccupancy);
    StaffedOccupancies(results);
    var values := OptimizedOccupancies(results).value;
    assert forall i :: 0 <= i < |values| ==> 0.0 <= values[i] <= 95.0;
  }

  lemma {:induction false} StaffedOccupancies(results: seq<OptimizedInterval>)
    requires forall i :: 0 <= i < |results| ==> results[i].optimizedOccupancy.Some?
    ensures OptimizedOccupancies(results).Some?
    ensures forall i :: 0 <= i < |results| ==> OptimizedOccupancies(results).value[i] == results[i].optimizedOccupancy.value
    decreases |results|
  {
    if results != [] {
      StaffedOccupancies(results[..|results| - 1]);
    }
  }

  // ---------------------------------------------------------------------------
  // Recommendations

  function Optional(advice: Advice, given: bool): seq<Advice>
  {
    if given then [advice] else []
  }

  /** Intervals whose optimised occupancy is above 80%. */
  function PeakPeriods(results: seq<OptimizedInterval>): nat
  {
    CountWhere(results, (r: OptimizedInterval) => OptimizedAbove(r, 80.0))
  }

  /** Intervals whose optimised occupancy is below 60%. */
  function FlexiblePeriods(results: seq<OptimizedInterval>): nat
  {
    CountWhere(results, (r: OptimizedInterval) => OptimizedBelow(r, 60.0))
  }

  /** The recommendations as a value: savings, then redistribution, then
      flexibilisation, each only when its condition holds. */
  function AdviceFor(results: seq<OptimizedInterval>, hcSavings: real): seq<Advice>
  {
    Optional(ReduceHC(hcSavings), hcSavings > 0.0)
      + Optional(RedistributeShifts(PeakPeriods(results)), PeakPeriods(results) > 0)
      + Optional(Flexibilise(FlexiblePeriods(results)), FlexiblePeriods(results) > 5)
  }

  /** generateOptimizationRecommendations: push each recommendation whose
      condition holds. */
  method GenerateOptimizationRecommendations(results: seq<OptimizedInterval>, hcSavings: real)
    returns (recommendations: seq<Advice>)
    ensures recommendations == AdviceFor(results, hcSavings)
  {
    recommendations := [];
    if hcSavings > 0.0 {
      recommendations := recommendations + [ReduceHC(hcSavings)];
    }
    var peakPeriods := PeakPeriods(results);
    if peakPeriods > 0 {
      recommendations := recommendations + [RedistributeShifts(peakPeriods)];
    }
    var flexiblePeriods := FlexiblePeriods(results);
    if flexiblePeriods > 5 {
      recommendations := recommendations + [Flexibilise(flexiblePeriods)];
    }
  }

  /** At most three recommendations, possibly none: the savings one iff
      there are savings, the redistribution one iff some interval is above
      80%, the flexibilisation one iff more than five are below 60%. */
  lemma {:induction false} AdviceRules(results: seq<OptimizedInterval>, hcSavings: real)
    ensures var r := AdviceFor(results, hcSavings);
            && |r| <= 3
            && (ReduceHC(hcSavings) in r <==> hcSavings > 0.0)
            && ((exists k :: RedistributeShifts(k) in r) <==> exists i :: 0 <= i < |results| && OptimizedAbove(results[i], 80.0))
            && ((exists k :: Flexibilise(k) in r) <==> FlexiblePeriods(results) > 5)
            && (|r| > 0 && r[0].ReduceHC? <==> hcSavings > 0.0)
  {
    var r := AdviceFor(results, hcSavings);
    var peaks := PeakPeriods(results);
    if exists k :: RedistributeShifts(k) in r {
      assert peaks > 0;
    }
    if peaks > 0 {
      assert RedistributeShifts(peaks) in r;
    }
    if FlexiblePeriods(results) > 5 {
      assert Flexibilise(FlexiblePeriods(results)) in r;
    }
  }
}
