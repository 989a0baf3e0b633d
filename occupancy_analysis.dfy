/** The occupancy analysis dialog: it turns the result of a dimensioning
    run into a summary (mean, highest and lowest occupancy), a count of
    overloaded, underused and well-used intervals, a per-interval table and
    a short list of recommendations. */
module OccupancyAnalysis {
  import opened Wrappers
  import opened JsRuntime

  /** The parts of a dimensioning result the dialog reads; each may be
      missing from the response. */
  datatype CalculationResults = CalculationResults(
    occupancyData: Option<seq<real>>,
    hcDistribution: Option<seq<int>>,
    totalHC: Option<real>)

  datatype Summary = Summary(avgOccupancy: int, maxOccupancy: int, minOccupancy: int, totalHC: real)

  datatype PeriodCounts = PeriodCounts(overloaded: nat, underutilized: nat, optimal: nat)

  datatype DetailedResult = DetailedResult(hc: int, occupancy: real, interval: nat)

  /** The recommendation rules, in the order they are checked. */
  datatype Rule = HighAverage | CriticalPeaks | ManyOverloaded | LowOccupancy | Adequate

  datatype Severity = Warning | Error | Info | Success

  datatype Analysis = Analysis(
    summary: Summary,
    periods: PeriodCounts,
    recommendations: seq<Rule>,
    detailedResults: seq<DetailedResult>)

  // ---------------------------------------------------------------------------
  // Buckets

  /** Above 85% occupancy. */
  predicate IsOverloaded(occupancy: real) { occupancy > 85.0 }

  /** Below 50% occupancy. */
  predicate IsUnderutilized(occupancy: real) { occupancy < 50.0 }

  /** From 50% to 85% occupancy, both ends included. */
  predicate IsOptimal(occupancy: real) { 50.0 <= occupancy <= 85.0 }

  /** data.filter(keep) */
  function Filter(data: seq<real>, keep: real -> bool): (r: seq<real>)
    ensures |r| <= |data|
    ensures forall x :: x in r <==> x in data && keep(x)
  {
    if data == [] then []
    else
      var last := |data| - 1;
      assert data == data[..last] + [data[last]];
      Filter(data[..last], keep) + (if keep(data[last]) then [data[last]] else [])
  }

  /** Every occupancy lands in exactly one bucket, so the three counts add
      up to the number of intervals. */
  lemma {:induction false} BucketsPartition(data: seq<real>)
    ensures |Filter(data, IsOverloaded)| + |Filter(data, IsUnderutilized)| + |Filter(data, IsOptimal)| == |data|
    decreases |data|
  {
    if data != [] {
      BucketsPartition(data[..|data| - 1]);
    }
  }

  // ---------------------------------------------------------------------------
  // The summary

  /** reduce(+) / length: NaN, here None, for no data. The mean lies
      between the lowest and the highest value. */
  function Mean(data: seq<real>): (r: Option<real>)
    ensures r.None? <==> |data| == 0
    ensures r.Some? ==> MinOf(data) <= r.value <= MaxOf(data)
  {
    if |data| == 0 then None
    else
      MeanBounds(data, MinOf(data), MaxOf(data));
      Some(Sum(data) / |data| as real)
  }

  /** Math.max(...data): -Infinity, here None, for no data. */
  function Largest(data: seq<real>): (r: Option<real>)
    ensures r.None? <==> |data| == 0
    ensures r.Some? ==> r.value in data && forall i :: 0 <= i < |data| ==> data[i] <= r.value
  {
    if |data| == 0 then None else Some(MaxOf(data))
  }

  /** Math.min(...data): +Infinity, here None, for no data. */
  function Smallest(data: seq<real>): (r: Option<real>)
    ensures r.None? <==> |data| == 0
    ensures r.Some? ==> r.value in data && forall i :: 0 <= i < |data| ==> r.value <= data[i]
  {
    if |data| == 0 then None else Some(MinOf(data))
  }

  /** isNaN(x) / !isFinite(x) ? 0 : Math.round(x) */
  function RoundedOrZero(x: Option<real>): (r: int)
    ensures x.None? ==> r == 0
    ensures x.Some? ==> x.value - 0.5 < r as real <= x.value + 0.5
  {
    match x
    case None => 0
    case Some(v) => Round(v)
  }

  lemma {:induction false} RoundMonotone(x: real, y: real)
    requires x <= y
    ensures Round(x) <= Round(y)
  {
  }

  /** Occupancies in [0, 100] give summary figures in [0, 100] with
      min <= avg <= max. */
  lemma {:induction false} SummaryBounds(data: seq<real>)
    requires |data| > 0
    requires forall i :: 0 <= i < |data| ==> 0.0 <= data[i] <= 100.0
    ensures var avg := RoundedOrZero(Mean(data));
            var max := RoundedOrZero(Largest(data));
            var min := RoundedOrZero(Smallest(data));
            0 <= min <= avg <= max <= 100
  {
    var lo := Smallest(data).value;
    var hi := Largest(data).value;
    RoundMonotone(lo, Mean(data).value);
    RoundMonotone(Mean(data).value, hi);
  }

  // ---------------------------------------------------------------------------
  // Recommendations

  function SeverityOf(rule: Rule): Severity
  {
    match rule
    case HighAverage => Warning
    case CriticalPeaks => Error
    case ManyOverloaded => Warning
    case LowOccupancy => Info
    case Adequate => Success
  }

  /** Position of a rule in the checking order. */
  function Rank(rule: Rule): nat
  {
    match rule
    case HighAverage => 0
    case CriticalPeaks => 1
    case ManyOverloaded => 2
    case LowOccupancy => 3
    case Adequate => 4
  }

  /** Whether a rule's condition holds. A NaN mean or a -Infinity maximum
      (None) makes every comparison false. */
  predicate Fires(rule: Rule, avg: Option<real>, max: Option<real>, overloadedCount: nat)
  {
    match rule
    case HighAverage => avg.Some? && avg.value > 85.0
    case CriticalPeaks => max.Some? && max.value > 95.0
    case ManyOverloaded => overloadedCount > 10
    case LowOccupancy => avg.Some? && avg.value < 60.0
    case Adequate => false
  }

  /** The four conditional rules, in checking order. */
  const ConditionalRules: seq<Rule> := [HighAverage, CriticalPeaks, ManyOverloaded, LowOccupancy]

  /** The rules of `rules` that fire, in order. */
  function FiredRules(rules: seq<Rule>, avg: Option<real>, max: Option<real>, overloadedCount: nat): (r: seq<Rule>)
    ensures forall rule :: rule in r <==> rule in rules && Fires(rule, avg, max, overloadedCount)
    ensures |r| <= |rules|
  {
    if rules == [] then []
    else
      assert rules == [rules[0]] + rules[1..];
      (if Fires(rules[0], avg, max, overloadedCount) then [rules[0]] else [])
        + FiredRules(rules[1..], avg, max, overloadedCount)
  }

  /** What the dialog recommends: the conditional rules that fire, or the
      single 'adequate' message when none does. */
  function RecommendationsFor(avg: Option<real>, max: Option<real>, overloadedCount: nat): seq<Rule>
  {
    var fired := FiredRules(ConditionalRules, avg, max, overloadedCount);
    if fired == [] then [Adequate] else fired
  }

  function Only(rule: Rule, fires: bool): seq<Rule>
  {
    if fires then [rule] else []
  }

  /** Filtering a list with a rule in front: that rule if it fires, then
      the filtered rest. */
  lemma {:induction false} FiredCons(rule: Rule, rest: seq<Rule>, avg: Option<real>, max: Option<real>, overloadedCount: nat)
    ensures FiredRules([rule] + rest, avg, max, overloadedCount)
         == Only(rule, Fires(rule, avg, max, overloadedCount)) + FiredRules(rest, avg, max, overloadedCount)
  {
    assert ([rule] + rest)[1..] == rest;
  }

  /** The fired rules spelled out, one optional entry per rule. */
  lemma {:induction false} FiredConditionalRules(avg: Option<real>, max: Option<real>, overloadedCount: nat)
    ensures FiredRules(ConditionalRules, avg, max, overloadedCount)
         == Only(HighAverage, Fires(HighAverage, avg, max, overloadedCount))
          + Only(CriticalPeaks, Fires(CriticalPeaks, avg, max, overloadedCount))
          + Only(ManyOverloaded, Fires(ManyOverloaded, avg, max, overloadedCount))
          + Only(LowOccupancy, Fires(LowOccupancy, avg, max, overloadedCount))
  {
    var (a, m, c) := (avg, max, overloadedCount);
    var (ha, cp, mo, lo) := (Only(HighAverage, Fires(HighAverage, a, m, c)), Only(CriticalPeaks, Fires(CriticalPeaks, a, m, c)),
                             Only(ManyOverloaded, Fires(ManyOverloaded, a, m, c)), Only(LowOccupancy, Fires(LowOccupancy, a, m, c)));
    assert ConditionalRules == [HighAverage] + ([CriticalPeaks] + ([ManyOverloaded] + ([LowOccupancy] + [])));
    FiredCons(HighAverage, [CriticalPeaks] + ([ManyOverloaded] + ([LowOccupancy] + [])), a, m, c);
    FiredCons(CriticalPeaks, [ManyOverloaded] + ([LowOccupancy] + []), a, m, c);
    FiredCons(ManyOverloaded, [LowOccupancy] + [], a, m, c);
    FiredCons(LowOccupancy, [], a, m, c);
    AppendNothing(lo);
    AppendAssoc(ha, cp, mo + lo);
    AppendAssoc(ha + cp, mo, lo);
  }

  /** generateRecommendations: push each rule whose condition holds, then
      the success message if nothing was pushed. */
  method GenerateRecommendations(avg: Option<real>, max: Option<real>, overloadedCount: nat)
    returns (recommendations: seq<Rule>)
    ensures recommendations == RecommendationsFor(avg, max, overloadedCount)
  {
    recommendations := [];
    if avg.Some? && avg.value > 85.0 {
      recommendations := recommendations + [HighAverage];
    }
    ghost var pushed := recommendations;
    assert pushed == Only(HighAverage, Fires(HighAverage, avg, max, overloadedCount));
    if max.Some? && max.value > 95.0 {
      recommendations := recommendations + [CriticalPeaks];
    } else {
      AppendNothing(pushed);
    }
    pushed := recommendations;
    if overloadedCount > 10 {
      recommendations := recommendations + [ManyOverloaded];
    } else {
      AppendNothing(pushed);
    }
    pushed := recommendations;
    if avg.Some? && avg.value < 60.0 {
      recommendations := recommendations + [LowOccupancy];
    } else {
      AppendNothing(pushed);
    }
    FiredConditionalRules(avg, max, overloadedCount);
    if |recommendations| == 0 {
      recommendations := recommendations + [Adequate];
    }
  }

  /** Rules listed in checking order. */
  predicate InRankOrder(rules: seq<Rule>)
  {
    forall i, j :: 0 <= i < j < |rules| ==> Rank(rules[i]) < Rank(rules[j])
  }

  /** Keeping the firing rules of a list ordered by rank keeps it ordered. */
  lemma {:induction false} FiredRulesInOrder(rules: seq<Rule>, avg: Option<real>, max: Option<real>, overloadedCount: nat)
    requires InRankOrder(rules)
    ensures InRankOrder(FiredRules(rules, avg, max, overloadedCount))
  {
    if rules != [] {
      var rest := FiredRules(rules[1..], avg, max, overloadedCount);
      FiredRulesInOrder(rules[1..], avg, max, overloadedCount);
      forall k | 0 <= k < |rest|
        ensures Rank(rules[0]) < Rank(rest[k])
      {
        assert rest[k] in rules[1..];
        var m :| 0 <= m < |rules[1..]| && rules[1..][m] == rest[k];
        assert rules[m + 1] == rest[k];
      }
      var r := FiredRules(rules, avg, max, overloadedCount);
      if Fires(rules[0], avg, max, overloadedCount) {
        assert r == [rules[0]] + rest;
        forall i, j | 0 <= i < j < |r|
          ensures Rank(r[i]) < Rank(r[j])
        {
          assert r[j] == rest[j - 1];
          if i > 0 {
            assert r[i] == rest[i - 1];
            assert Rank(rest[i - 1]) < Rank(rest[j - 1]);
          }
        }
      } else {
        assert r == rest;
      }
    }
  }

  /** The list is never empty and holds at most three rules, in checking
      order; each conditional rule appears exactly when it fires, and the
      success message exactly when none does. */
  lemma {:induction false} RecommendationRules(avg: Option<real>, max: Option<real>, overloadedCount: nat)
    ensures var r := RecommendationsFor(avg, max, overloadedCount);
            && 1 <= |r| <= 3
            && InRankOrder(r)
            && (forall rule :: rule != Adequate ==> (rule in r <==> Fires(rule, avg, max, overloadedCount)))
            && (Adequate in r <==> forall rule :: !Fires(rule, avg, max, overloadedCount))
  {
    var fired := FiredRules(ConditionalRules, avg, max, overloadedCount);
    FiredConditionalRules(avg, max, overloadedCount);
    FiredRulesInOrder(ConditionalRules, avg, max, overloadedCount);
    assert forall rule :: rule in ConditionalRules <==> rule != Adequate;
    assert |fired| <= 3 by {
      if Fires(HighAverage, avg, max, overloadedCount) {
        assert !Fires(LowOccupancy, avg, max, overloadedCount);
      }
    }
    if fired == [] {
      forall rule
        ensures !Fires(rule, avg, max, overloadedCount)
      {
        if rule != Adequate {
          assert rule !in fired;
        }
      }
    }
  }

  // ---------------------------------------------------------------------------
  // The analysis

  /** occupancyData[index] || 0 */
  function OccupancyAt(data: seq<real>, index: nat): real
  {
    if index < |data| then data[index] else 0.0
  }

  /** generateAnalysis */
  function GenerateAnalysis(results: CalculationResults): (a: Analysis)
    ensures var data := UnwrapOr(results.occupancyData, []);
            && a.periods.overloaded + a.periods.underutilized + a.periods.optimal == |data|
            && a.recommendations == RecommendationsFor(Mean(data), Largest(data), |Filter(data, IsOverloaded)|)
            && a.summary.totalHC == OrElse(results.totalHC, 0.0)
            && (|data| == 0 ==> a.summary.avgOccupancy == a.summary.maxOccupancy == a.summary.minOccupancy == 0)
    ensures var data := UnwrapOr(results.occupancyData, []);
            && a.summary == Summary(RoundedOrZero(Mean(data)), RoundedOrZero(Largest(data)),
                                    RoundedOrZero(Smallest(data)), OrElse(results.totalHC, 0.0))
            && a.periods == PeriodCounts(|Filter(data, IsOverloaded)|, |Filter(data, IsUnderutilized)|,
                                         |Filter(data, IsOptimal)|)
    ensures var data := UnwrapOr(results.occupancyData, []);
            var hcs := UnwrapOr(results.hcDistribution, []);
            && |a.detailedResults| == |hcs|
            && forall i :: 0 <= i < |hcs| ==>
                 a.detailedResults[i] == DetailedResult(hcs[i], OccupancyAt(data, i), i)
  {
    var data := UnwrapOr(results.occupancyData, []);
    var hcs := UnwrapOr(results.hcDistribution, []);
    var overloaded := Filter(data, IsOverloaded);
    BucketsPartition(data);
    Analysis(
      Summary(RoundedOrZero(Mean(data)), RoundedOrZero(Largest(data)), RoundedOrZero(Smallest(data)),
              OrElse(results.totalHC, 0.0)),
      PeriodCounts(|overloaded|, |Filter(data, IsUnderutilized)|, |Filter(data, IsOptimal)|),
      RecommendationsFor(Mean(data), Largest(data), |overloaded|),
      seq(|hcs|, i requires 0 <= i < |hcs| => DetailedResult(hcs[i], OccupancyAt(data, i), i)))
  }

  /** With no occupancy data the dialog shows zeros and only the success
      message: the NaN mean and the -Infinity maximum fire no rule. */
  lemma {:induction false} EmptyAnalysis(results: CalculationResults)
    requires UnwrapOr(results.occupancyData, []) == []
    ensures GenerateAnalysis(results).recommendations == [Adequate]
    ensures GenerateAnalysis(results).periods == PeriodCounts(0, 0, 0)
  {
    RecommendationRules(None, None, 0);
    assert FiredRules(ConditionalRules, None, None, 0) == [];
  }
}
