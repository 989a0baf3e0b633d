/** The computations inside the backend's calculation endpoints, taken out
    of their HTTP handlers: the dimensioning metrics of POST /dimension, the
    weekly schedule grid and its compliance flags of POST /schedule, and the
    recommendation flags of POST /optimization. Request parsing, the
    database and the replies are not modelled; the validated request fields
    are parameters. */
module CalculationRoutes {
  import opened Wrappers
  import opened JsRuntime
  import opened Staffing
  import opened TimeUtils

  // ---------------------------------------------------------------------------
  // POST /dimension

  /** hcDistribution.map((hc, index) => ...).filter(hc === totalHC).map(index):
      the indices holding the given value, in ascending order. */
  function PeakHours(hcDistribution: seq<int>, totalHC: int): (r: seq<nat>)
    ensures forall j :: 0 <= j < |r| ==> r[j] < |hcDistribution| && hcDistribution[r[j]] == totalHC
    ensures forall i :: 0 <= i < |hcDistribution| && hcDistribution[i] == totalHC ==> i in r
    ensures forall j, k :: 0 <= j < k < |r| ==> r[j] < r[k]
  {
    if hcDistribution == [] then []
    else
      var last := |hcDistribution| - 1;
      PeakHours(hcDistribution[..last], totalHC) + (if hcDistribution[last] == totalHC then [last] else [])
  }

  /** The peak of a non-empty distribution occurs somewhere, so the peak
      hours are never empty. */
  lemma {:induction false} PeakHoursNonEmpty(hcDistribution: seq<int>)
    requires |hcDistribution| > 0
    ensures |PeakHours(hcDistribution, MaxInt(hcDistribution))| > 0
  {
    var m := MaxInt(hcDistribution);
    var i :| 0 <= i < |hcDistribution| && hcDistribution[i] == m;
    assert i in PeakHours(hcDistribution, m);
  }

  /** Math.round(avgHC * 100) / 100: the mean headcount to two decimals. */
  function AvgHC(hcDistribution: seq<int>): (r: real)
    requires |hcDistribution| > 0
    ensures var mean := SumInt(hcDistribution) as real / |hcDistribution| as real;
            mean - 0.005 < r <= mean + 0.005
  {
    var mean := SumInt(hcDistribution) as real / |hcDistribution| as real;
    Round(mean * 100.0) as real / 100.0
  }

  /** One occupancy per interval: the interval's traffic on its headcount. */
  function OccupancyData(volumeCurve: seq<real>, tmiCurve: seq<real>, hcDistribution: seq<int>): (r: seq<real>)
    requires |tmiCurve| == |volumeCurve| && |hcDistribution| == |volumeCurve|
    ensures |r| == |volumeCurve|
    ensures forall i :: 0 <= i < |r| ==>
              r[i] == Occupancy(Traffic(volumeCurve[i], tmiCurve[i]), hcDistribution[i] as real)
  {
    seq(|volumeCurve|, i requires 0 <= i < |volumeCurve| =>
      Occupancy(Traffic(volumeCurve[i], tmiCurve[i]), hcDistribution[i] as real))
  }

  /** Positive volume and handle time make positive traffic. */
  lemma {:induction false} TrafficPositive(volume: real, tmi: real)
    requires volume > 0.0 && tmi > 0.0
    ensures Traffic(volume, tmi) > 0.0
  {
    assert volume * tmi > 0.0;
  }

  /** On a computed distribution every occupancy lies in [0, 100]: an
      interval with headcount has positive load, one without has
      occupancy 0. */
  lemma {:induction false} OccupancyOfDistributionInRange(volumeCurve: seq<real>, tmiCurve: seq<real>, targetSLA: real,
                                      unproductivity: real, exp: real -> real)
    requires 0.0 <= unproductivity < 100.0 && |volumeCurve| == |tmiCurve|
    ensures var hc := HCDistribution(volumeCurve, tmiCurve, targetSLA, unproductivity, exp).value;
            forall i :: 0 <= i < |volumeCurve| ==>
              0.0 <= OccupancyData(volumeCurve, tmiCurve, hc)[i] <= 100.0
  {
    var hc := HCDistribution(volumeCurve, tmiCurve, targetSLA, unproductivity, exp).value;
    var occ := OccupancyData(volumeCurve, tmiCurve, hc);
    forall i | 0 <= i < |volumeCurve|
      ensures 0.0 <= occ[i] <= 100.0
    {
      if hc[i] != 0 {
        TrafficPositive(volumeCurve[i], tmiCurve[i]);
      }
    }
  }

  /** The result of POST /dimension. */
  datatype DimensionResult = DimensionResult(
    hcDistribution: seq<int>,
    totalHC: int,
    avgHC: real,
    peakHours: seq<nat>,
    avgOccupancy: real,
    maxOccupancy: real,
    occupancyData: seq<real>,
    targetSLA: real,
    unproductivity: real,
    intervals: nat)

  /** The dimensioning handler between reading the premise and storing the
      rows: resolve the fallbacks, compute the distribution and its metrics.
      Curves of different lengths make calculateHCDistribution throw. */
  function Dimension(volumeCurve: seq<real>, tmiCurve: seq<real>,
                     targetSLA: Option<real>, slaTarget: real,
                     customUnproductivity: Option<real>, unproductivityPercentage: real,
                     exp: real -> real): (r: Result<DimensionResult, CurveError>)
    requires |volumeCurve| > 0
    requires 0.0 <= OrElse(customUnproductivity, unproductivityPercentage) < 100.0
    ensures r.Err? <==> |volumeCurve| != |tmiCurve|
    ensures r.Ok? ==>
              && r.value.targetSLA == OrElse(targetSLA, slaTarget)
              && r.value.unproductivity == OrElse(customUnproductivity, unproductivityPercentage)
              && |r.value.hcDistribution| == |r.value.occupancyData| == r.value.intervals == |volumeCurve|
              && r.value.totalHC in r.value.hcDistribution
              && (forall i :: 0 <= i < |volumeCurve| ==> r.value.hcDistribution[i] <= r.value.totalHC)
              && |r.value.peakHours| > 0
              && (forall i :: 0 <= i < |volumeCurve| ==> 0.0 <= r.value.occupancyData[i] <= 100.0)
              && 0.0 <= r.value.avgOccupancy <= 100.0
              && 0.0 <= r.value.maxOccupancy <= 100.0
    ensures r.Ok? ==>
              var hc := HCDistribution(volumeCurve, tmiCurve, OrElse(targetSLA, slaTarget),
                                       OrElse(customUnproductivity, unproductivityPercentage), exp).value;
              && r.value.hcDistribution == hc
              && r.value.totalHC == MaxInt(hc)
              && r.value.avgHC == AvgHC(hc)
              && r.value.peakHours == PeakHours(hc, r.value.totalHC)
              && r.value.occupancyData == OccupancyData(volumeCurve, tmiCurve, hc)
              && r.value.avgOccupancy == Sum(r.value.occupancyData) / |r.value.occupancyData| as real
              && r.value.maxOccupancy == MaxOf(r.value.occupancyData)
  {
    var sla := OrElse(targetSLA, slaTarget);
    var unproductivity := OrElse(customUnproductivity, unproductivityPercentage);
    var distribution := HCDistribution(volumeCurve, tmiCurve, sla, unproductivity, exp);
    if distribution.Err? then Err(distribution.error)
    else
      var hcDistribution := distribution.value;
      var totalHC := MaxInt(hcDistribution);
      var occupancyData := OccupancyData(volumeCurve, tmiCurve, hcDistribution);
      OccupancyOfDistributionInRange(volumeCurve, tmiCurve, sla, unproductivity, exp);
      MeanBounds(occupancyData, 0.0, 100.0);
      PeakHoursNonEmpty(hcDistribution);
      Ok(DimensionResult(
        hcDistribution,
        totalHC,
        AvgHC(hcDistribution),
        PeakHours(hcDistribution, totalHC),
        Sum(occupancyData) / |occupancyData| as real,
        MaxOf(occupancyData),
        occupancyData,
        sla,
        unproductivity,
        |volumeCurve|))
  }

  /** What the handler's figures mean interval by interval: entry i of the
      distribution is the HC need of interval i alone, interval i is a peak
      hour exactly when it holds the largest need, and its occupancy is the
      interval's traffic on that need. */
  lemma {:induction false} DimensionPerInterval(volumeCurve: seq<real>, tmiCurve: seq<real>,
                                                targetSLA: Option<real>, slaTarget: real,
                                                customUnproductivity: Option<real>, unproductivityPercentage: real,
                                                exp: real -> real, i: nat)
    requires |volumeCurve| > 0 && |volumeCurve| == |tmiCurve| && i < |volumeCurve|
    requires 0.0 <= OrElse(customUnproductivity, unproductivityPercentage) < 100.0
    ensures var r := Dimension(volumeCurve, tmiCurve, targetSLA, slaTarget,
                               customUnproductivity, unproductivityPercentage, exp);
            && r.Ok?
            && r.value.hcDistribution[i]
               == HCNeed(volumeCurve[i], tmiCurve[i], OrElse(targetSLA, slaTarget),
                         OrElse(customUnproductivity, unproductivityPercentage), exp)
            && (i in r.value.peakHours <==> forall j :: 0 <= j < |volumeCurve| ==>
                                              r.value.hcDistribution[j] <= r.value.hcDistribution[i])
            && r.value.occupancyData[i]
               == Occupancy(Traffic(volumeCurve[i], tmiCurve[i]), r.value.hcDistribution[i] as real)
  {
    var sla := OrElse(targetSLA, slaTarget);
    var unproductivity := OrElse(customUnproductivity, unproductivityPercentage);
    var r := Dimension(volumeCurve, tmiCurve, targetSLA, slaTarget, customUnproductivity, unproductivityPercentage, exp);
    var hc := r.value.hcDistribution;
    HCDistributionIsPointwise(volumeCurve, tmiCurve, [], [], sla, unproductivity, exp);
    assert volumeCurve + [] == volumeCurve && tmiCurve + [] == tmiCurve;
    var m := MaxInt(hc);
    if forall j :: 0 <= j < |volumeCurve| ==> hc[j] <= hc[i] {
      var k :| 0 <= k < |hc| && hc[k] == m;
      assert hc[i] == m;
    }
  }

  /** The stored timeInterval of row `index`: the quarter-hour's hour and
      minute, each padded to two digits. */
  function StoredLabel(index: nat): string
  {
    PadStart2(NatToString(index / 4)) + ":" + PadStart2(NatToString((index % 4) * 15))
  }

  /** The stored label of row i is the label of the i-th quarter hour, so
      within a day it is generateTimeIntervals()[i]. */
  lemma {:induction false} StoredLabelIsIntervalLabel(index: nat)
    ensures StoredLabel(index) == IntervalLabel(index)
  {
    var minutes := 15 * index;
    assert minutes / 60 == index / 4 && minutes % 60 == (index % 4) * 15;
    MinutesToTimeParts(minutes);
    NaturalLabel(index / 4, (index % 4) * 15);
  }

  // ---------------------------------------------------------------------------
  // POST /schedule

  /** The validated schedule constraints; weeklyDayOffRatio is accepted but
      never read. */
  datatype ScheduleConstraints = ScheduleConstraints(minSundayWork: real, weeklyDayOffRatio: real,
                                                     maxWeeklyDays: real)

  /** The schema's ranges: minSundayWork in [0, 1], maxWeeklyDays in [1, 7]. */
  predicate ValidScheduleConstraints(c: ScheduleConstraints)
  {
    0.0 <= c.minSundayWork <= 1.0 && c.weeklyDayOffRatio >= 0.0 && 1.0 <= c.maxWeeklyDays <= 7.0
  }

  /** Math.floor(employeesNeeded * minSundayWork): how many employees, from
      the first, work on Sunday. */
  function SundayQuota(employeesNeeded: real, c: ScheduleConstraints): int
  {
    Floor(employeesNeeded * c.minSundayWork)
  }

  /** Day 0 is Sunday and goes to the first employees; on the other days the
      week is rotated by the employee's index. */
  function WorksOn(emp: nat, day: nat, employeesNeeded: real, c: ScheduleConstraints): bool
  {
    if day == 0 then emp < SundayQuota(employeesNeeded, c)
    else ((emp + day) % 7) as real < c.maxWeeklyDays
  }

  /** The number of loop iterations `for (emp = 0; emp < employeesNeeded; emp++)`. */
  function Employees(employeesNeeded: real): (r: nat)
    ensures employeesNeeded > 0.0 ==> employeesNeeded <= r as real < employeesNeeded + 1.0
    ensures employeesNeeded <= 0.0 ==> r == 0
  {
    if employeesNeeded <= 0.0 then 0 else Ceil(employeesNeeded)
  }

  /** The week of one employee. */
  function EmployeeWeek(emp: nat, employeesNeeded: real, c: ScheduleConstraints): (week: seq<bool>)
    ensures |week| == 7
    ensures forall day :: 0 <= day < 7 ==> week[day] == WorksOn(emp, day, employeesNeeded, c)
  {
    seq(7, day requires 0 <= day < 7 => WorksOn(emp, day, employeesNeeded, c))
  }

  /** The whole grid: one week per employee. */
  function ScheduleGrid(employeesNeeded: real, c: ScheduleConstraints): (grid: seq<seq<bool>>)
    ensures |grid| == Employees(employeesNeeded)
    ensures forall e :: 0 <= e < |grid| ==> grid[e] == EmployeeWeek(e, employeesNeeded, c)
  {
    seq(Employees(employeesNeeded), e requires 0 <= e < Employees(employeesNeeded) =>
      EmployeeWeek(e, employeesNeeded, c))
  }

  /** The handler's inner loop: the seven days of one employee, Sunday first. */
  method BuildEmployeeWeek(emp: nat, employeesNeeded: real, constraints: ScheduleConstraints)
    returns (employeeSchedule: seq<bool>)
    ensures employeeSchedule == EmployeeWeek(emp, employeesNeeded, constraints)
  {
    var daysInWeek := 7;
    employeeSchedule := [];
    var day := 0;
    while day < daysInWeek
      invariant 0 <= day <= daysInWeek == 7
      invariant |employeeSchedule| == day
      invariant forall d :: 0 <= d < day ==> employeeSchedule[d] == WorksOn(emp, d, employeesNeeded, constraints)
    {
      if day == 0 {
        var shouldWork := emp < Floor(employeesNeeded * constraints.minSundayWork);
        employeeSchedule := employeeSchedule + [shouldWork];
      } else {
        var shouldWork := ((emp + day) % 7) as real < constraints.maxWeeklyDays;
        employeeSchedule := employeeSchedule + [shouldWork];
      }
      day := day + 1;
    }
  }

  /** The handler's outer loop: one week per employee below employeesNeeded. */
  method BuildSchedule(employeesNeeded: real, constraints: ScheduleConstraints)
    returns (schedule: seq<seq<bool>>)
    ensures schedule == ScheduleGrid(employeesNeeded, constraints)
  {
    var n := Employees(employeesNeeded);
    schedule := [];
    var emp := 0;
    while emp as real < employeesNeeded
      invariant 0 <= emp <= n
      invariant emp == 0 || (emp - 1) as real < employeesNeeded
      invariant |schedule| == emp
      invariant forall e :: 0 <= e < emp ==> schedule[e] == EmployeeWeek(e, employeesNeeded, constraints)
      decreases n - emp
    {
      var employeeSchedule := BuildEmployeeWeek(emp, employeesNeeded, constraints);
      schedule := schedule + [employeeSchedule];
      emp := emp + 1;
    }
    assert emp == n;
  }

  /** The schedule metrics. A rate over zero employees is 0/0, NaN in the
      source (None here), and NaN fails both compliance comparisons. */
  datatype ScheduleMetrics = ScheduleMetrics(
    totalEmployees: real,
    sundayWorkers: nat,
    sundayWorkRate: Option<real>,
    avgWeeklyDays: Option<real>,
    sundayWorkCompliant: bool,
    weeklyDaysCompliant: bool)

  /** x / employeesNeeded, NaN when both are 0. */
  function PerEmployee(x: nat, employeesNeeded: real): Option<real>
  {
    if employeesNeeded == 0.0 then None else Some(x as real / employeesNeeded)
  }

  /** The compliance block: Sunday workers and working days over the
      employee count, compared with the constraints. */
  function ScheduleMetricsOf(schedule: seq<seq<bool>>, employeesNeeded: real, c: ScheduleConstraints): (m: ScheduleMetrics)
    ensures m.totalEmployees == employeesNeeded && m.sundayWorkers == SundayWorkers(schedule)
    ensures m.sundayWorkRate == PerEmployee(SundayWorkers(schedule), employeesNeeded)
    ensures m.avgWeeklyDays == PerEmployee(TotalWeeklyDays(schedule), employeesNeeded)
    ensures m.sundayWorkCompliant <==> m.sundayWorkRate.Some? && m.sundayWorkRate.value >= c.minSundayWork
    ensures m.weeklyDaysCompliant <==> m.avgWeeklyDays.Some? && m.avgWeeklyDays.value <= c.maxWeeklyDays
    ensures employeesNeeded == 0.0 ==> !m.sundayWorkCompliant && !m.weeklyDaysCompliant
  {
    var sundayWorkers := SundayWorkers(schedule);
    var sundayWorkRate := PerEmployee(sundayWorkers, employeesNeeded);
    var avgWeeklyDays := PerEmployee(TotalWeeklyDays(schedule), employeesNeeded);
    ScheduleMetrics(employeesNeeded, sundayWorkers, sundayWorkRate, avgWeeklyDays,
                    sundayWorkRate.Some? && sundayWorkRate.value >= c.minSundayWork,
                    avgWeeklyDays.Some? && avgWeeklyDays.value <= c.maxWeeklyDays)
  }

  /** The weekly flag compares the total of working days with
      maxWeeklyDays per employee: it is a bound on the average, not on any
      single employee's week. */
  lemma {:induction false} WeeklyFlagOfTotal(schedule: seq<seq<bool>>, employeesNeeded: real, c: ScheduleConstraints)
    requires employeesNeeded > 0.0
    ensures ScheduleMetricsOf(schedule, employeesNeeded, c).weeklyDaysCompliant
        <==> TotalWeeklyDays(schedule) as real <= c.maxWeeklyDays * employeesNeeded
  {
    var total := TotalWeeklyDays(schedule) as real;
    RateAtLeast(c.maxWeeklyDays * employeesNeeded - total, employeesNeeded, 0.0);
    assert (c.maxWeeklyDays * employeesNeeded - total) / employeesNeeded == c.maxWeeklyDays - total / employeesNeeded;
  }

  /** POST /schedule after validation: the grid for the peak headcount and its metrics. */
  method CalculateSchedule(hcDistribution: seq<real>, constraints: ScheduleConstraints)
    returns (schedule: seq<seq<bool>>, metrics: ScheduleMetrics)
    requires |hcDistribution| > 0
    ensures schedule == ScheduleGrid(MaxOf(hcDistribution), constraints)
    ensures metrics == ScheduleMetricsOf(schedule, MaxOf(hcDistribution), constraints)
  {
    var totalHC := MaxOf(hcDistribution);
    schedule := BuildSchedule(totalHC, constraints);
    metrics := ScheduleMetricsOf(schedule, totalHC, constraints);
  }

  /** When the first q employees, and only they, work Sunday, the Sunday
      workers are the first q, or everybody when q exceeds the roster. */
  lemma {:induction false} SundayWorkersOfPrefix(schedule: seq<seq<bool>>, q: int)
    requires 0 <= q
    requires forall e :: 0 <= e < |schedule| ==> (WorksSunday(schedule[e]) <==> e < q)
    ensures SundayWorkers(schedule) == if q < |schedule| then q else |schedule|
  {
    if schedule != [] {
      SundayWorkersOfPrefix(schedule[..|schedule| - 1], q);
    }
  }

  /** With the schema's ranges, exactly floor(totalHC * minSundayWork)
      employees work on Sunday. */
  lemma {:induction false} SundayWorkersOfGrid(employeesNeeded: real, c: ScheduleConstraints)
    requires employeesNeeded > 0.0 && ValidScheduleConstraints(c)
    ensures SundayWorkers(ScheduleGrid(employeesNeeded, c)) == SundayQuota(employeesNeeded, c)
  {
    var grid := ScheduleGrid(employeesNeeded, c);
    var q := SundayQuota(employeesNeeded, c);
    ScaleByFraction(employeesNeeded, c.minSundayWork);
    assert |grid| == Employees(employeesNeeded);
    assert q as real <= employeesNeeded * c.minSundayWork;
    assert q as real <= employeesNeeded;
    assert employeesNeeded <= Employees(employeesNeeded) as real;
    forall e | 0 <= e < |grid|
      ensures WorksSunday(grid[e]) <==> e < q
    {
      assert grid[e][0] == WorksOn(e, 0, employeesNeeded, c);
    }
    SundayWorkersOfPrefix(grid, q);
  }

  /** q / n >= rate exactly when q >= rate * n, for positive n. */
  lemma {:induction false} RateAtLeast(q: real, n: real, rate: real)
    requires n > 0.0
    ensures q / n >= rate <==> q >= rate * n
  {
    var x := q / n;
    assert x * n == q;
    assert (x - rate) * n == q - rate * n;
    if x >= rate {
      assert (x - rate) * n >= 0.0;
    } else {
      assert (rate - x) * n > 0.0;
    }
  }

  /** Because the Sunday quota is rounded down, the sundayWork flag holds
      exactly when totalHC * minSundayWork is a whole number. */
  lemma {:induction false} SundayFlagIffWhole(employeesNeeded: real, c: ScheduleConstraints)
    requires employeesNeeded > 0.0 && ValidScheduleConstraints(c)
    ensures ScheduleMetricsOf(ScheduleGrid(employeesNeeded, c), employeesNeeded, c).sundayWorkCompliant
        <==> SundayQuota(employeesNeeded, c) as real == employeesNeeded * c.minSundayWork
  {
    SundayWorkersOfGrid(employeesNeeded, c);
    SundayFlagOfQuota(ScheduleGrid(employeesNeeded, c), employeesNeeded, c);
  }

  lemma {:induction false} SundayFlagOfQuota(schedule: seq<seq<bool>>, employeesNeeded: real, c: ScheduleConstraints)
    requires employeesNeeded > 0.0
    requires SundayWorkers(schedule) == SundayQuota(employeesNeeded, c)
    ensures ScheduleMetricsOf(schedule, employeesNeeded, c).sundayWorkCompliant
        <==> SundayQuota(employeesNeeded, c) as real == employeesNeeded * c.minSundayWork
  {
    var q := SundayQuota(employeesNeeded, c);
    var m := ScheduleMetricsOf(schedule, employeesNeeded, c);
    assert m.sundayWorkRate == Some(q as real / employeesNeeded);
    RateAtLeast(q as real, employeesNeeded, c.minSundayWork);
    var x := employeesNeeded * c.minSundayWork;
    assert c.minSundayWork * employeesNeeded == x;
    assert q as real <= x;
  }

  /** A worked example of SundayFlagIffWhole, for one input only: five
      employees at the default 0.75 give 3 Sunday workers, a rate of 0.6,
      and the flag fails. */
  lemma {:induction false} SundayFlagExample()
    ensures !ScheduleMetricsOf(ScheduleGrid(5.0, ScheduleConstraints(0.75, 1.25, 6.0)), 5.0,
                               ScheduleConstraints(0.75, 1.25, 6.0)).sundayWorkCompliant
  {
    var c := ScheduleConstraints(0.75, 1.25, 6.0);
    SundayFlagIffWhole(5.0, c);
    assert SundayQuota(5.0, c) == 3;
  }

  // ---------------------------------------------------------------------------
  // Working days of one employee

  function Indicator(b: bool): nat
  {
    if b then 1 else 0
  }

  /** Counting a week from the front. */
  lemma {:induction false} CountTrueFront(week: seq<bool>)
    requires |week| > 0
    ensures CountTrue(week) == Indicator(week[0]) + CountTrue(week[1..])
  {
    if |week| > 1 {
      var init := week[..|week| - 1];
      CountTrueFront(init);
      assert init[1..] == week[1..][..|week[1..]| - 1];
    } else {
      assert week[1..] == [];
      assert week[..|week| - 1] == [];
    }
  }

  lemma {:induction false} CountTrueSix(days: seq<bool>)
    requires |days| == 6
    ensures CountTrue(days) == Indicator(days[0]) + Indicator(days[1]) + Indicator(days[2])
                             + Indicator(days[3]) + Indicator(days[4]) + Indicator(days[5])
  {
    var d := days;
    assert CountTrue(d[..1]) == Indicator(d[0]) by {
      assert d[..1][..0] == [];
    }
    assert CountTrue(d[..2]) == CountTrue(d[..1]) + Indicator(d[1]) by {
      assert d[..2][..1] == d[..1];
    }
    assert CountTrue(d[..3]) == CountTrue(d[..2]) + Indicator(d[2]) by {
      assert d[..3][..2] == d[..2];
    }
    assert CountTrue(d[..4]) == CountTrue(d[..3]) + Indicator(d[3]) by {
      assert d[..4][..3] == d[..3];
    }
    assert CountTrue(d[..5]) == CountTrue(d[..4]) + Indicator(d[4]) by {
      assert d[..5][..4] == d[..4];
    }
  }

  /** The rotation depends only on the employee's index modulo 7. */
  lemma {:induction false} RotationModSeven(emp: nat, day: nat)
    ensures (emp + day) % 7 == (emp % 7 + day) % 7
  {
  }

  /** How many of the residues (r + 1) % 7 .. (r + 6) % 7, which are all
      residues but r, lie below k. */
  lemma {:induction false} RotatedResiduesBelow(r: int, k: int)
    requires 0 <= r < 7 && 1 <= k <= 7
    ensures Indicator((r + 1) % 7 < k) + Indicator((r + 2) % 7 < k) + Indicator((r + 3) % 7 < k)
          + Indicator((r + 4) % 7 < k) + Indicator((r + 5) % 7 < k) + Indicator((r + 6) % 7 < k)
         == if r < k then k - 1 else k
  {
  }

  /** With a whole maxWeeklyDays k in 1..7, each employee works k - 1 of
      Monday to Saturday when its index modulo 7 is below k, and k otherwise. */
  lemma {:induction false} WeekdaysWorked(emp: nat, employeesNeeded: real, c: ScheduleConstraints, k: int)
    requires 1 <= k <= 7 && c.maxWeeklyDays == k as real
    ensures CountTrue(EmployeeWeek(emp, employeesNeeded, c)[1..]) == if emp % 7 < k then k - 1 else k
  {
    var week := EmployeeWeek(emp, employeesNeeded, c);
    var days := week[1..];
    CountTrueSix(days);
    var r := emp % 7;
    forall j | 0 <= j < 6
      ensures days[j] == ((r + j + 1) % 7 < k)
    {
      RotationModSeven(emp, j + 1);
    }
    RotatedResiduesBelow(r, k);
  }

  /** Each employee therefore works k or k - 1 of the six weekdays. */
  lemma {:induction false} WeekdaysWorkedBounds(emp: nat, employeesNeeded: real, c: ScheduleConstraints, k: int)
    requires 1 <= k <= 7 && c.maxWeeklyDays == k as real
    ensures var n := CountTrue(EmployeeWeek(emp, employeesNeeded, c)[1..]); n == k || n == k - 1
  {
    WeekdaysWorked(emp, employeesNeeded, c, k);
  }

  /** Days worked in a whole week: Sunday plus the weekdays. */
  lemma {:induction false} DaysWorked(emp: nat, employeesNeeded: real, c: ScheduleConstraints, k: int)
    requires 1 <= k <= 7 && c.maxWeeklyDays == k as real
    ensures CountTrue(EmployeeWeek(emp, employeesNeeded, c))
         == Indicator(emp < SundayQuota(employeesNeeded, c)) + (if emp % 7 < k then k - 1 else k)
  {
    CountTrueFront(EmployeeWeek(emp, employeesNeeded, c));
    WeekdaysWorked(emp, employeesNeeded, c, k);
  }

  lemma {:induction false} TotalWeeklyDaysStep(schedule: seq<seq<bool>>, j: nat)
    requires 0 < j <= |schedule|
    ensures TotalWeeklyDays(schedule[..j]) == TotalWeeklyDays(schedule[..j - 1]) + CountTrue(schedule[j - 1])
  {
    assert schedule[..j][..j - 1] == schedule[..j - 1];
  }

  /** The weeklyDays flag compares the average with the limit, not each
      employee: with 8 employees, minSundayWork 0.875 and maxWeeklyDays 6,
      both flags hold although employee 6 works all 7 days. */
  lemma {:induction false} WeeklyFlagIsAnAverage()
    ensures var c := ScheduleConstraints(0.875, 1.25, 6.0);
            var grid := ScheduleGrid(8.0, c);
            var m := ScheduleMetricsOf(grid, 8.0, c);
            && m.sundayWorkCompliant && m.weeklyDaysCompliant
            && CountTrue(grid[6]) == 7 && CountTrue(grid[6]) as real > c.maxWeeklyDays
  {
    var c := ScheduleConstraints(0.875, 1.25, 6.0);
    var grid := ScheduleGrid(8.0, c);
    assert |grid| == 8;
    assert SundayQuota(8.0, c) == 7;
    SundayFlagIffWhole(8.0, c);
    forall e | 0 <= e < 8
      ensures CountTrue(grid[e]) == Indicator(e < 7) + (if e % 7 < 6 then 5 else 6)
    {
      DaysWorked(e, 8.0, c, 6);
    }
    TotalWeeklyDaysStep(grid, 1);
    TotalWeeklyDaysStep(grid, 2);
    TotalWeeklyDaysStep(grid, 3);
    TotalWeeklyDaysStep(grid, 4);
    TotalWeeklyDaysStep(grid, 5);
    TotalWeeklyDaysStep(grid, 6);
    TotalWeeklyDaysStep(grid, 7);
    TotalWeeklyDaysStep(grid, 8);
    assert grid[..0] == [] && grid[..8] == grid;
    assert TotalWeeklyDays(grid) == 48;
  }

  // ---------------------------------------------------------------------------
  // POST /optimization

  /** The recommendations block of the optimisation reply. */
  datatype OptimizationFlags = OptimizationFlags(totalHC: int, overtimeHours: real,
                                                 costEfficiency: bool, shiftBalance: bool)

  /** The schema's ranges: needs are non-negative, shift lengths lie in [1, 12]. */
  predicate ValidOptimizationInput(hcNeeds: seq<real>, shiftDurations: seq<real>)
  {
    |hcNeeds| > 0 && |shiftDurations| > 0
    && (forall i :: 0 <= i < |hcNeeds| ==> hcNeeds[i] >= 0.0)
    && (forall i :: 0 <= i < |shiftDurations| ==> 1.0 <= shiftDurations[i] <= 12.0)
  }

  lemma {:induction false} SumAtLeast(s: seq<real>, lo: real)
    requires forall i :: 0 <= i < |s| ==> s[i] >= lo
    ensures Sum(s) >= |s| as real * lo
  {
    if s != [] {
      SumAtLeast(s[..|s| - 1], lo);
    }
  }

  /** The mean of shift lengths of at least an hour is at least an hour. */
  lemma {:induction false} MeanDurationAtLeastOne(shiftDurations: seq<real>)
    requires |shiftDurations| > 0 && forall i :: 0 <= i < |shiftDurations| ==> shiftDurations[i] >= 1.0
    ensures Sum(shiftDurations) > 0.0 && MeanDuration(shiftDurations) >= 1.0
  {
    SumAtLeast(shiftDurations, 1.0);
    var n := |shiftDurations| as real;
    DivMonotone(n, Sum(shiftDurations), n);
  }

  /** The flags: overtime below a tenth of the headcount, and every shift staffed. */
  function FlagsOf(plan: ShiftPlan): (f: OptimizationFlags)
    ensures f.totalHC == plan.totalHC && f.overtimeHours == plan.overtimeHours
    ensures f.costEfficiency <==> plan.overtimeHours < plan.totalHC as real * 0.1
    ensures f.shiftBalance <==> forall i :: 0 <= i < |plan.shiftAllocations| ==> plan.shiftAllocations[i] > 0
  {
    OptimizationFlags(plan.totalHC, plan.overtimeHours,
                      plan.overtimeHours < plan.totalHC as real * 0.1,
                      forall i :: 0 <= i < |plan.shiftAllocations| ==> plan.shiftAllocations[i] > 0)
  }

  /** POST /optimization after validation. */
  function Optimization(hcNeeds: seq<real>, shiftDurations: seq<real>, constraints: ShiftConstraints)
    : (r: (ShiftPlan, OptimizationFlags))
    requires ValidOptimizationInput(hcNeeds, shiftDurations)
    ensures Sum(shiftDurations) != 0.0 && r.0 == OptimizeShiftDistribution(hcNeeds, shiftDurations, constraints)
    ensures r.1 == FlagsOf(r.0)
    ensures |r.0.shiftAllocations| == |shiftDurations|
  {
    MeanDurationAtLeastOne(shiftDurations);
    var plan := OptimizeShiftDistribution(hcNeeds, shiftDurations, constraints);
    (plan, FlagsOf(plan))
  }

  /** Every shift gets at least one agent exactly when some interval needs
      anyone: a zero peak gives every shift zero agents. */
  lemma {:induction false} ShiftBalanceIffDemand(hcNeeds: seq<real>, shiftDurations: seq<real>, constraints: ShiftConstraints)
    requires ValidOptimizationInput(hcNeeds, shiftDurations)
    ensures Optimization(hcNeeds, shiftDurations, constraints).1.shiftBalance <==> MaxOf(hcNeeds) > 0.0
  {
    MeanDurationAtLeastOne(shiftDurations);
    var plan := OptimizeShiftDistribution(hcNeeds, shiftDurations, constraints);
    assert Optimization(hcNeeds, shiftDurations, constraints).1 == FlagsOf(plan);
    if MaxOf(hcNeeds) > 0.0 {
      PositivePeakStaffsEveryShift(hcNeeds, shiftDurations, constraints);
    } else {
      ZeroPeakStaffsNoShift(hcNeeds, shiftDurations, constraints);
    }
  }

  lemma {:induction false} PositivePeakStaffsEveryShift(hcNeeds: seq<real>, shiftDurations: seq<real>, constraints: ShiftConstraints)
    requires ValidOptimizationInput(hcNeeds, shiftDurations) && MaxOf(hcNeeds) > 0.0
    ensures MeanDuration(shiftDurations) >= 1.0 && Sum(shiftDurations) != 0.0
    ensures var plan := OptimizeShiftDistribution(hcNeeds, shiftDurations, constraints);
            forall i :: 0 <= i < |plan.shiftAllocations| ==> plan.shiftAllocations[i] > 0
  {
    MeanDurationAtLeastOne(shiftDurations);
    AllocationsPositive(MaxOf(hcNeeds), shiftDurations, MeanDuration(shiftDurations));
  }

  lemma {:induction false} AllocationsPositive(peak: real, durations: seq<real>, mean: real)
    requires peak > 0.0 && mean > 0.0 && forall i :: 0 <= i < |durations| ==> durations[i] >= 1.0
    ensures forall i :: 0 <= i < |durations| ==> Allocations(peak, durations, mean)[i] > 0
  {
    var r := Allocations(peak, durations, mean);
    forall i | 0 <= i < |durations|
      ensures r[i] > 0
    {
      assert peak * durations[i] > 0.0;
      DivPos(peak * durations[i], mean);
    }
  }

  lemma {:induction false} ZeroPeakStaffsNoShift(hcNeeds: seq<real>, shiftDurations: seq<real>, constraints: ShiftConstraints)
    requires ValidOptimizationInput(hcNeeds, shiftDurations) && MaxOf(hcNeeds) <= 0.0
    ensures Sum(shiftDurations) != 0.0
    ensures OptimizeShiftDistribution(hcNeeds, shiftDurations, constraints).shiftAllocations[0] == 0
  {
    MeanDurationAtLeastOne(shiftDurations);
    var mean := MeanDuration(shiftDurations);
    assert hcNeeds[0] >= 0.0;
    assert MaxOf(hcNeeds) == 0.0;
    assert ShiftShare(0.0, shiftDurations[0], mean) == 0.0;
  }
}
