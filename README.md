# Headcount sizing core, modelled in Dafny

This project models the calculating core of a contact-centre headcount (HC)
sizing application, and proves properties of that model. The application is
written in TypeScript; it has a shared algorithms library, a Fastify backend
and a React frontend. The model covers the following:

- **Staffing engine** (`Staffing`, in `staffing.dfy`):
  - Erlang-C probability of delay; the first-hit search for the required number of agents.
  - Per-interval HC need with the unproductivity (shrinkage) adjustment, and the same need mapped over a whole day's curves.
  - Occupancy; the shrinkage split.
  - Proportional shift allocator.
  - Weekly-rest (DSR) compliance checker.
- **Time helpers** (`TimeUtils`, in `time_utils.dfy`):
  - "HH:MM" ⇄ minutes; the fixed shift tables.
  - The overnight-aware shift window.
  - The 96 quarter-hour labels of a day.
  - Productive hours, SLA ratio and the `YYYY-MM` shape check.
- **Backend handler logic** (`CalculationRoutes`, in `calculation_routes.dfy`). Only the pure parts inside the three calculation handlers:
  - the dimensioning metrics and stored interval labels;
  - the weekly schedule grid and its compliance flags;
  - the optimisation flags.
- **Dialog logic** in the frontend:
  - schedule adjustment (`AdjustSchedule`, with a class holding the rows and the form fields);
  - scenario comparison (`ScenarioCompare`);
  - premise export selection (`PremiseExport`);
  - occupancy analysis (`OccupancyAnalysis`);
  - HC optimisation (`HcOptimization`);
  - the schedule report generators for CSV, plain text and HTML (`ScheduleReport`).
- **Shared pieces:**
  - `JsRuntime`: exact versions of the JavaScript built-ins the code relies on (`Math.floor/ceil/round`, `||` on numbers, `reduce` sums, `Math.max/min` of lists, `split`, `padStart`, number-to-string, `Number()` of a digit string).
  - `Selection`: id lists used as selections.
  - `Wrappers`: `Option` and `Result`.

How the source's numbers and failures are represented:

- **Reals:** numbers are exact `real`s; counts are `int`/`nat`.
- **NaN:** where the source produces NaN (0/0, `Number("x")`, the mean of an empty list), the model carries `None`. Every comparison with NaN is false, so a `None` makes the guarded rule not fire.
- **Thrown errors:** these are `Result.Err` values.
- **`Math.exp`:** passed in as a function parameter `exp`. The lemmas that need its sign require `0 < exp(x) <= 1` for `x <= 0`.
- **Loops and state:**
  - Loops that accumulate (`erlangC`'s sum, `factorial`, the agent search, the DSR `forEach`, the interval generator, the schedule builder, the report generators' `+=`) are methods with loop invariants.
  - The `push`-based recommendation lists of the analysis and optimisation dialogs are straight-line methods: one guarded append per rule, with no loop.
  - Each of these methods is proved equal to a specification function, and the properties are proved about that function.
  - The adjustment dialog's rows and form fields are a class whose methods update them in place.

## Model

| member | source | states |
|---|---|---|
| Staffing.Factorial | packages/shared/src/algorithms/index.ts:29-36 | the loop's product is at least 1; it is 1 for n <= 1 and n! otherwise |
| Staffing.ErlangB | packages/shared/src/algorithms/index.ts:11-18 | for at least one agent and positive traffic, Erlang-B lies strictly between 0 and 1 |
| Staffing.PartialSumAtLeastOne | packages/shared/src/algorithms/index.ts:12-16 | the summed terms are at least 1 (the i = 0 term), so dividing by the sum is safe |
| Staffing.ErlangCConversionBounds | packages/shared/src/algorithms/index.ts:21 | for B and traffic/agents in (0, 1), the denominator is positive and the converted value stays strictly inside (0, 1) |
| Staffing.ErlangCValue | packages/shared/src/algorithms/index.ts:6-24 | 0 when agents <= 0 or traffic <= 0; 1 when traffic >= agents > 0; strictly between 0 and 1 otherwise; always in [0, 1] |
| Staffing.TermSum | packages/shared/src/algorithms/index.ts:12-16 | the loop adds traffic^i / i! for i = 0..agents, no more and no less |
| Staffing.ErlangC | packages/shared/src/algorithms/index.ts:6-24 | the imperative computation (loop, conversion, clamp) returns the Erlang-C value above |
| Staffing.ErlangCStep | packages/shared/src/algorithms/index.ts:11-23 | below capacity (0 < traffic < n), the Erlang-C value of n + 1 agents is at most that of n agents |
| Staffing.ErlangCNonIncreasing | packages/shared/src/algorithms/index.ts:6-24 | for at least one agent and positive traffic, adding an agent never raises the probability of delay (including the step from full load, where the value is 1) |
| Staffing.ErlangCZeroAgents | packages/shared/src/algorithms/index.ts:7-8 | the one exception to that monotonicity: 0 agents give 0 (the early return) while 1 agent at traffic 1 gives 1 |
| Staffing.ServiceLevelBounds | packages/shared/src/algorithms/index.ts:61 | with agents >= traffic and exp in (0, 1] on non-positive arguments, the service level is in [0, 100] |
| Staffing.FirstAdequate | packages/shared/src/algorithms/index.ts:53-70 | the scan stops at or after its start, and no later than ceil(3·traffic) when it starts below that cap |
| Staffing.FirstAdequateIsFirstHit | packages/shared/src/algorithms/index.ts:56-68 | the stopping count meets the target unless it is the cap, and every count scanned before it misses the target |
| Staffing.RequiredAgentsValue | packages/shared/src/algorithms/index.ts:41-71 | 0 for non-positive volume or handle time; otherwise 1 <= ceil(traffic) <= result <= ceil(3·traffic) |
| Staffing.CalculateRequiredAgents | packages/shared/src/algorithms/index.ts:41-71 | the while loop returns exactly the first-hit value above |
| Staffing.RequiredAgentsIsLeastAdequate | packages/shared/src/algorithms/index.ts:47-70 | the result reaches the service target (unless capped) and every agent count from ceil(traffic) below it does not |
| Staffing.FirstAdequateMonotone | packages/shared/src/algorithms/index.ts:56-68 | from a common start, a higher target never stops the scan earlier |
| Staffing.RequiredAgentsMonotoneInTarget | packages/shared/src/algorithms/index.ts:53-67 | for fixed volume, handle time and answer time, the required agents are non-decreasing in the target service level |
| Staffing.HCNeed | packages/shared/src/algorithms/index.ts:76-93 | 0 for non-positive volume or TMI; otherwise at least the base agent count, which is at least 1; equal to it when unproductivity is 0 |
| Staffing.ScaleUp | packages/shared/src/algorithms/index.ts:90 | dividing a non-negative count by the kept fraction never lowers it, and leaves it unchanged when nothing is lost |
| Staffing.HCNeedIsShrinkageTotal | packages/shared/src/algorithms/index.ts:84-92 | the interval need is the shrinkage split's totalRequired of the base agent count |
| Staffing.HCDistribution | packages/shared/src/algorithms/index.ts:98-112 | an error exactly when the curves differ in length; otherwise one non-negative entry per interval, zero exactly where volume or TMI is non-positive |
| Staffing.HCDistributionIsPointwise | packages/shared/src/algorithms/index.ts:108-111 | the distribution of concatenated curves is the concatenation of the distributions, and entry i is the need of interval i alone |
| Staffing.Occupancy | packages/shared/src/algorithms/index.ts:117-123 | 0 without agents; in [0, 100] for non-negative traffic; 100 exactly when traffic >= agents; otherwise traffic/agents as a percentage |
| Staffing.PercentOf | packages/shared/src/algorithms/index.ts:122 | the unclamped percentage times the agents is 100·traffic; it reaches 100 exactly when traffic >= agents |
| Staffing.Shrinkage | packages/shared/src/algorithms/index.ts:128-146 | productive + unproductive = baseHC; for a rate in [0, 100) the productive part is in [0, baseHC] and totalRequired >= baseHC |
| Staffing.ShrinkageScaling | packages/shared/src/algorithms/index.ts:137-139 | for a rate in [0, 1) the kept share is within [0, baseHC] and the grossed-up total is at least baseHC |
| Staffing.ShrinkageExample | packages/shared/src/algorithms/index.ts:128-146 | (100, 20%) splits into 80 productive, 20 unproductive, 125 required |
| Staffing.MeanDurationNonZero | packages/shared/src/algorithms/index.ts:165 | a non-zero total duration gives a non-zero mean, so the allocation's division is defined |
| Staffing.Allocations | packages/shared/src/algorithms/index.ts:168-170 | one allocation per duration, each the ceiling of peak·duration/mean |
| Staffing.OvertimeHours | packages/shared/src/algorithms/index.ts:173 | never negative; positive exactly when totalHC·mean exceeds 8·peak, and then equal to the excess |
| Staffing.OptimizeShiftDistribution | packages/shared/src/algorithms/index.ts:151-180 | one ceiling-of-share allocation per duration, totalHC is their sum, overtime is non-negative and positive exactly when the staffed hours exceed 8·peak |
| Staffing.UniformShiftsGetThePeak | packages/shared/src/algorithms/index.ts:164-172 | with equal durations and an integer peak, every allocation is the peak and totalHC is peak × shifts |
| Staffing.ShiftConstraintsIgnored | packages/shared/src/algorithms/index.ts:151-180 | the plan does not depend on the constraints argument |
| Staffing.DsrCompliance | packages/shared/src/algorithms/index.ts:185-230 | compliant exactly when there are no violations |
| Staffing.CalculateDSRCompliance | packages/shared/src/algorithms/index.ts:197-229 | the counting loop produces the report above |
| Staffing.ExcessViolationsExact | packages/shared/src/algorithms/index.ts:202-214 | one violation per employee with more working days than the maximum, in employee order, each with that employee's count, and no others |
| Staffing.DsrViolationsLayout | packages/shared/src/algorithms/index.ts:211-222 | the per-employee violations come first; one Sunday-rate violation follows exactly when the rate is below the minimum, and it is last |
| Staffing.DsrNoEmployees | packages/shared/src/algorithms/index.ts:216-222 | with no employees both rates are 0, so a positive Sunday minimum still gives a violation |
| Staffing.DsrFullSundayCompliant | packages/shared/src/algorithms/index.ts:185-230 | a non-empty roster where everyone works Sunday and nobody exceeds the maximum is compliant (for a minimum <= 1) |
| TimeUtils.MinutesToTimeParts | packages/shared/src/utils/index.ts:14-18 | for non-negative minutes the label is built from floor(m/60) and m mod 60 |
| TimeUtils.TimeToMinutesOfDigits | packages/shared/src/utils/index.ts:6-9 | digit fields HH:MM read back as 60·HH + MM |
| TimeUtils.TimeToMinutesOfLabel | packages/shared/src/utils/index.ts:6-9 | a two-digit label reads as 60·(10·h1 + h2) + 10·m1 + m2 |
| TimeUtils.MinutesRoundTrip | packages/shared/src/utils/index.ts:6-18 | every non-negative minute count survives label and read-back |
| TimeUtils.LabelRoundTrip | packages/shared/src/utils/index.ts:6-18 | every two-digit label with minutes <= 59 survives read-back and relabelling, thanks to the padding |
| TimeUtils.NegativeMinutesDoNotRoundTrip | packages/shared/src/utils/index.ts:14-18 | -90 minutes is labelled "-2:-30", which reads back as -150 |
| TimeUtils.GetShiftDurationMinutes | packages/shared/src/utils/index.ts:23-34 | a value for exactly the three known labels, the error message for any other |
| TimeUtils.ShiftDurationIsItsLabel | packages/shared/src/utils/index.ts:23-34 | each table entry (380, 492, 240) is its own label read as "H:MM" |
| TimeUtils.GetUnproductivityRate | packages/shared/src/utils/index.ts:39-50 | a rate in (0, 1) for exactly the three known labels, the error message for any other |
| TimeUtils.LongerShiftsAreLessProductive | packages/shared/src/utils/index.ts:39-50 | a longer shift has a higher unproductivity rate |
| TimeUtils.IsTimeInShiftGroup | packages/shared/src/utils/index.ts:55-70 | true only when all three times parse |
| TimeUtils.ShiftWindowIsClockArc | packages/shared/src/utils/index.ts:55-70 | for times within a day, membership is lying on the clockwise arc from start to end |
| TimeUtils.DayShiftWindow | packages/shared/src/utils/index.ts:60-69 | when start <= end, the window is start <= t <= end, both ends included |
| TimeUtils.OvernightShiftWindow | packages/shared/src/utils/index.ts:64-67 | when start > end, the window wraps midnight: t >= start or t <= end |
| TimeUtils.ShiftEndpointsInside | packages/shared/src/utils/index.ts:55-70 | start and end always belong to their window |
| TimeUtils.GenerateTimeIntervals | packages/shared/src/utils/index.ts:75-84 | the nested loops yield exactly 96 labels, entry i the label of minute 15·i |
| TimeUtils.QuarterLabel | packages/shared/src/utils/index.ts:77-81 | the label the loops build from an hour and a quarter of it is the label of that quarter hour |
| TimeUtils.IntervalLabelsIncrease | packages/shared/src/utils/index.ts:75-84 | entry i reads back as 15·i, so later entries read as strictly later times |
| TimeUtils.IntervalLabelsFirstAndLast | packages/shared/src/utils/index.ts:75-84 | the day runs from "00:00" to "23:45" |
| TimeUtils.CalculateProductiveHours | packages/shared/src/utils/index.ts:89-94 | productive plus lost hours make the total; all hours kept at rate 0; within [0, total] for rates in [0, 1] |
| TimeUtils.CalculateSLA | packages/shared/src/utils/index.ts:106-112 | 0 for no calls; otherwise the percentage answered in time, in [0, 100] and 100 exactly when all were |
| TimeUtils.SlaBounds | packages/shared/src/utils/index.ts:111 | the answered fraction is in [0, 1] and is 1 exactly when every call was answered in time |
| TimeUtils.MonthFormatShape | packages/shared/src/utils/index.ts:117-119 | accepted exactly when the text is four digits, '-', two digits |
| TimeUtils.MonthFormatExamples | packages/shared/src/utils/index.ts:117-119 | "2024-13" is accepted (no month range check); "2024-1" and "24-01-01" are not |
| JsRuntime.OrElse | packages/backend/src/routes/calculations.ts:76-77 | a present non-zero value is kept; an absent value or 0 takes the fallback |
| JsRuntime.Floor | packages/shared/src/utils/index.ts:15 | the result is the greatest integer not above the argument |
| JsRuntime.Ceil | packages/shared/src/algorithms/index.ts:53 | the result is the least integer not below the argument |
| JsRuntime.Round | packages/frontend/src/components/calculations/AnalysisDialog.tsx:81 | the result is the nearest integer, halves going up |
| JsRuntime.MaxOf | packages/backend/src/routes/calculations.ts:88 | for a non-empty list, an element of the list at least as large as every element |
| JsRuntime.MinOf | packages/frontend/src/components/calculations/AnalysisDialog.tsx:72 | for a non-empty list, an element of the list no larger than any element |
| JsRuntime.Split | packages/shared/src/utils/index.ts:7 | at least one piece, and no piece contains the separator |
| JsRuntime.SplitJoin | packages/shared/src/utils/index.ts:7 | splitting separator-free fields joined by the separator gives back the fields |
| JsRuntime.ParseInteger | packages/shared/src/utils/index.ts:7 | a digit string reads as its decimal value, '-' followed by digits as its negative and '+' followed by digits as its value; every other string (a lone sign included) is NaN (None), and only those are |
| JsRuntime.IntToStringRoundTrip | packages/shared/src/utils/index.ts:17 | every integer's decimal text reads back as that integer |
| JsRuntime.PadStart2 | packages/shared/src/utils/index.ts:17 | text of two or more characters is unchanged; shorter text is padded on the left to two characters and stays a suffix |
| CalculationRoutes.PeakHours | packages/backend/src/routes/calculations.ts:90-93 | exactly the indices whose HC equals the peak, in ascending order |
| CalculationRoutes.PeakHoursNonEmpty | packages/backend/src/routes/calculations.ts:88-93 | a non-empty distribution has at least one peak hour |
| CalculationRoutes.AvgHC | packages/backend/src/routes/calculations.ts:107 | the rounded average is within 0.005 of the mean HC |
| CalculationRoutes.OccupancyData | packages/backend/src/routes/calculations.ts:96-101 | one occupancy per interval, computed from that interval's traffic and HC only |
| CalculationRoutes.OccupancyOfDistributionInRange | packages/backend/src/routes/calculations.ts:80-101 | with the computed distribution, every interval's occupancy is in [0, 100] |
| CalculationRoutes.Dimension | packages/backend/src/routes/calculations.ts:74-118 | an error exactly for mismatched curves; otherwise, with the `\|\|` fallbacks applied, the HC list is the per-interval need, the total is its largest entry (and occurs in it), the average is the rounded mean, the peak hours are the indices reaching the total (at least one), the occupancy list is the per-interval occupancy, its average is the mean and its maximum the largest entry |
| CalculationRoutes.DimensionPerInterval | packages/backend/src/routes/calculations.ts:88-101 | interval i's HC is the need of volume i and handle time i; i is a peak hour exactly when no interval needs more; interval i's occupancy is the traffic over its HC |
| CalculationRoutes.StoredLabelIsIntervalLabel | packages/backend/src/routes/calculations.ts:125 | the stored label of row i is the label of the i-th quarter hour, as the interval generator builds it |
| CalculationRoutes.Employees | packages/backend/src/routes/calculations.ts:176 | the loop runs ceil(totalHC) times for positive totalHC, never otherwise |
| CalculationRoutes.EmployeeWeek | packages/backend/src/routes/calculations.ts:179-189 | seven days; Sunday for the first floor(totalHC·minSundayWork) employees, day d when (e + d) mod 7 < maxWeeklyDays |
| CalculationRoutes.ScheduleGrid | packages/backend/src/routes/calculations.ts:176-192 | one seven-day week per employee, in employee order |
| CalculationRoutes.BuildEmployeeWeek | packages/backend/src/routes/calculations.ts:177-189 | the inner loop builds that employee's week |
| CalculationRoutes.BuildSchedule | packages/backend/src/routes/calculations.ts:172-192 | the nested loops build the whole grid |
| CalculationRoutes.ScheduleMetricsOf | packages/backend/src/routes/calculations.ts:195-210 | Sunday workers counted from the grid; the Sunday rate is Sunday workers per employee and the weekly-days average is total worked days per employee (undefined for 0 employees, as 0/0); each flag holds exactly when its rate is defined and meets its bound, so with 0 employees both are false |
| CalculationRoutes.WeeklyFlagOfTotal | packages/backend/src/routes/calculations.ts:197-209 | with employees, the weekly-days flag holds exactly when the total worked days are at most maxWeeklyDays times the employees |
| CalculationRoutes.CalculateSchedule | packages/backend/src/routes/calculations.ts:168-213 | the handler's grid and metrics are built for the peak of the distribution |
| CalculationRoutes.SundayWorkersOfPrefix | packages/backend/src/routes/calculations.ts:195 | when exactly the first q employees work Sunday, the count is q, capped by the roster |
| CalculationRoutes.SundayWorkersOfGrid | packages/backend/src/routes/calculations.ts:182-195 | with minSundayWork in [0, 1], exactly floor(totalHC·minSundayWork) employees work Sunday |
| CalculationRoutes.SundayFlagOfQuota | packages/backend/src/routes/calculations.ts:196-208 | with that count, the Sunday flag holds exactly when totalHC·minSundayWork is whole |
| CalculationRoutes.SundayFlagIffWhole | packages/backend/src/routes/calculations.ts:182-208 | for the generated grid, the Sunday flag holds exactly when totalHC·minSundayWork is a whole number |
| CalculationRoutes.SundayFlagExample | packages/backend/src/routes/calculations.ts:176-208 | a worked example for one input: 5 employees at 0.75 give 3 Sunday workers, and the flag fails |
| CalculationRoutes.WeekdaysWorked | packages/backend/src/routes/calculations.ts:186-187 | for integer maxWeeklyDays k, Monday–Saturday holds k - 1 working days when e mod 7 < k, and k otherwise |
| CalculationRoutes.WeekdaysWorkedBounds | packages/backend/src/routes/calculations.ts:186-187 | each employee works k or k - 1 of Monday–Saturday |
| CalculationRoutes.DaysWorked | packages/backend/src/routes/calculations.ts:179-189 | an employee's week count is the Sunday indicator plus the weekday count above |
| CalculationRoutes.WeeklyFlagIsAnAverage | packages/backend/src/routes/calculations.ts:197-209 | the weekly flag compares the average: with 8 employees, 0.875 and 6 days both flags hold although employee 6 works 7 days |
| CalculationRoutes.MeanDurationAtLeastOne | packages/backend/src/routes/calculations.ts:30 | the schema's durations >= 1 make the mean at least 1, so the allocator's division is defined |
| CalculationRoutes.FlagsOf | packages/backend/src/routes/calculations.ts:258-263 | costEfficiency iff overtime < 10% of totalHC; shiftBalance iff every allocation is positive |
| CalculationRoutes.Optimization | packages/backend/src/routes/calculations.ts:250-263 | the handler returns exactly the allocator's plan for its needs, durations and constraints, with the flags of that plan |
| CalculationRoutes.ShiftBalanceIffDemand | packages/backend/src/routes/calculations.ts:262 | for schema-valid input, shiftBalance holds exactly when the peak need is positive |
| CalculationRoutes.PositivePeakStaffsEveryShift | packages/backend/src/routes/calculations.ts:250-262 | a positive peak staffs every shift |
| CalculationRoutes.ZeroPeakStaffsNoShift | packages/backend/src/routes/calculations.ts:250-262 | a zero peak leaves the first shift without staff |
| AdjustSchedule.InitialAdjustments | packages/frontend/src/components/schedule/AdjustScheduleDialog.tsx:46-53 | one row per period, with both current and new scheduled equal to the period's scheduled HC |
| AdjustSchedule.UpdateTouchesOneRow | packages/frontend/src/components/schedule/AdjustScheduleDialog.tsx:62-67 | the length is kept; only row i's newScheduled changes, and every other row is unchanged |
| AdjustSchedule.UpdateTotals | packages/frontend/src/components/schedule/AdjustScheduleDialog.tsx:115-117 | an update moves only the new-schedule total, by the difference at row i |
| AdjustSchedule.AutoOptimizeRows | packages/frontend/src/components/schedule/AdjustScheduleDialog.tsx:69-78 | every newScheduled becomes max(1, needed); time, current and needed are untouched |
| AdjustSchedule.AutoOptimizeIdempotent | packages/frontend/src/components/schedule/AdjustScheduleDialog.tsx:69-75 | optimising twice is optimising once |
| AdjustSchedule.AutoOptimizeTotals | packages/frontend/src/components/schedule/AdjustScheduleDialog.tsx:115-117 | after optimising, the new total covers the needed total and is at least one per row |
| AdjustSchedule.ResetIdempotent | packages/frontend/src/components/schedule/AdjustScheduleDialog.tsx:85-94 | reset is idempotent and erases any earlier update |
| AdjustSchedule.ResetTotals | packages/frontend/src/components/schedule/AdjustScheduleDialog.tsx:85-116 | after a reset the new total equals the current total |
| AdjustSchedule.Coverage | packages/frontend/src/components/schedule/AdjustScheduleDialog.tsx:105-107 | 0 when nothing is needed; otherwise scheduled/needed·100 rounded to the nearest integer, halves upwards |
| AdjustSchedule.CoverageOfNeed | packages/frontend/src/components/schedule/AdjustScheduleDialog.tsx:105-107 | scheduling exactly the need gives 100, and more staff never lowers the coverage |
| AdjustSchedule.GetCoverageColor | packages/frontend/src/components/schedule/AdjustScheduleDialog.tsx:109-113 | red iff < 90, yellow iff > 120, green iff in [90, 120]: a partition |
| AdjustSchedule.AdjustScheduleDialog.constructor | packages/frontend/src/components/schedule/AdjustScheduleDialog.tsx:46-60 | the rows start as the initial adjustments and the form fields mirror them |
| AdjustSchedule.AdjustScheduleDialog.UpdateAdjustment | packages/frontend/src/components/schedule/AdjustScheduleDialog.tsx:62-67 | the rows become the one-row update, and the form field at that index follows |
| AdjustSchedule.AdjustScheduleDialog.AutoOptimize | packages/frontend/src/components/schedule/AdjustScheduleDialog.tsx:69-78 | the rows become the optimised rows, and every form field follows |
| AdjustSchedule.AdjustScheduleDialog.ResetChanges | packages/frontend/src/components/schedule/AdjustScheduleDialog.tsx:85-94 | the rows become the reset rows, and every form field follows |
| AdjustSchedule.AdjustScheduleDialog.WriteFormFields | packages/frontend/src/components/schedule/AdjustScheduleDialog.tsx:76-78 | the forEach writes each row's newScheduled into the form field of the same index |
| Selection.Without | packages/frontend/src/components/scenarios/CompareDialog.tsx:24 | removes every copy of the id and nothing else, keeping order |
| Selection.WithoutNoDuplicates | packages/frontend/src/components/premises/ExportDialog.tsx:26 | removing an id keeps a selection free of duplicates |
| Selection.AppendThenRemove | packages/frontend/src/components/scenarios/CompareDialog.tsx:24-26 | appending a new id and removing it again restores the list |
| ScenarioCompare.SelectScenario | packages/frontend/src/components/scenarios/CompareDialog.tsx:22-28 | a selected id is removed; an unselected one is appended only while fewer than 3 are selected, else nothing changes |
| ScenarioCompare.SelectKeepsSelectionValid | packages/frontend/src/components/scenarios/CompareDialog.tsx:22-28 | a duplicate-free selection of at most 3 stays so |
| ScenarioCompare.SelectTwiceRestores | packages/frontend/src/components/scenarios/CompareDialog.tsx:22-28 | selecting then deselecting an id restores the selection |
| ScenarioCompare.CanCompare | packages/frontend/src/components/scenarios/CompareDialog.tsx:127 | comparing is enabled exactly with at least two selections |
| ScenarioCompare.CompareScenarios | packages/frontend/src/components/scenarios/CompareDialog.tsx:30-33 | exactly the listed scenarios whose ids are selected, in list order |
| ScenarioCompare.CompareIgnoresClickOrder | packages/frontend/src/components/scenarios/CompareDialog.tsx:30-33 | any selection with the same ids gives the same comparison |
| ScenarioCompare.ComparisonIcon | packages/frontend/src/components/scenarios/CompareDialog.tsx:59-63 | up, down or level exactly when above, below or equal to the baseline, drawn red, green or gray respectively whatever the metric |
| ScenarioCompare.ComparisonColor | packages/frontend/src/components/scenarios/CompareDialog.tsx:65-71 | gray iff equal; green iff the change goes the good way, which isGoodWhenLower reverses; red otherwise |
| ScenarioCompare.ColorFlip | packages/frontend/src/components/scenarios/CompareDialog.tsx:65-71 | flipping isGoodWhenLower swaps green and red and keeps gray |
| ScenarioCompare.IconToneMatchesColor | packages/frontend/src/components/scenarios/CompareDialog.tsx:59-71 | the icon's colour equals the value text's colour exactly when lower is better or the value is unchanged; for the higher-is-better metrics (occupancies, SLA) a change shows the two in opposite colours |
| ScenarioCompare.PercentDelta | packages/frontend/src/components/scenarios/CompareDialog.tsx:184 | undefined exactly for a zero baseline; otherwise the relative change in percent, rounded |
| ScenarioCompare.PercentDeltaSign | packages/frontend/src/components/scenarios/CompareDialog.tsx:184 | for a positive baseline: 0 at the baseline, non-negative above it, non-positive below |
| PremiseExport.TogglePremise | packages/frontend/src/components/premises/ExportDialog.tsx:23-29 | a selected id is removed, an unselected one appended at the end; no other id changes membership |
| PremiseExport.ToggleKeepsNoDuplicates | packages/frontend/src/components/premises/ExportDialog.tsx:23-29 | toggling keeps a selection duplicate-free |
| PremiseExport.ToggleTwice | packages/frontend/src/components/premises/ExportDialog.tsx:23-29 | toggling twice gives the same set of ids; it restores the list for an unselected id and moves a selected one to the end |
| PremiseExport.SelectAll | packages/frontend/src/components/premises/ExportDialog.tsx:31-37 | clears when the lengths are equal, otherwise selects all ids in list order |
| PremiseExport.SelectAllComparesLengthsOnly | packages/frontend/src/components/premises/ExportDialog.tsx:32 | two unrelated ids of the right count are taken for "all selected" and cleared |
| PremiseExport.SelectAllTwice | packages/frontend/src/components/premises/ExportDialog.tsx:31-37 | select-all then select-all again clears the selection |
| PremiseExport.ExportRequestOf | packages/frontend/src/components/premises/ExportDialog.tsx:39-47 | no request for an empty selection; otherwise the selection, format and flag as they are |
| PremiseExport.Cancel | packages/frontend/src/components/premises/ExportDialog.tsx:54-57 | empties the selection and keeps the other settings |
| PremiseExport.CancelThenExport | packages/frontend/src/components/premises/ExportDialog.tsx:40-57 | after cancelling, exporting does nothing |
| OccupancyAnalysis.Filter | packages/frontend/src/components/calculations/AnalysisDialog.tsx:75-77 | keeps exactly the values satisfying the test, never more than the input |
| OccupancyAnalysis.BucketsPartition | packages/frontend/src/components/calculations/AnalysisDialog.tsx:75-90 | the overloaded, underused and optimal counts sum to the number of intervals |
| OccupancyAnalysis.Mean | packages/frontend/src/components/calculations/AnalysisDialog.tsx:70 | NaN exactly for no data; otherwise between the minimum and the maximum |
| OccupancyAnalysis.Largest | packages/frontend/src/components/calculations/AnalysisDialog.tsx:71 | none for no data; otherwise an element at least every element |
| OccupancyAnalysis.Smallest | packages/frontend/src/components/calculations/AnalysisDialog.tsx:72 | none for no data; otherwise an element at most every element |
| OccupancyAnalysis.RoundedOrZero | packages/frontend/src/components/calculations/AnalysisDialog.tsx:81-83 | a missing value shows as 0, a present one rounded |
| OccupancyAnalysis.SummaryBounds | packages/frontend/src/components/calculations/AnalysisDialog.tsx:70-83 | for occupancies in [0, 100], 0 <= min <= avg <= max <= 100 after rounding |
| OccupancyAnalysis.FiredRules | packages/frontend/src/components/calculations/AnalysisDialog.tsx:103-133 | exactly the listed rules whose conditions hold |
| OccupancyAnalysis.FiredConditionalRules | packages/frontend/src/components/calculations/AnalysisDialog.tsx:103-133 | the fired rules are, in order, each of the four rules that fires |
| OccupancyAnalysis.GenerateRecommendations | packages/frontend/src/components/calculations/AnalysisDialog.tsx:100-144 | the push sequence yields the fired rules, or the success item when none fired |
| OccupancyAnalysis.FiredRulesInOrder | packages/frontend/src/components/calculations/AnalysisDialog.tsx:103-133 | filtering keeps the fixed checking order |
| OccupancyAnalysis.RecommendationRules | packages/frontend/src/components/calculations/AnalysisDialog.tsx:100-144 | 1 to 3 items in the fixed order; each rule is present iff it fires; success iff none fires |
| OccupancyAnalysis.GenerateAnalysis | packages/frontend/src/components/calculations/AnalysisDialog.tsx:68-98 | the summary is the rounded mean, maximum and minimum of the occupancy data (0 when empty) with the total HC (0 when missing); the periods count the overloaded, underutilised and optimal entries and sum to the data length; recommendations from mean, max and overloaded count; one detail row per HC, occupancy 0 where missing |
| OccupancyAnalysis.EmptyAnalysis | packages/frontend/src/components/calculations/AnalysisDialog.tsx:68-98 | empty data gives zero counts and only the success recommendation |
| HcOptimization.OptimizedHC | packages/frontend/src/components/calculations/OptimizationDialog.tsx:97-107 | the increase rule wins with ceil(1.2·hc); else the reduce rule gives ceil(0.8·hc), which lies in [1, hc] (the max with 1 never binds since hc > 1); else hc unchanged |
| HcOptimization.ReductionNeedsFive | packages/frontend/src/components/calculations/OptimizationDialog.tsx:100-102 | when only the reduce rule fires, the headcount actually drops exactly when hc >= 5; teams of 2, 3 or 4 keep their size |
| HcOptimization.OptimizedHCBounds | packages/frontend/src/components/calculations/OptimizationDialog.tsx:97-107 | an increase never lowers hc; a positive hc stays positive; a zero hc stays zero |
| HcOptimization.RulesExclusive | packages/frontend/src/components/calculations/OptimizationDialog.tsx:97-107 | with the form's maxOccupancy >= 50, reduce and increase never both apply |
| HcOptimization.OptimizedOccupancy | packages/frontend/src/components/calculations/OptimizationDialog.tsx:110-118 | undefined exactly for hc = 0; otherwise the scaled occupancy occupancy·hc/optimizedHC clamped to [0, 95]: itself when in range, 95 above it and 0 below it |
| HcOptimization.Improvement | packages/frontend/src/components/calculations/OptimizationDialog.tsx:119 | undefined exactly for hc = 0; zero when the HC is unchanged; for a positive occupancy, positive (shown as a drop) exactly when agents are added and negative exactly when agents are cut; when the scaled occupancy is in range, the original occupancy minus the optimised one |
| HcOptimization.OptimizeInterval | packages/frontend/src/components/calculations/OptimizationDialog.tsx:96-121 | keeps the interval's index, HC and occupancy, with the optimised HC and a clamped occupancy; its improvement is undefined exactly for hc = 0, its sign follows the HC change for a positive occupancy, and in range it is the original minus the optimised occupancy |
| HcOptimization.OptimizedResults | packages/frontend/src/components/calculations/OptimizationDialog.tsx:96-121 | one optimised interval per HC entry, occupancy 0 where missing |
| HcOptimization.MaxOptimizedHC | packages/frontend/src/components/calculations/OptimizationDialog.tsx:123 | the largest optimised HC, or 0 for none |
| HcOptimization.GenerateOptimization | packages/frontend/src/components/calculations/OptimizationDialog.tsx:76-150 | current: the rounded stored average occupancy (0 when missing) and the intervals above the maximum and below 50%; optimised: the total is the largest optimised HC, the average is the rounded mean of the optimised occupancies, and the over/under counts use the same thresholds; hcSavings = current − optimised, costSavings = 5000 × hcSavings; occupancyBalance holds exactly when the optimised average is closer to 75 than the current one; recommendations from those results |
| HcOptimization.NothingToOptimize | packages/frontend/src/components/calculations/OptimizationDialog.tsx:97-107 | with every occupancy between 50 and the maximum, no HC changes |
| HcOptimization.StaffedIntervalsClamped | packages/frontend/src/components/calculations/OptimizationDialog.tsx:110-124 | when every interval is staffed, every optimised occupancy is defined |
| HcOptimization.OptimizedAverageInRange | packages/frontend/src/components/calculations/OptimizationDialog.tsx:124 | with all intervals staffed, the optimised average is defined and in [0, 95] |
| HcOptimization.GenerateOptimizationRecommendations | packages/frontend/src/components/calculations/OptimizationDialog.tsx:153-183 | the push sequence yields the advice list |
| HcOptimization.AdviceRules | packages/frontend/src/components/calculations/OptimizationDialog.tsx:153-183 | at most 3 items; the savings item iff hcSavings > 0, and then first; redistribution iff some optimised occupancy is above 80; flexibilisation iff more than 5 are below 60 |
| ScheduleReport.AppendLines | packages/frontend/src/components/schedule/ExportScheduleDialog.tsx:205-207 | the forEach appends one line per item, in order |
| ScheduleReport.GenerateExportContent | packages/frontend/src/components/schedule/ExportScheduleDialog.tsx:185-259 | the CSV or text content is the chosen blocks appended in order |
| ScheduleReport.StatusLabel | packages/frontend/src/components/schedule/ExportScheduleDialog.tsx:135 | 'gap' shows as "Gap", anything else as "Excesso" |
| ScheduleReport.RenderPage | packages/frontend/src/components/schedule/ExportScheduleDialog.tsx:74-183 | for any well-formed page text, the sequence of `+=` steps and row loops yields the HTML report: head, chosen blocks, one table row per period and per shift |
| ScheduleReport.GeneratePdf | packages/frontend/src/components/schedule/ExportScheduleDialog.tsx:74-183 | the page text's fragments fit their fill-ins, and the generated page is the page above |
| ScheduleReport.ExportedDocument | packages/frontend/src/components/schedule/ExportScheduleDialog.tsx:278-296 | PDF gives the HTML page, CSV the CSV content, Excel the plain text content |
| ScheduleReport.CsvOptionalBlocks | packages/frontend/src/components/schedule/ExportScheduleDialog.tsx:188-215 | the CSV starts with the title; the summary flag inserts its block right after it; the hourly flag inserts its block just before the per-shift block, which is always last |
| ScheduleReport.FlagsNotRead | packages/frontend/src/components/schedule/ExportScheduleDialog.tsx:74-259 | CSV ignores includeRecommendations; no generator reads includeCharts |
| ScheduleReport.RecommendationsAppended | packages/frontend/src/components/schedule/ExportScheduleDialog.tsx:167-181 | in text the flag appends the recommendations at the end; in HTML it inserts them before the closing tags |
| ScheduleReport.CsvPeriodLineRoundTrip | packages/frontend/src/components/schedule/ExportScheduleDialog.tsx:206 | a period line splits back into time, scheduled, needed, coverage% and status |
| ScheduleReport.CsvPeriodRowsSplit | packages/frontend/src/components/schedule/ExportScheduleDialog.tsx:205-207 | the hourly rows split at newlines into one line per period |
| ScheduleReport.CsvHourlyRowsReadBack | packages/frontend/src/components/schedule/ExportScheduleDialog.tsx:202-208 | the hourly CSV rows are one per period, in input order, each reading back as its period |

## Left out

- Floating point:
  - Numbers are exact reals, so factorial and `Math.pow` overflow to Infinity beyond about 170 agents is not modelled.
  - `toFixed` in `formatPercentage` and in the DSR Sunday message is not modelled: DSR violations are a datatype carrying the numbers rather than the formatted message text.
- `Math.exp` is a parameter. Results that need its sign require `0 < exp(x) <= 1` for `x <= 0`.
- `avgWaitTime` in the agent search is computed but never read; it is not modelled.
- Empty lists for `Math.max(...[])` (-Infinity) and for a mean (NaN) in the backend handlers and the shift allocator:
  - The handlers and the allocator require non-empty curves and a non-zero total shift duration; the route schema guarantees durations >= 1.
  - The dialogs, which do handle empty lists, model them with `Option`.
- Staffing.HCNeed: requires unproductivity below 100. The code divides by `1 - unproductivity/100` without a guard while the route schema admits 100, and that value gives Infinity in JavaScript.
- Staffing.Shrinkage: requires a percentage other than 100, which would divide by zero.
- TimeUtils.TimeToMinutes: `Number()` is modelled for optionally signed decimal digit strings (the empty string is 0). Other JavaScript number syntaxes give NaN (None) in the model, although JavaScript accepts them: surrounding blanks, fractions, exponents, hexadecimal.
- ScheduleReport.GenerateExportContent: report numbers are integers printed in decimal. Fractional values and JavaScript's number-to-string formatting are not modelled.
- ScheduleReport.GenerateExportContent: each optional block is appended as one string rather than line by line. Only the per-row loops are loops in the model.
- ScheduleReport.GeneratePdf: the HTML fragments sit in a record of page text. `Page` holds the literal text, and the proofs are over any well-formed page text.
- The date shown in the reports (`toLocaleDateString`) is a parameter.
- The file name, time stamp and MIME type are not modelled.
- `window.open`, printing and the download link are not modelled.
- Date helpers depend on the runtime's calendar and time zone, so they are not modelled: `getDaysInMonth`, `isWeekend`, `isSunday`, `generateDateRange`.
- The dimensioning handler's database row is left out except its interval label; the rest is a plain copy of computed values (`date: new Date()`, ids, allocated HC).
- HTTP routing, authentication, request parsing, Prisma access and the replies are not modelled. Validated request fields are parameters, and the schema ranges used by proofs are predicates.
- React rendering, toasts, `onSave`/`onOpenChange` callbacks and react-query mutations are not modelled:
  - The adjustment dialog's form is an array of newScheduled values.
  - The export mutation is the request value it would receive.
- `getMetrics` in the comparison dialog parses stored JSON, so it is not modelled.
- `parseNumberArray` in the premise form depends on `parseFloat` prefix parsing, so it is not modelled.
- CalculationRoutes.AvgHC: states only that the two-decimal rounding is within 0.005 of the mean, not the exact decimal.
- TimeUtils.MinutesToTime: takes an integer number of minutes. The source also accepts fractional minutes (90.5 gives "01:30.5"), which the model does not cover.
- OccupancyAnalysis.GenerateAnalysis: the severity and wording of each recommendation are not stated. A rule datatype stands for each recommendation, and `SeverityOf` gives its type.
