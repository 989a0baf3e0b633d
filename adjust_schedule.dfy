/** The schedule-adjustment dialog: one editable row per period, holding
    the currently scheduled headcount, the proposed new headcount and the
    need. The dialog keeps the rows in component state and mirrors every
    newScheduled value into a form field of the same index. */
module AdjustSchedule {
  import opened JsRuntime

  /** A period of the schedule as the dialog receives it. */
  datatype Period = Period(time: string, scheduled: real, needed: real, coverage: real, status: string)

  /** One editable row. */
  datatype Adjustment = Adjustment(time: string, currentScheduled: real, newScheduled: real, needed: real)

  // ---------------------------------------------------------------------------
  // The row list as values

  /** The initial rows: each period with newScheduled = currentScheduled =
      its scheduled headcount. */
  function InitialAdjustments(periods: seq<Period>): (adjustments: seq<Adjustment>)
    ensures |adjustments| == |periods|
    ensures forall i :: 0 <= i < |periods| ==>
              && adjustments[i].time == periods[i].time
              && adjustments[i].currentScheduled == periods[i].scheduled
              && adjustments[i].newScheduled == periods[i].scheduled
              && adjustments[i].needed == periods[i].needed
  {
    seq(|periods|, i requires 0 <= i < |periods| =>
      Adjustment(periods[i].time, periods[i].scheduled, periods[i].scheduled, periods[i].needed))
  }

  /** updateAdjustment's copy: row `index` with a new newScheduled. */
  function WithNewScheduled(adjustments: seq<Adjustment>, index: nat, newScheduled: real): (r: seq<Adjustment>)
    requires index < |adjustments|
  {
    adjustments[index := adjustments[index].(newScheduled := newScheduled)]
  }

  /** The rows autoOptimize proposes: newScheduled = max(1, needed). */
  function AutoOptimized(adjustments: seq<Adjustment>): (r: seq<Adjustment>)
  {
    seq(|adjustments|, i requires 0 <= i < |adjustments| =>
      adjustments[i].(newScheduled := Max2(1.0, adjustments[i].needed)))
  }

  /** The rows resetChanges restores: newScheduled = currentScheduled. */
  function Reset(adjustments: seq<Adjustment>): (r: seq<Adjustment>)
  {
    seq(|adjustments|, i requires 0 <= i < |adjustments| =>
      adjustments[i].(newScheduled := adjustments[i].currentScheduled))
  }

  /** Which column a total adds up. */
  datatype Column = CurrentScheduled | NewScheduled | Needed

  function ColumnOf(adjustment: Adjustment, column: Column): real
  {
    match column
    case CurrentScheduled => adjustment.currentScheduled
    case NewScheduled => adjustment.newScheduled
    case Needed => adjustment.needed
  }

  /** adjustments.reduce((sum, adj) => sum + adj.<column>, 0) */
  function Total(adjustments: seq<Adjustment>, column: Column): real
  {
    if adjustments == [] then 0.0
    else Total(adjustments[..|adjustments| - 1], column) + ColumnOf(adjustments[|adjustments| - 1], column)
  }

  // ---------------------------------------------------------------------------
  // What the updates promise

  /** Only row `index`, and in it only newScheduled, changes. */
  lemma {:induction false} UpdateTouchesOneRow(adjustments: seq<Adjustment>, index: nat, newScheduled: real)
    requires index < |adjustments|
    ensures var r := WithNewScheduled(adjustments, index, newScheduled);
            && |r| == |adjustments|
            && r[index].newScheduled == newScheduled
            && r[index].time == adjustments[index].time
            && r[index].currentScheduled == adjustments[index].currentScheduled
            && r[index].needed == adjustments[index].needed
            && forall j :: 0 <= j < |adjustments| && j != index ==> r[j] == adjustments[j]
  {
  }

  /** Totals of columns other than newScheduled do not move; the new total
      moves by exactly the change to row `index`. */
  lemma {:induction false} UpdateTotals(adjustments: seq<Adjustment>, index: nat, newScheduled: real, column: Column)
    requires index < |adjustments|
    ensures Total(WithNewScheduled(adjustments, index, newScheduled), column)
         == if column == NewScheduled
            then Total(adjustments, column) - adjustments[index].newScheduled + newScheduled
            else Total(adjustments, column)
    decreases |adjustments|
  {
    var r := WithNewScheduled(adjustments, index, newScheduled);
    var last := |adjustments| - 1;
    if index == last {
      assert r[..last] == adjustments[..last];
    } else {
      assert r[..last] == WithNewScheduled(adjustments[..last], index, newScheduled);
      UpdateTotals(adjustments[..last], index, newScheduled, column);
    }
  }

  /** autoOptimize rewrites every newScheduled to max(1, needed) and keeps
      time, currentScheduled and needed. */
  lemma {:induction false} AutoOptimizeRows(adjustments: seq<Adjustment>)
    ensures var r := AutoOptimized(adjustments);
            && |r| == |adjustments|
            && forall i :: 0 <= i < |r| ==>
                 && r[i].newScheduled >= 1.0 && r[i].newScheduled >= r[i].needed
                 && (r[i].newScheduled == 1.0 || r[i].newScheduled == r[i].needed)
                 && r[i].time == adjustments[i].time
                 && r[i].currentScheduled == adjustments[i].currentScheduled
                 && r[i].needed == adjustments[i].needed
  {
  }

  /** Optimising twice is optimising once. */
  lemma {:induction false} AutoOptimizeIdempotent(adjustments: seq<Adjustment>)
    ensures AutoOptimized(AutoOptimized(adjustments)) == AutoOptimized(adjustments)
  {
    var once := AutoOptimized(adjustments);
    var twice := AutoOptimized(once);
    assert forall i :: 0 <= i < |once| ==> twice[i] == once[i];
  }

  /** Resetting twice is resetting once, and a reset forgets any edit. */
  lemma {:induction false} ResetIdempotent(adjustments: seq<Adjustment>, index: nat, newScheduled: real)
    requires index < |adjustments|
    ensures Reset(Reset(adjustments)) == Reset(adjustments)
    ensures Reset(WithNewScheduled(adjustments, index, newScheduled)) == Reset(adjustments)
  {
    var once := Reset(adjustments);
    assert forall i :: 0 <= i < |once| ==> Reset(once)[i] == once[i];
    var edited := Reset(WithNewScheduled(adjustments, index, newScheduled));
    assert forall i :: 0 <= i < |once| ==> edited[i] == once[i];
  }

  /** After a reset the new total equals the current total. */
  lemma {:induction false} ResetTotals(adjustments: seq<Adjustment>)
    ensures Total(Reset(adjustments), NewScheduled) == Total(adjustments, CurrentScheduled)
    ensures Total(Reset(adjustments), CurrentScheduled) == Total(adjustments, CurrentScheduled)
    decreases |adjustments|
  {
    if adjustments != [] {
      var last := |adjustments| - 1;
      assert Reset(adjustments)[..last] == Reset(adjustments[..last]);
      ResetTotals(adjustments[..last]);
    }
  }

  /** After autoOptimize the new total covers the total need and gives every
      row at least one agent. */
  lemma {:induction false} AutoOptimizeTotals(adjustments: seq<Adjustment>)
    ensures Total(AutoOptimized(adjustments), NewScheduled) >= Total(adjustments, Needed)
    ensures Total(AutoOptimized(adjustments), NewScheduled) >= |adjustments| as real
    decreases |adjustments|
  {
    if adjustments != [] {
      var last := |adjustments| - 1;
      assert AutoOptimized(adjustments)[..last] == AutoOptimized(adjustments[..last]);
      AutoOptimizeTotals(adjustments[..last]);
    }
  }

  // ---------------------------------------------------------------------------
  // Coverage

  /** calculateCoverage: scheduled over needed in whole percent, 0 when
      nothing is needed. */
  function Coverage(scheduled: real, needed: real): (r: int)
    ensures needed <= 0.0 ==> r == 0
    ensures needed > 0.0 ==> scheduled / needed * 100.0 - 0.5 < r as real <= scheduled / needed * 100.0 + 0.5
  {
    if needed > 0.0 then Round(scheduled / needed * 100.0) else 0
  }

  /** Scheduling exactly the need is 100% coverage; more staff never lowers it. */
  lemma {:induction false} CoverageOfNeed(scheduled: real, more: real, needed: real)
    requires needed > 0.0 && scheduled <= more
    ensures Coverage(needed, needed) == 100
    ensures Coverage(scheduled, needed) <= Coverage(more, needed)
  {
    assert needed / needed == 1.0;
    DivMonotone(scheduled, more, needed);
  }

  /** The three colours of a coverage figure. */
  datatype CoverageColor = Red | Yellow | Green

  /** getCoverageColor: below 90 red, above 120 yellow, otherwise green. */
  function GetCoverageColor(coverage: real): (c: CoverageColor)
    ensures c == Red <==> coverage < 90.0
    ensures c == Yellow <==> coverage > 120.0
    ensures c == Green <==> 90.0 <= coverage <= 120.0
  {
    if coverage < 90.0 then Red
    else if coverage > 120.0 then Yellow
    else Green
  }

  // ---------------------------------------------------------------------------
  // The dialog's state

  /** The dialog: the row list in component state, and the form's
      newScheduled fields, one per row. */
  class AdjustScheduleDialog {
    var adjustments: seq<Adjustment>
    const formNewScheduled: array<real>

    /** The form mirrors the state. */
    ghost predicate Valid()
      reads this, formNewScheduled
    {
      formNewScheduled.Length == |adjustments|
      && forall i :: 0 <= i < |adjustments| ==> formNewScheduled[i] == adjustments[i].newScheduled
    }

    function TotalCurrentScheduled(): real
      reads this
    {
      Total(adjustments, CurrentScheduled)
    }

    function TotalNewScheduled(): real
      reads this
    {
      Total(adjustments, NewScheduled)
    }

    function TotalNeeded(): real
      reads this
    {
      Total(adjustments, Needed)
    }

    /** Opening the dialog: rows from the periods, form defaults from the rows. */
    constructor(periods: seq<Period>)
      ensures Valid() && fresh(formNewScheduled)
      ensures adjustments == InitialAdjustments(periods)
    {
      var initial := InitialAdjustments(periods);
      adjustments := initial;
      formNewScheduled := new real[|initial|](i requires 0 <= i < |initial| => initial[i].newScheduled);
    }

    /** updateAdjustment: copy the rows, replace row `index`, write its form field. */
    method UpdateAdjustment(index: nat, newScheduled: real)
      requires Valid() && index < |adjustments|
      modifies this, formNewScheduled
      ensures Valid()
      ensures adjustments == WithNewScheduled(old(adjustments), index, newScheduled)
    {
      var updated := adjustments;
      updated := updated[index := updated[index].(newScheduled := newScheduled)];
      adjustments := updated;
      formNewScheduled[index] := newScheduled;
    }

    /** autoOptimize: replace the rows, then write every form field. */
    method AutoOptimize()
      requires Valid()
      modifies this, formNewScheduled
      ensures Valid()
      ensures adjustments == AutoOptimized(old(adjustments))
    {
      var optimized := AutoOptimized(adjustments);
      adjustments := optimized;
      WriteFormFields(optimized);
    }

    /** resetChanges: replace the rows, then write every form field. */
    method ResetChanges()
      requires Valid()
      modifies this, formNewScheduled
      ensures Valid()
      ensures adjustments == Reset(old(adjustments))
    {
      var reset := Reset(adjustments);
      adjustments := reset;
      WriteFormFields(reset);
    }

    /** rows.forEach((adj, index) => form.setValue(..., adj.newScheduled)) */
    method WriteFormFields(rows: seq<Adjustment>)
      requires formNewScheduled.Length == |rows|
      modifies formNewScheduled
      ensures forall i :: 0 <= i < |rows| ==> formNewScheduled[i] == rows[i].newScheduled
    {
      var index := 0;
      while index < |rows|
        invariant 0 <= index <= |rows|
        invariant forall i :: 0 <= i < index ==> formNewScheduled[i] == rows[i].newScheduled
      {
        formNewScheduled[index] := rows[index].newScheduled;
        index := index + 1;
      }
    }
  }
}
