/** The scenario comparison dialog: a selection of at most three scenario
    ids, the side-by-side table built from it, and the arrows, colours and
    percentage deltas against the first (baseline) scenario. */
module ScenarioCompare {
  import opened Wrappers
  import opened JsRuntime
  import opened Selection

  /** The most scenarios one comparison holds. */
  const MaxSelected: nat := 3

  /** A saved scenario, as far as the dialog's selection logic sees it. */
  datatype Scenario = Scenario(id: Id, name: string)

  /** handleScenarioSelect: deselect a selected id; select an unselected
      one only while fewer than three are selected. */
  function SelectScenario(selected: seq<Id>, id: Id): (r: seq<Id>)
    ensures id in selected ==> r == Without(selected, id)
    ensures id !in selected && |selected| < MaxSelected ==> r == selected + [id]
    ensures id !in selected && |selected| >= MaxSelected ==> r == selected
    ensures id in r <==> id !in selected && |selected| < MaxSelected
  {
    if id in selected then Without(selected, id)
    else if |selected| < MaxSelected then selected + [id]
    else selected
  }

  /** A selection the dialog can reach: no repeats, at most three. */
  predicate ValidSelection(selected: seq<Id>)
  {
    NoDuplicates(selected) && |selected| <= MaxSelected
  }

  /** Every click keeps the selection duplicate-free and at most three long. */
  lemma {:induction false} SelectKeepsSelectionValid(selected: seq<Id>, id: Id)
    requires ValidSelection(selected)
    ensures ValidSelection(SelectScenario(selected, id))
  {
    if id in selected {
      WithoutNoDuplicates(selected, id);
    } else if |selected| < MaxSelected {
      AppendThenRemove(selected, id);
    }
  }

  /** Clicking an unselected id twice leaves the selection as it was. */
  lemma {:induction false} SelectTwiceRestores(selected: seq<Id>, id: Id)
    requires id !in selected
    ensures SelectScenario(SelectScenario(selected, id), id) == selected
  {
    if |selected| < MaxSelected {
      AppendThenRemove(selected, id);
    }
  }

  /** The Compare button is enabled from two selections on. */
  function CanCompare(selected: seq<Id>): (enabled: bool)
    ensures enabled <==> |selected| >= 2
  {
    !(|selected| < 2)
  }

  /** handleCompare: scenarios.filter(s => selectedScenarios.includes(s.id)) */
  function CompareScenarios(scenarios: seq<Scenario>, selected: seq<Id>): (r: seq<Scenario>)
    ensures forall s :: s in r <==> s in scenarios && s.id in selected
    ensures IsSublist(r, scenarios)
  {
    if scenarios == [] then []
    else
      assert scenarios == [scenarios[0]] + scenarios[1..];
      var rest := CompareScenarios(scenarios[1..], selected);
      if scenarios[0].id in selected then [scenarios[0]] + rest else rest
  }

  /** The table follows the scenario list, not the order of the clicks:
      two selections holding the same ids compare the same scenarios in
      the same order. */
  lemma {:induction false} CompareIgnoresClickOrder(scenarios: seq<Scenario>, selected: seq<Id>, reordered: seq<Id>)
    requires forall id :: id in selected <==> id in reordered
    ensures CompareScenarios(scenarios, selected) == CompareScenarios(scenarios, reordered)
    decreases |scenarios|
  {
    if scenarios != [] {
      CompareIgnoresClickOrder(scenarios[1..], selected, reordered);
    }
  }

  /** The arrow next to a non-baseline value. */
  datatype Arrow = Up | Down | Level

  /** The colour of a value or of an icon; the shade (500 for icons, 600 for
      value text) is not distinguished. */
  datatype Tone = Gray | Green | Red

  /** An icon: its arrow and the fixed colour drawn with it. */
  datatype Icon = Icon(arrow: Arrow, tone: Tone)

  /** getComparisonIcon: the arrow follows the change, and each arrow has a
      fixed colour (up red, down green, level gray) whatever the metric. */
  function ComparisonIcon(current: real, baseline: real): (i: Icon)
    ensures i.arrow == Up <==> current > baseline
    ensures i.arrow == Down <==> current < baseline
    ensures i.arrow == Level <==> current == baseline
    ensures i.tone == Red <==> current > baseline
    ensures i.tone == Green <==> current < baseline
    ensures i.tone == Gray <==> current == baseline
  {
    if current > baseline then Icon(Up, Red)
    else if current < baseline then Icon(Down, Green)
    else Icon(Level, Gray)
  }

  /** getComparisonColor: gray when equal, else green for a change in the
      good direction (down when isGoodWhenLower, up otherwise), red else. */
  function ComparisonColor(current: real, baseline: real, isGoodWhenLower: bool): (t: Tone)
    ensures t == Gray <==> current == baseline
    ensures t == Green <==> if isGoodWhenLower then current < baseline else current > baseline
    ensures t == Red <==> if isGoodWhenLower then current > baseline else current < baseline
  {
    if current == baseline then Gray
    else if isGoodWhenLower then (if current < baseline then Green else Red)
    else if current > baseline then Green else Red
  }

  /** Flipping isGoodWhenLower swaps green and red and keeps gray. */
  lemma {:induction false} ColorFlip(current: real, baseline: real, isGoodWhenLower: bool)
    ensures ComparisonColor(current, baseline, isGoodWhenLower) == Gray
        <==> ComparisonColor(current, baseline, !isGoodWhenLower) == Gray
    ensures ComparisonColor(current, baseline, isGoodWhenLower) == Green
        <==> ComparisonColor(current, baseline, !isGoodWhenLower) == Red
  {
  }

  /** The icon's colour agrees with the value's colour exactly for the
      lower-is-better metrics or an unchanged value: for a metric where
      higher is better, a rise shows green text beside a red arrow and a
      fall red text beside a green arrow. */
  lemma {:induction false} IconToneMatchesColor(current: real, baseline: real, isGoodWhenLower: bool)
    ensures ComparisonIcon(current, baseline).tone == ComparisonColor(current, baseline, isGoodWhenLower)
        <==> isGoodWhenLower || current == baseline
    ensures !isGoodWhenLower && current != baseline ==>
              ComparisonIcon(current, baseline).tone != Gray
              && ComparisonColor(current, baseline, isGoodWhenLower) != Gray
  {
  }

  /** The percentage delta Math.round((value - baseline) / baseline * 100);
      a zero baseline has no finite delta. */
  function PercentDelta(value: real, baseline: real): (r: Option<int>)
    ensures r.None? <==> baseline == 0.0
    ensures r.Some? ==> (value - baseline) / baseline * 100.0 - 0.5 < r.value as real <= (value - baseline) / baseline * 100.0 + 0.5
  {
    if baseline == 0.0 then None else Some(Round((value - baseline) / baseline * 100.0))
  }

  /** The baseline compared with itself is 0%; against a positive baseline
      the delta has the sign of the change. */
  lemma {:induction false} PercentDeltaSign(value: real, baseline: real)
    requires baseline > 0.0
    ensures PercentDelta(baseline, baseline) == Some(0)
    ensures value > baseline ==> PercentDelta(value, baseline).value >= 0
    ensures value < baseline ==> PercentDelta(value, baseline).value <= 0
  {
    if value > baseline {
      DivPos(value - baseline, baseline);
    } else if value < baseline {
      DivPos(baseline - value, baseline);
      assert (value - baseline) / baseline == -((baseline - value) / baseline);
    }
  }
}
