/** The premise export dialog: a checkbox selection of premise ids with a
    select-all switch, and the request sent when exporting. */
module PremiseExport {
  import opened Wrappers
  import opened Selection

  /** The two file formats offered. */
  datatype ExportFormat = Csv | Excel

  /** The dialog's state. */
  datatype ExportState = ExportState(selected: seq<Id>, format: ExportFormat, includeCalculations: bool)

  /** What handleExport hands to the export mutation. */
  datatype ExportRequest = ExportRequest(premiseIds: seq<Id>, format: ExportFormat, includeCalculations: bool)

  /** The state the dialog opens with. */
  const InitialState: ExportState := ExportState([], Excel, false)

  /** handlePremiseToggle: remove a selected id, otherwise append it. */
  function TogglePremise(selected: seq<Id>, id: Id): (r: seq<Id>)
    ensures id in selected ==> r == Without(selected, id)
    ensures id !in selected ==> r == selected + [id]
    ensures id in r <==> id !in selected
    ensures forall other :: other != id ==> (other in r <==> other in selected)
  {
    if id in selected then Without(selected, id) else selected + [id]
  }

  /** Toggling keeps a selection duplicate-free. */
  lemma {:induction false} ToggleKeepsNoDuplicates(selected: seq<Id>, id: Id)
    requires NoDuplicates(selected)
    ensures NoDuplicates(TogglePremise(selected, id))
  {
    if id in selected {
      WithoutNoDuplicates(selected, id);
    } else {
      AppendThenRemove(selected, id);
    }
  }

  /** Toggling an id twice gives back a duplicate-free selection with the
      same ids; it is the same list when the id was not selected, and the id
      moves to the end when it was. */
  lemma {:induction false} ToggleTwice(selected: seq<Id>, id: Id)
    requires NoDuplicates(selected)
    ensures var twice := TogglePremise(TogglePremise(selected, id), id);
            && NoDuplicates(twice)
            && (forall other :: other in twice <==> other in selected)
            && (id !in selected ==> twice == selected)
            && (id in selected ==> twice == Without(selected, id) + [id])
  {
    ToggleKeepsNoDuplicates(selected, id);
    ToggleKeepsNoDuplicates(TogglePremise(selected, id), id);
    if id !in selected {
      AppendThenRemove(selected, id);
    }
  }

  /** handleSelectAll: clear when as many ids are selected as there are
      premises, otherwise select every premise id in list order. */
  function SelectAll(selected: seq<Id>, premiseIds: seq<Id>): (r: seq<Id>)
    ensures |selected| == |premiseIds| ==> r == []
    ensures |selected| != |premiseIds| ==> r == premiseIds
  {
    if |selected| == |premiseIds| then [] else premiseIds
  }

  /** The switch looks at lengths only: two selected ids that are not
      premises at all still count as "all selected" and are cleared. */
  lemma {:induction false} SelectAllComparesLengthsOnly()
    ensures SelectAll(["x", "y"], ["p1", "p2"]) == []
  {
  }

  /** From a partial selection, select-all then select-all again clears. */
  lemma {:induction false} SelectAllTwice(selected: seq<Id>, premiseIds: seq<Id>)
    requires |selected| != |premiseIds|
    ensures SelectAll(selected, premiseIds) == premiseIds
    ensures SelectAll(SelectAll(selected, premiseIds), premiseIds) == []
  {
  }

  /** handleExport: nothing happens on an empty selection; otherwise the
      selection, format and flag are sent as they are. */
  function ExportRequestOf(state: ExportState): (r: Option<ExportRequest>)
    ensures r.None? <==> state.selected == []
    ensures r.Some? ==> (&& r.value.premiseIds == state.selected
                         && r.value.format == state.format
                         && r.value.includeCalculations == state.includeCalculations)
  {
    if |state.selected| == 0 then None
    else Some(ExportRequest(state.selected, state.format, state.includeCalculations))
  }

  /** handleCancel: the selection is emptied; format and flag stay. */
  function Cancel(state: ExportState): (r: ExportState)
    ensures r.selected == [] && r.format == state.format && r.includeCalculations == state.includeCalculations
  {
    state.(selected := [])
  }

  /** After cancelling, exporting does nothing. */
  lemma {:induction false} CancelThenExport(state: ExportState)
    ensures ExportRequestOf(Cancel(state)).None?
  {
  }
}
