/** The selection rules of src/ui/widgets/downloads_list.rs: the list's
    selection is repaired after the list changes, and the scroll offset keeps
    the selected row on screen. */
module DownloadsList {
  import opened Wrappers

  /** The selection `validate_selection` leaves for a list of `count` rows:
      none for an empty list, otherwise a row of the list, the old one when it
      is still there, the last row when it is past the end, and the first row
      when nothing was selected. */
  function ClampSelection(selected: Option<nat>, count: nat): (r: Option<nat>)
    ensures count == 0 <==> r.None?
    ensures r.Some? ==> r.value < count
    ensures selected.Some? && selected.value < count ==> r == selected
    ensures selected.Some? && selected.value >= count > 0 ==> r == Some(count - 1)
    ensures selected.None? && count > 0 ==> r == Some(0)
  {
    if count == 0 then None
    else if selected.GetOr(0) >= count then Some(count - 1)
    else if selected.None? then Some(0)
    else selected
  }

  /** Repairing a repaired selection changes nothing. */
  lemma ClampIdempotent(selected: Option<nat>, count: nat)
    ensures ClampSelection(ClampSelection(selected, count), count) == ClampSelection(selected, count)
  {
  }

  /** The selection part of the list widget's state. */
  class ListState {
    var selected: Option<nat>

    /** `ListState::default`: nothing selected. */
    constructor ()
      ensures selected == None
    {
      selected := None;
    }

    /** `ListState::select`. */
    method Select(index: Option<nat>)
      modifies this
      ensures selected == index
    {
      selected := index;
    }
  }

  /** `validate_selection`. */
  method ValidateSelection(state: ListState, itemCount: nat)
    modifies state
    ensures state.selected == ClampSelection(old(state.selected), itemCount)
  {
    if itemCount == 0 {
      state.Select(None);
    } else if state.selected.GetOr(0) >= itemCount {
      state.Select(Some(itemCount - 1));
    } else if state.selected.None? {
      state.Select(Some(0));
    }
  }

  /** The two selection tests of the source: row 5 of an empty list is
      cleared, row 10 of five rows becomes row 4. */
  method SelectionScenario() returns (a: ListState, b: ListState)
    ensures a.selected == None && b.selected == Some(4)
  {
    a := new ListState();
    a.Select(Some(5));
    ValidateSelection(a, 0);
    b := new ListState();
    b.Select(Some(10));
    ValidateSelection(b, 5);
  }

  /** `calculate_scroll_offset`: with room for at least one row, the smallest
      offset that keeps the selected row on screen. */
  function ScrollOffset(selectedIndex: nat, itemsPerScreen: nat): (r: nat)
    ensures itemsPerScreen == 0 ==> r == 0
    ensures itemsPerScreen > 0 ==> r <= selectedIndex < r + itemsPerScreen
    ensures r > 0 ==> selectedIndex >= (r - 1) + itemsPerScreen
    ensures selectedIndex < itemsPerScreen ==> r == 0
  {
    if itemsPerScreen == 0 then 0
    else if selectedIndex < itemsPerScreen then 0
    else selectedIndex - itemsPerScreen + 1
  }

  /** The scroll tests of the source. */
  lemma ScrollExamples()
    ensures ScrollOffset(0, 10) == 0 && ScrollOffset(5, 10) == 0
    ensures ScrollOffset(15, 10) == 6 && ScrollOffset(20, 10) == 11
    ensures ScrollOffset(10, 0) == 0
  {
  }
}
