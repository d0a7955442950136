/**
 * The `selectedId` cell of App.jsx: which movie's detail pane is open.
 * `None` is the source's `null`.
 */
module Selection {
  import opened Optional

  type SelectedId = Option<string>

  /**
   * The updater passed to `setSelectedId` by `handleSelectMovieDetails(id)`:
   * clicking the open movie closes it, clicking any other movie opens that one.
   */
  function Toggle(selected: SelectedId, id: string): (r: SelectedId)
    ensures r.None? <==> selected == Some(id)
    ensures r.Some? ==> r.value == id
  {
    if selected == Some(id) then None else Some(id)
  }

  /** `handleCloseMovieDetails`: the pane closes whatever was open. */
  function Close(selected: SelectedId): (r: SelectedId)
    ensures r.None?
  {
    None
  }

  /** Selecting the same movie twice from a closed pane closes it again. */
  lemma ToggleTwiceFromNone(id: string)
    ensures Toggle(Toggle(None, id), id) == None
  {
  }

  /** Selecting twice from any state ends closed when the second click hits the open movie. */
  lemma ToggleTwice(selected: SelectedId, id: string)
    ensures Toggle(Toggle(selected, id), id) == (if selected == Some(id) then Some(id) else None)
  {
  }

  /** After closing, selecting a movie opens it (no toggle-close, the state passed through none). */
  lemma CloseThenSelect(selected: SelectedId, id: string)
    ensures Toggle(Close(selected), id) == Some(id)
  {
  }
}
