/** The genre side list: which genre is highlighted, and what a click or a key
    press on a genre asks the parent to select. */
module GenreList {

  import opened Wrappers
  import opened Rawg

  /** A genre is highlighted when its id is the selected id (an absent selected
      id highlights nothing). */
  function IsSelected(selectedGenreId: Option<int>, genre: Genre): (b: bool)
    ensures selectedGenreId.None? ==> !b
    ensures b <==> selectedGenreId.Some? && selectedGenreId.value == genre.id
  {
    selectedGenreId == Some(genre.id)
  }

  /** Among genres with distinct ids, at most one is highlighted. */
  lemma AtMostOneHighlighted(genres: seq<Genre>, selectedGenreId: Option<int>, i: int, j: int)
    requires forall a, b :: 0 <= a < b < |genres| ==> genres[a].id != genres[b].id
    requires 0 <= i < |genres| && 0 <= j < |genres|
    requires IsSelected(selectedGenreId, genres[i]) && IsSelected(selectedGenreId, genres[j])
    ensures i == j
  {
    assert genres[i].id == genres[j].id;
  }

  /** A click: the highlighted genre asks for no selection, any other genre asks
      to be selected. */
  function Activate(selectedGenreId: Option<int>, genre: Genre): (request: Option<Genre>)
    ensures request.None? <==> selectedGenreId.Some? && selectedGenreId.value == genre.id
    ensures request.Some? ==> request.value == genre
  {
    if IsSelected(selectedGenreId, genre) then None else Some(genre)
  }

  /** A key press: Enter and Space act like a click; any other key asks for
      nothing (`None`: the handler is not called). */
  function KeyDown(selectedGenreId: Option<int>, genre: Genre, key: string): (call: Option<Option<Genre>>)
    ensures call.Some? <==> key == "Enter" || key == " "
    ensures call.Some? ==> call.value == Activate(selectedGenreId, genre)
  {
    if key == "Enter" || key == " " then Some(Activate(selectedGenreId, genre)) else None
  }

  /** The id the parent passes down for its current selection (`selectedGenre?.id`). */
  function SelectedId(selected: Option<Genre>): (id: Option<int>)
    ensures id.Some? <==> selected.Some?
    ensures id.Some? ==> id.value == selected.value.id
  {
    if selected.Some? then Some(selected.value.id) else None
  }

  /** Clicking a genre and handing the request back as the new selection. */
  function Toggle(selected: Option<Genre>, genre: Genre): (r: Option<Genre>)
    ensures r.None? <==> selected.Some? && selected.value.id == genre.id
    ensures r.Some? ==> r.value == genre
  {
    Activate(SelectedId(selected), genre)
  }

  /** Clicking the same genre twice restores the selection exactly when nothing
      was selected or that very genre was; after a different genre, the second
      click clears the selection. */
  lemma ToggleTwice(selected: Option<Genre>, genre: Genre)
    ensures Toggle(Toggle(selected, genre), genre) == selected
        <==> selected.None? || selected == Some(genre)
    ensures selected.Some? && selected.value.id != genre.id ==> Toggle(Toggle(selected, genre), genre).None?
  {
  }
}
