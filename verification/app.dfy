/** The page shell's two handlers: choosing a genre clears the search, and a
    search with content clears the genre, so the two never narrow the list at
    the same time. */
module App {

  import opened Wrappers
  import opened Strings
  import opened Rawg
  import GenreList
  import GameGrid

  datatype AppState = AppState(selectedGenre: Option<Genre>, searchQuery: string)

  /** Never a genre selected while the search text has content after trimming. */
  predicate Exclusive(s: AppState) {
    !(s.selectedGenre.Some? && HasContent(s.searchQuery))
  }

  /** Choosing a genre (or none) stores it and empties the search box. */
  function HandleGenreSelect(s: AppState, genre: Option<Genre>): (t: AppState)
    ensures t.selectedGenre == genre && t.searchQuery == ""
  {
    AppState(genre, "")
  }

  /** Typing in the search box stores the text as typed; text with anything but
      whitespace in it drops the genre selection. */
  function HandleSearchChange(s: AppState, value: string): (t: AppState)
    ensures t.searchQuery == value
    ensures !IsBlank(value) ==> t.selectedGenre.None?
    ensures IsBlank(value) ==> t.selectedGenre == s.selectedGenre
  {
    HasContentIffNotBlank(value);
    if HasContent(value) && s.selectedGenre.Some? then AppState(None, value) else AppState(s.selectedGenre, value)
  }

  /** Whatever the prior state, after either handler no genre is selected while
      the search has content. */
  lemma HandlersKeepExclusive(s: AppState, genre: Option<Genre>, value: string)
    ensures Exclusive(HandleGenreSelect(s, genre))
    ensures Exclusive(HandleSearchChange(s, value))
  {
    TrimEmptyIffBlank("");
    HasContentIffNotBlank(value);
  }

  /** A click on a genre in the side list, routed through the genre handler. */
  function ClickGenre(s: AppState, genre: Genre): (t: AppState)
    ensures t.searchQuery == ""
    ensures t.selectedGenre == (if s.selectedGenre.Some? && s.selectedGenre.value.id == genre.id
                                then None else Some(genre))
  {
    HandleGenreSelect(s, GenreList.Toggle(s.selectedGenre, genre))
  }

  /** The props the grid receives. */
  function GridProps(s: AppState): (props: (Option<string>, Option<string>))
    ensures props.0.Some? <==> s.selectedGenre.Some?
    ensures props.0.Some? ==> props.0.value == s.selectedGenre.value.slug
    ensures props.1 == Some(s.searchQuery)
    ensures Exclusive(s) ==> props.0.None? || !HasContent(props.1.value)
  {
    (if s.selectedGenre.Some? then Some(s.selectedGenre.value.slug) else None, Some(s.searchQuery))
  }

  /** Choosing a genre with a different slug restarts the grid's accumulation. */
  lemma GenreChangeResetsGrid(s: AppState, g: GameGrid.Grid, genre: Option<Genre>)
    requires GridProps(s) == (g.filters.genreSlug, g.filters.searchQuery)
    requires GridProps(HandleGenreSelect(s, genre)).0 != g.filters.genreSlug
    ensures var props := GridProps(HandleGenreSelect(s, genre));
      var t := GameGrid.ChangeProps(g, props.0, props.1);
      t.page == 1 && t.displayed == [] && t.hasMore
  {
  }
}
