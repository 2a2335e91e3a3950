/** The catalog records the interface receives from the game API: games, their
    parent platforms and genres. Records are immutable once fetched. */
module Rawg {

  import opened Wrappers

  /** A parent platform (`RawgParentPlatform`; also the `platform` object of a
      game's `parent_platforms` entries). */
  datatype Platform = Platform(id: int, name: string, slug: string)

  /** A genre (`RawgGenre`). */
  datatype Genre = Genre(
    id: int,
    name: string,
    slug: string,
    gamesCount: Option<int>,
    imageBackground: Option<string>)

  /** A game (`RawgGame`). JavaScript numbers are modelled as integers, except the
      user rating, which is carried as an exact rational and never inspected. */
  datatype Game = Game(
    id: int,
    name: string,
    backgroundImage: Option<string>,
    released: Option<string>,
    metacritic: Option<int>,
    rating: Option<real>,
    parentPlatforms: Option<seq<Platform>>)

  /** The set of identifiers of a list of games. */
  function Ids(games: seq<Game>): (ids: set<int>)
    ensures forall i :: 0 <= i < |games| ==> games[i].id in ids
    ensures forall id :: id in ids ==> exists i :: 0 <= i < |games| && games[i].id == id
  {
    set g | g in games :: g.id
  }

  /** No identifier occurs twice. */
  predicate DistinctIds(games: seq<Game>) {
    forall i, j :: 0 <= i < j < |games| ==> games[i].id != games[j].id
  }

  /** Joining two lists with distinct identifiers and no identifier in common
      gives a list with distinct identifiers. */
  lemma DistinctIdsConcat(a: seq<Game>, b: seq<Game>)
    requires DistinctIds(a) && DistinctIds(b)
    requires Ids(a) !! Ids(b)
    ensures DistinctIds(a + b)
  {
    forall i, j | 0 <= i < j < |a + b| ensures (a + b)[i].id != (a + b)[j].id {
      if j >= |a| && i < |a| {
        assert (a + b)[i].id in Ids(a);
        assert (a + b)[j] == b[j - |a|];
        assert (a + b)[j].id in Ids(b);
      } else if i >= |a| {
        assert (a + b)[i] == b[i - |a|] && (a + b)[j] == b[j - |a|];
      }
    }
  }
}
