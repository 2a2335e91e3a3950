/** The infinite-scroll accumulation controller of the game grid, as an explicit
    record with pure transitions. The component keeps the current filters
    (genre, search text, platform, ordering), the page cursor, the list of games
    on screen, the has-more flag, and the hook's loading flag; four events move
    it: a filter change, an update from the game hook, the sentinel coming into
    view, and a choice in the platform drop-down. */
module GameGrid {

  import opened Wrappers
  import opened Strings
  import opened Rawg
  import UseGame

  /** The filter dimensions; a change in any of them restarts accumulation. */
  datatype Filters = Filters(
    genreSlug: Option<string>,
    searchQuery: Option<string>,
    platform: Option<Platform>,
    ordering: string)

  /** The controller's state. `isLoading` mirrors the game hook's flag. */
  datatype Grid = Grid(
    filters: Filters,
    page: int,
    displayed: seq<Game>,
    hasMore: bool,
    isLoading: bool)

  /** The state on mount: no platform, relevance ordering, page 1, nothing shown,
      more pages assumed, the first request in flight. */
  function Mount(genreSlug: Option<string>, searchQuery: Option<string>): (s: Grid)
    ensures s.page == 1 && s.displayed == [] && s.hasMore
    ensures s.isLoading == UseGame.Initial.isLoading
    ensures s.filters.platform.None? && s.filters.ordering == ""
  {
    Grid(Filters(genreSlug, searchQuery, None, ""), 1, [], true, true)
  }

  /** The options the grid passes to the game hook: the page size is left to its
      default and the platform contributes its id. */
  function HookOptions(s: Grid): (o: UseGame.Options)
    ensures UseGame.RequestParams(o).pageSize == UseGame.DefaultPageSize
    ensures UseGame.RequestParams(o).page == s.page
    ensures UseGame.RequestParams(o).parentPlatforms.Some? <==> s.filters.platform.Some?
    ensures s.filters.platform.Some? ==>
      UseGame.RequestParams(o).parentPlatforms == Some(s.filters.platform.value.id)
    ensures UseGame.RequestParams(o).genres == s.filters.genreSlug
    ensures UseGame.RequestParams(o).search == s.filters.searchQuery
    ensures UseGame.RequestParams(o).ordering ==
      if IsBlank(s.filters.ordering) then UseGame.DefaultOrdering else s.filters.ordering
  {
    var platformId := if s.filters.platform.Some? then Some(s.filters.platform.value.id) else None;
    UseGame.Options(None, s.filters.genreSlug, s.filters.searchQuery, platformId, Some(s.page),
                    Some(s.filters.ordering))
  }

  /** The "Relevance" sort option (the empty ordering) issues exactly the request
      of the "Metacritic" option: both ask for "-metacritic". */
  lemma RelevanceRequestsMetacritic(s: Grid)
    ensures UseGame.RequestParams(HookOptions(s.(filters := s.filters.(ordering := ""))))
         == UseGame.RequestParams(HookOptions(s.(filters := s.filters.(ordering := UseGame.DefaultOrdering))))
  {
    assert !IsBlank(UseGame.DefaultOrdering) by {
      assert !IsWhitespace(UseGame.DefaultOrdering[0]);
    }
  }

  // ---------------------------------------------------------------------------
  // Filter change: the reset effect
  // ---------------------------------------------------------------------------

  /** New filter values arrive. The reset effect runs only when some dimension
      actually changed; it then restarts from page 1 with nothing shown. */
  function ChangeFilters(s: Grid, f: Filters): (t: Grid)
    ensures t.filters == f && t.isLoading == s.isLoading
    ensures f != s.filters ==> t.page == 1 && t.displayed == [] && t.hasMore
    ensures f == s.filters ==> t == s
  {
    if f == s.filters then s else Grid(f, 1, [], true, s.isLoading)
  }

  /** The parent passes a new genre or search text. */
  function ChangeProps(s: Grid, genreSlug: Option<string>, searchQuery: Option<string>): (t: Grid)
    ensures t.filters == s.filters.(genreSlug := genreSlug, searchQuery := searchQuery)
    ensures t.isLoading == s.isLoading
    ensures (genreSlug != s.filters.genreSlug || searchQuery != s.filters.searchQuery) ==>
      t.page == 1 && t.displayed == [] && t.hasMore
    ensures genreSlug == s.filters.genreSlug && searchQuery == s.filters.searchQuery ==> t == s
  {
    ChangeFilters(s, s.filters.(genreSlug := genreSlug, searchQuery := searchQuery))
  }

  /** The sort selector picks an ordering. */
  function ChangeOrdering(s: Grid, ordering: string): (t: Grid)
    ensures t.filters == s.filters.(ordering := ordering) && t.isLoading == s.isLoading
    ensures ordering != s.filters.ordering ==> t.page == 1 && t.displayed == [] && t.hasMore
    ensures ordering == s.filters.ordering ==> t == s
  {
    ChangeFilters(s, s.filters.(ordering := ordering))
  }

  /** The "Clear platform filter" button: no platform and relevance ordering, in
      one render. */
  function ClearPlatformFilter(s: Grid): (t: Grid)
    ensures t.filters.platform.None? && t.filters.ordering == ""
    ensures t.filters.genreSlug == s.filters.genreSlug && t.filters.searchQuery == s.filters.searchQuery
    ensures t.isLoading == s.isLoading
    ensures s.filters.platform.Some? ==> t.page == 1 && t.displayed == [] && t.hasMore
    ensures s.filters.platform.None? && s.filters.ordering == "" ==> t == s
  {
    ChangeFilters(s, s.filters.(platform := None, ordering := ""))
  }

  // ---------------------------------------------------------------------------
  // Platform drop-down
  // ---------------------------------------------------------------------------

  /** The drop-down's value: the selected platform's id as a string, or "" for
      "All platforms". */
  function SelectValue(selected: Option<Platform>): (v: string)
    ensures v == "" <==> selected.None?
  {
    if selected.Some? then IntToString(selected.value.id) else ""
  }

  /** The index of the first platform whose id renders as `value`. */
  function PlatformIndex(platforms: seq<Platform>, value: string): (r: Option<nat>)
    ensures r.Some? ==> r.value < |platforms| && IntToString(platforms[r.value].id) == value
    ensures r.Some? ==> forall j :: 0 <= j < r.value ==> IntToString(platforms[j].id) != value
    ensures r.None? ==> forall j :: 0 <= j < |platforms| ==> IntToString(platforms[j].id) != value
  {
    if |platforms| == 0 then None
    else if IntToString(platforms[0].id) == value then Some(0)
    else
      match PlatformIndex(platforms[1..], value)
      case None => None
      case Some(i) => Some(i + 1)
  }

  /** The change handler's lookup: the first listed platform whose id, as a
      string, equals the chosen value, or none. */
  function FindPlatform(platforms: seq<Platform>, value: string): (r: Option<Platform>)
    ensures r.Some? ==> r.value in platforms && IntToString(r.value.id) == value
    ensures r.Some? ==> exists i :: (0 <= i < |platforms| && platforms[i] == r.value
                                      && forall j :: 0 <= j < i ==> IntToString(platforms[j].id) != value)
    ensures r.None? ==> forall p :: p in platforms ==> IntToString(p.id) != value
  {
    match PlatformIndex(platforms, value)
    case None => None
    case Some(i) => Some(platforms[i])
  }

  /** "All platforms" (value "") never matches a platform. */
  lemma AllPlatformsSelectsNone(platforms: seq<Platform>)
    ensures FindPlatform(platforms, "") == None
  {
  }

  /** Choosing the option of a listed platform selects the first listed platform
      with that id. */
  lemma {:induction false} SelectValueFindsFirstWithId(platforms: seq<Platform>, p: Platform)
    requires p in platforms
    ensures PlatformIndex(platforms, SelectValue(Some(p))).Some?
    ensures var k := PlatformIndex(platforms, SelectValue(Some(p))).value;
      platforms[k].id == p.id && forall j :: 0 <= j < k ==> platforms[j].id != p.id
  {
    var v := SelectValue(Some(p));
    var i :| 0 <= i < |platforms| && platforms[i] == p;
    assert IntToString(platforms[i].id) == v;
    var k := PlatformIndex(platforms, v).value;
    IntToStringInjective(platforms[k].id, p.id);
    forall j | 0 <= j < k ensures platforms[j].id != p.id {
      IntToStringInjective(platforms[j].id, p.id);
    }
  }

  /** When listed platforms have distinct ids, the drop-down round-trips: the
      value shown for a platform selects that very platform. */
  lemma SelectValueRoundTrip(platforms: seq<Platform>, p: Platform)
    requires p in platforms
    requires forall i, j :: 0 <= i < j < |platforms| ==> platforms[i].id != platforms[j].id
    ensures FindPlatform(platforms, SelectValue(Some(p))) == Some(p)
  {
    SelectValueFindsFirstWithId(platforms, p);
    var k := PlatformIndex(platforms, SelectValue(Some(p))).value;
    var i :| 0 <= i < |platforms| && platforms[i] == p;
    assert !(k < i) && !(i < k);
  }

  /** A choice in the platform drop-down: the handler's lookup, then the reset
      effect when the selection changed. */
  function SelectPlatform(s: Grid, platforms: seq<Platform>, value: string): (t: Grid)
    ensures t.filters == s.filters.(platform := FindPlatform(platforms, value))
    ensures t.isLoading == s.isLoading
    ensures value == "" ==> t.filters.platform.None?
    ensures t.filters.platform != s.filters.platform ==> t.page == 1 && t.displayed == [] && t.hasMore
    ensures t.filters.platform == s.filters.platform ==> t == s
  {
    ChangeFilters(s, s.filters.(platform := FindPlatform(platforms, value)))
  }

  // ---------------------------------------------------------------------------
  // Fetch update: the merge effect
  // ---------------------------------------------------------------------------

  /** The games of a fetched page whose id is not in `known`, in fetched order. */
  function Fresh(known: set<int>, games: seq<Game>): (r: seq<Game>)
    ensures |r| <= |games|
    ensures forall g :: g in r <==> g in games && g.id !in known
  {
    if |games| == 0 then []
    else (if games[0].id in known then [] else [games[0]]) + Fresh(known, games[1..])
  }

  /** Filtering distributes over concatenation: the kept games appear in the
      order they were fetched. */
  lemma {:induction false} FreshConcat(known: set<int>, a: seq<Game>, b: seq<Game>)
    ensures Fresh(known, a + b) == Fresh(known, a) + Fresh(known, b)
  {
    if |a| > 0 {
      assert (a + b)[1..] == a[1..] + b;
      FreshConcat(known, a[1..], b);
    } else {
      assert a + b == b;
    }
  }

  /** Filtering a single game keeps it exactly when its id is new. */
  lemma FreshSingle(known: set<int>, g: Game)
    ensures Fresh(known, [g]) == if g.id in known then [] else [g]
  {
    assert [g][1..] == [];
  }

  /** Filtering a list with distinct ids keeps them distinct. */
  lemma {:induction false} FreshDistinct(known: set<int>, games: seq<Game>)
    requires DistinctIds(games)
    ensures DistinctIds(Fresh(known, games))
  {
    if |games| > 0 {
      var rest := games[1..];
      assert DistinctIds(rest) by {
        forall i, j | 0 <= i < j < |rest| ensures rest[i].id != rest[j].id {
          assert rest[i] == games[i + 1] && rest[j] == games[j + 1];
        }
      }
      FreshDistinct(known, rest);
      var head := if games[0].id in known then [] else [games[0]];
      assert Ids(head) !! Ids(Fresh(known, rest)) by {
        forall g | g in Fresh(known, rest) ensures g.id != games[0].id {
          var k :| 0 <= k < |rest| && rest[k] == g;
          assert games[k + 1] == g;
        }
      }
      DistinctIdsConcat(head, Fresh(known, rest));
    }
  }

  /** The displayed list after a fetched page is merged on page `page`. */
  function MergePage(prev: seq<Game>, games: seq<Game>, page: int): (r: seq<Game>)
    ensures page == 1 ==> r == games
    ensures page != 1 ==> |prev| <= |r| && r[..|prev|] == prev
    ensures page != 1 ==> forall g :: g in r[|prev|..] <==> g in games && g.id !in Ids(prev)
  {
    if page == 1 then games
    else
      var r := prev + Fresh(Ids(prev), games);
      assert r[|prev|..] == Fresh(Ids(prev), games);
      r
  }

  /** On a later page the merged list is the old list followed by exactly the
      fetched games with new ids, in fetched order. */
  lemma MergeLaterPage(prev: seq<Game>, games: seq<Game>, page: int)
    requires page != 1
    ensures MergePage(prev, games, page) == prev + Fresh(Ids(prev), games)
    ensures forall g :: g in MergePage(prev, games, page) <==> g in prev || (g in games && g.id !in Ids(prev))
  {
  }

  /** Merging keeps identifiers distinct when the old list and the fetched page
      each have distinct identifiers. */
  lemma MergeKeepsIdsDistinct(prev: seq<Game>, games: seq<Game>, page: int)
    requires DistinctIds(prev) && DistinctIds(games)
    ensures DistinctIds(MergePage(prev, games, page))
  {
    if page != 1 {
      FreshDistinct(Ids(prev), games);
      DistinctIdsConcat(prev, Fresh(Ids(prev), games));
    }
  }

  /** A game refetched on a later page stays at its first-seen position: the only
      position in the merged list carrying its id is its old one. */
  lemma RepeatKeepsFirstPosition(prev: seq<Game>, games: seq<Game>, page: int, i: int)
    requires page != 1 && DistinctIds(prev) && DistinctIds(games)
    requires 0 <= i < |prev|
    ensures var r := MergePage(prev, games, page);
      r[i] == prev[i] && forall j :: 0 <= j < |r| && r[j].id == prev[i].id ==> j == i
  {
    MergeKeepsIdsDistinct(prev, games, page);
  }

  /** Merging the same later page twice changes nothing the second time: the
      duplicate suppression makes a replayed page harmless. */
  lemma MergeIdempotent(prev: seq<Game>, games: seq<Game>, page: int)
    requires page != 1
    ensures MergePage(MergePage(prev, games, page), games, page) == MergePage(prev, games, page)
  {
    var r := MergePage(prev, games, page);
    forall g | g in games ensures g.id in Ids(r) {
      if g.id in Ids(prev) {
        var k :| 0 <= k < |prev| && prev[k].id == g.id;
        assert r[k] == prev[k];
      } else {
        assert g in r[|prev|..];
        var k :| 0 <= k < |r[|prev|..]| && r[|prev|..][k] == g;
        assert r[|prev| + k] == g;
      }
    }
    FreshAllKnown(Ids(r), games);
    assert r + [] == r;
  }

  /** When a later page shares no id with the list shown, it is appended whole. */
  lemma DisjointPageAppendsWhole(prev: seq<Game>, games: seq<Game>, page: int)
    requires page != 1 && Ids(prev) !! Ids(games)
    ensures MergePage(prev, games, page) == prev + games
  {
    FreshAllNew(Ids(prev), games);
  }

  /** Filtering keeps nothing when every id is already known. */
  lemma {:induction false} FreshAllKnown(known: set<int>, games: seq<Game>)
    requires forall g :: g in games ==> g.id in known
    ensures Fresh(known, games) == []
  {
    if |games| > 0 {
      assert games[0] in games;
      FreshAllKnown(known, games[1..]);
    }
  }

  /** Filtering keeps every game when none of their ids is known. */
  lemma {:induction false} FreshAllNew(known: set<int>, games: seq<Game>)
    requires known !! Ids(games)
    ensures Fresh(known, games) == games
  {
    if |games| > 0 {
      assert games[0].id in Ids(games);
      assert Ids(games[1..]) <= Ids(games) by {
        forall id | id in Ids(games[1..]) ensures id in Ids(games) {
          var k :| 0 <= k < |games[1..]| && games[1..][k].id == id;
          assert games[k + 1].id == id;
        }
      }
      FreshAllNew(known, games[1..]);
    }
  }

  /** The hook reports new games and/or a new loading flag. While loading nothing
      is merged; once idle the page is merged and has-more is set from whether
      the page was empty. */
  function FetchUpdate(s: Grid, games: seq<Game>, loading: bool): (t: Grid)
    ensures t.filters == s.filters && t.page == s.page && t.isLoading == loading
    ensures loading ==> t.displayed == s.displayed && t.hasMore == s.hasMore
    ensures !loading ==> t.displayed == MergePage(s.displayed, games, s.page)
    ensures !loading ==> (t.hasMore <==> games != [])
  {
    if loading then s.(isLoading := true)
    else s.(displayed := MergePage(s.displayed, games, s.page), hasMore := |games| != 0, isLoading := false)
  }

  /** A completed fetch: the hook is idle and holds `games`. */
  function FetchCompleted(s: Grid, games: seq<Game>): (t: Grid)
    ensures !t.isLoading && (t.hasMore <==> |games| > 0)
    ensures t.filters == s.filters && t.page == s.page
    ensures s.page == 1 ==> t.displayed == games
    ensures s.page != 1 ==> t.displayed == s.displayed + Fresh(Ids(s.displayed), games)
  {
    FetchUpdate(s, games, false)
  }

  /** A short but non-empty page keeps the feed open: only an empty page ends it. */
  lemma ShortPageKeepsFeedOpen(s: Grid, games: seq<Game>)
    requires 0 < |games| < UseGame.DefaultPageSize
    ensures FetchCompleted(s, games).hasMore
  {
  }

  /** As written: after a reset, the superseded request's cancellation makes
      the merge effect show the games of the old filters on page 1, although the
      request for the new filters has not settled. */
  lemma SupersededCancelShowsStaleGames(s: Grid, f: Filters, h: UseGame.State)
    requires f != s.filters && h.games != []
    ensures var r := ChangeFilters(s, f);
      var hs := UseGame.Settle(UseGame.StartRequest(h), UseGame.Canceled);
      var t := FetchUpdate(r, hs.games, hs.isLoading);
      r.displayed == [] && t.displayed == h.games && t.displayed != []
      && SentinelVisible(t, true).page == 2
  {
    UseGame.CanceledSettleEndsNewerLoading(h);
  }

  /** With the corrected settlement, the superseded cancellation leaves the
      freshly reset grid empty and loading, so skeletons stay up until the new
      request delivers. */
  lemma SupersededCancelLeavesGridEmpty(s: Grid, f: Filters, h: UseGame.State)
    requires f != s.filters
    ensures var r := ChangeFilters(s, f);
      var hs := UseGame.SettleIgnoringCancel(UseGame.StartRequest(h), UseGame.Canceled);
      var t := FetchUpdate(r, hs.games, hs.isLoading);
      t.displayed == [] && IsInitialLoading(t) && SentinelVisible(t, true).page == 1
  {
    UseGame.CanceledSettleKeepsNewerLoading(h);
  }

  // ---------------------------------------------------------------------------
  // Sentinel
  // ---------------------------------------------------------------------------

  /** The sentinel's intersection callback: the next page is requested only when
      the sentinel intersects, no request is in flight and more pages exist. */
  function SentinelVisible(s: Grid, intersecting: bool): (t: Grid)
    ensures intersecting && !s.isLoading && s.hasMore ==> t.page == s.page + 1
    ensures !(intersecting && !s.isLoading && s.hasMore) ==> t.page == s.page
    ensures t.filters == s.filters && t.displayed == s.displayed
    ensures t.hasMore == s.hasMore && t.isLoading == s.isLoading
  {
    if intersecting && !s.isLoading && s.hasMore then s.(page := s.page + 1) else s
  }

  /** The sentinel firing `n` times in a row with nothing else happening. */
  function SentinelRepeated(s: Grid, n: nat): Grid
    decreases n
  {
    if n == 0 then s else SentinelRepeated(SentinelVisible(s, true), n - 1)
  }

  /** Once an empty page has been merged, the sentinel never advances the page,
      however often it fires. */
  lemma {:induction false} ExhaustedFeedStaysPut(s: Grid, n: nat)
    requires !s.hasMore
    ensures SentinelRepeated(s, n) == s
  {
    if n > 0 {
      ExhaustedFeedStaysPut(SentinelVisible(s, true), n - 1);
    }
  }

  lemma EmptyPageEndsFeed(s: Grid, n: nat)
    ensures SentinelRepeated(FetchCompleted(s, []), n).page == s.page
  {
    ExhaustedFeedStaysPut(FetchCompleted(s, []), n);
  }

  // ---------------------------------------------------------------------------
  // Events
  // ---------------------------------------------------------------------------

  datatype Event =
    | FilterChanged(filters: Filters)
    | FetchUpdated(games: seq<Game>, loading: bool)
    | Sentinel(intersecting: bool)
    | PlatformSelected(platforms: seq<Platform>, value: string)

  /** One event. Only a filter change can move the page back, and then to 1 with
      the list cleared; otherwise the page stays or advances by one. Only the
      hook changes the loading flag. */
  function Step(s: Grid, e: Event): (t: Grid)
    ensures t.filters != s.filters ==> t.page == 1 && t.displayed == [] && t.hasMore
    ensures t.filters == s.filters ==> t.page == s.page || t.page == s.page + 1
    ensures t.filters == s.filters && t.page == s.page + 1 ==>
      e.Sentinel? && e.intersecting && !s.isLoading && s.hasMore
    ensures !e.FetchUpdated? ==> t.isLoading == s.isLoading
  {
    match e
    case FilterChanged(f) => ChangeFilters(s, f)
    case FetchUpdated(games, loading) => FetchUpdate(s, games, loading)
    case Sentinel(intersecting) => SentinelVisible(s, intersecting)
    case PlatformSelected(platforms, value) => SelectPlatform(s, platforms, value)
  }

  /** Every event keeps the shown games' identifiers distinct, provided each page
      the hook delivers has distinct identifiers (duplicates within one page are
      not filtered). */
  lemma StepKeepsIdsDistinct(s: Grid, e: Event)
    requires DistinctIds(s.displayed)
    requires e.FetchUpdated? ==> DistinctIds(e.games)
    ensures DistinctIds(Step(s, e).displayed)
  {
    if e.FetchUpdated? && !e.loading {
      MergeKeepsIdsDistinct(s.displayed, e.games, s.page);
    }
  }

  // ---------------------------------------------------------------------------
  // Accumulating a run of pages
  // ---------------------------------------------------------------------------

  /** The list shown after pages 1..n have been fetched and merged in order. */
  function Accumulate(pages: seq<seq<Game>>): seq<Game>
  {
    if |pages| == 0 then []
    else MergePage(Accumulate(pages[..|pages| - 1]), pages[|pages| - 1], |pages|)
  }

  function Flatten(pages: seq<seq<Game>>): seq<Game>
  {
    if |pages| == 0 then [] else Flatten(pages[..|pages| - 1]) + pages[|pages| - 1]
  }

  /** Pages whose identifiers are distinct within and across pages. */
  predicate DisjointPages(pages: seq<seq<Game>>) {
    && (forall i :: 0 <= i < |pages| ==> DistinctIds(pages[i]))
    && (forall i, j :: 0 <= i < j < |pages| ==> Ids(pages[i]) !! Ids(pages[j]))
  }

  lemma {:induction false} FlattenIds(pages: seq<seq<Game>>, id: int)
    requires id in Ids(Flatten(pages))
    ensures exists i :: 0 <= i < |pages| && id in Ids(pages[i])
  {
    var n := |pages|;
    assert n > 0;
    var f := Flatten(pages[..n - 1]);
    var last := pages[n - 1];
    var all: seq<Game> := f + last;
    var k :| 0 <= k < |all| && all[k].id == id;
    if k < |f| {
      assert f[k].id == id;
      FlattenIds(pages[..n - 1], id);
      var i :| 0 <= i < n - 1 && id in Ids(pages[..n - 1][i]);
      assert pages[..n - 1][i] == pages[i];
    } else {
      assert last[k - |f|].id == id;
    }
  }

  /** With pages that never repeat an identifier, the shown list is every page in
      fetch order, within-page order kept; its length is the sum of the pages'
      lengths. */
  lemma {:induction false} DisjointPagesAccumulate(pages: seq<seq<Game>>)
    requires DisjointPages(pages)
    ensures Accumulate(pages) == Flatten(pages)
    ensures DistinctIds(Accumulate(pages))
  {
    var n := |pages|;
    if n > 0 {
      var init := pages[..n - 1];
      assert DisjointPages(init) by {
        forall i | 0 <= i < |init| ensures init[i] == pages[i] {}
      }
      DisjointPagesAccumulate(init);
      var prev := Flatten(init);
      var last := pages[n - 1];
      assert Ids(prev) !! Ids(last) by {
        forall id | id in Ids(prev) ensures id !in Ids(last) {
          FlattenIds(init, id);
          var i :| 0 <= i < |init| && id in Ids(init[i]);
          assert init[i] == pages[i];
        }
      }
      if n == 1 {
        assert prev == [];
      } else {
        DisjointPageAppendsWhole(prev, last, n);
      }
      DistinctIdsConcat(prev, last);
    }
  }

  // ---------------------------------------------------------------------------
  // What is rendered
  // ---------------------------------------------------------------------------

  /** Skeleton cards are shown only while the first page loads into an empty grid. */
  function IsInitialLoading(s: Grid): (b: bool)
    ensures b ==> FooterText(s) != LoadingMoreText
  {
    s.isLoading && s.page == 1 && |s.displayed| == 0
  }

  /** After a reset with the hook loading, the grid shows skeletons. */
  lemma InitialLoadingAfterReset(s: Grid, f: Filters)
    requires f != s.filters && s.isLoading
    ensures IsInitialLoading(ChangeFilters(s, f))
  {
  }

  const LoadingMoreText: string := "Loading more games..."
  const ScrollText: string := "Scroll to load more releases"
  const EndOfFeedText: string := "You\U{2019}ve reached the end of the feed."

  /** The sentinel's footer text. */
  function FooterText(s: Grid): (text: string)
    ensures text == LoadingMoreText <==> s.isLoading && s.page > 1
    ensures text == EndOfFeedText <==> !(s.isLoading && s.page > 1) && !s.hasMore
    ensures text == ScrollText <==> !(s.isLoading && s.page > 1) && s.hasMore
  {
    if s.isLoading && s.page > 1 then LoadingMoreText
    else if s.hasMore then ScrollText
    else EndOfFeedText
  }

  /** The heading: the genre name when it has content after trimming, else "Games". */
  function HeadingText(genreName: Option<string>): (text: string)
    ensures genreName.Some? && !IsBlank(genreName.value) ==> text == genreName.value
    ensures genreName.None? || IsBlank(genreName.value) ==> text == "Games"
  {
    if genreName.None? then "Games"
    else
      HasContentIffNotBlank(genreName.value);
      if HasContent(genreName.value) then genreName.value else "Games"
  }
}
