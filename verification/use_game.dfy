/** The paginated game-list hook (`useGame`): how its options become query
    parameters for `GET /games`, and how one settled request updates the hook's
    `{games, isLoading, error}` triple. The network client itself is not modelled:
    a request's outcome is an input. */
module UseGame {

  import opened Wrappers
  import opened Strings
  import opened Rawg

  /** `DEFAULT_PAGE_SIZE`. */
  const DefaultPageSize: int := 10
  /** The page requested when the caller gives none. */
  const DefaultPage: int := 1
  /** The ordering sent when the caller's ordering is absent or blank. */
  const DefaultOrdering: string := "-metacritic"
  /** The fixed user-facing message stored on any non-cancellation failure. */
  const GamesError: string := "Unable to fetch games right now. Please try again later."
  /** The `name` an aborted request's error carries. */
  const CanceledName: string := "CanceledError"

  /** The hook's options; every field is optional. `platformId` may be null or
      undefined, both `None`. */
  datatype Options = Options(
    pageSize: Option<int>,
    genreSlug: Option<string>,
    searchQuery: Option<string>,
    platformId: Option<int>,
    page: Option<int>,
    ordering: Option<string>)

  /** The query parameters of `GET /games`; `None` fields are left out of the
      query string. */
  datatype Params = Params(
    ordering: string,
    pageSize: int,
    page: int,
    genres: Option<string>,
    search: Option<string>,
    parentPlatforms: Option<int>)

  /** The query parameters built for one request. */
  function RequestParams(o: Options): (p: Params)
    ensures o.ordering.None? ==> p.ordering == DefaultOrdering
    ensures o.ordering.Some? && IsBlank(o.ordering.value) ==> p.ordering == DefaultOrdering
    ensures o.ordering.Some? && !IsBlank(o.ordering.value) ==> p.ordering == o.ordering.value
    ensures o.pageSize.None? ==> p.pageSize == DefaultPageSize
    ensures o.pageSize.Some? ==> p.pageSize == o.pageSize.value
    ensures o.page.None? ==> p.page == DefaultPage
    ensures o.page.Some? ==> p.page == o.page.value
    ensures p.parentPlatforms.Some? <==> o.platformId.Some?
    ensures p.parentPlatforms.Some? ==> p.parentPlatforms.value == o.platformId.value
    ensures p.genres == o.genreSlug && p.search == o.searchQuery
  {
    var orderingParam := if o.ordering.Some? && HasContent(o.ordering.value) then o.ordering else None;
    HasContentIffNotBlank(o.ordering.GetOr(""));
    Params(
      orderingParam.GetOr(DefaultOrdering),
      o.pageSize.GetOr(DefaultPageSize),
      o.page.GetOr(DefaultPage),
      o.genreSlug,
      o.searchQuery,
      o.platformId)
  }

  /** What a rejected request carries: an `Error` object with a `name`, or some
      other thrown value. */
  datatype Failure = ErrorObject(name: string) | OtherValue

  /** The outcome of one request, as delivered to the hook. */
  datatype Outcome = Resolved(results: seq<Game>) | Rejected(failure: Failure)

  /** The cancellation test: an `Error` whose name is `"CanceledError"`. */
  function IsCancellation(f: Failure): (b: bool)
    ensures b <==> f == ErrorObject(CanceledName)
  {
    f.ErrorObject? && f.name == CanceledName
  }

  /** The hook's state. */
  datatype State = State(games: seq<Game>, isLoading: bool, error: Option<string>)

  /** The state before any request has settled. */
  const Initial: State := State([], true, None)

  /** Issuing a request: loading, no error, the previous games still shown. */
  function StartRequest(s: State): (t: State)
    ensures t.isLoading && t.error.None?
    ensures t.games == s.games
  {
    State(s.games, true, None)
  }

  /** One request settles. */
  function Settle(s: State, o: Outcome): (t: State)
    ensures !t.isLoading
    ensures o.Resolved? ==> t.games == o.results && t.error == s.error
    ensures o.Rejected? && IsCancellation(o.failure) ==> t.games == s.games && t.error == s.error
    ensures o.Rejected? && !IsCancellation(o.failure) ==> t.games == s.games && t.error == Some(GamesError)
  {
    match o
    case Resolved(results) => State(results, false, s.error)
    case Rejected(f) =>
      if IsCancellation(f) then State(s.games, false, s.error)
      else State(s.games, false, Some(GamesError))
  }

  /** A request that starts and then settles: the error slot ends empty unless
      the request failed for a reason other than cancellation, and a canceled
      request leaves the games it started with. */
  lemma RequestLifecycle(s: State, o: Outcome)
    ensures Settle(StartRequest(s), o).error.Some?
        <==> o.Rejected? && !IsCancellation(o.failure)
    ensures o.Rejected? ==> Settle(StartRequest(s), o).games == s.games
  {
  }

  /** The cancellation an abort produces. */
  const Canceled: Outcome := Rejected(ErrorObject(CanceledName))

  /** As written, the abort of a superseded request still clears the loading
      flag: after a newer request has started, the older one's cancellation
      reports the hook idle, with the older games, while the newer request is
      in flight. */
  lemma CanceledSettleEndsNewerLoading(h: State)
    ensures StartRequest(h).isLoading
    ensures var t := Settle(StartRequest(h), Canceled);
      !t.isLoading && t.games == h.games
  {
  }

  /** The settlement the hook evidently intends: a request is only canceled when
      its effect run has been superseded (or the component unmounted), so its
      settlement changes nothing; every other outcome settles as before. */
  function SettleIgnoringCancel(s: State, o: Outcome): (t: State)
    ensures o.Rejected? && IsCancellation(o.failure) ==> t == s
    ensures o.Resolved? ==> t == State(o.results, false, s.error)
    ensures o.Rejected? && !IsCancellation(o.failure) ==> t == State(s.games, false, Some(GamesError))
  {
    if o.Rejected? && IsCancellation(o.failure) then s else Settle(s, o)
  }

  /** With the corrected settlement, the newer request stays in flight until it
      settles itself: a superseded cancellation never reports the hook idle. */
  lemma CanceledSettleKeepsNewerLoading(h: State)
    ensures SettleIgnoringCancel(StartRequest(h), Canceled).isLoading
    ensures SettleIgnoringCancel(StartRequest(h), Canceled) == StartRequest(h)
  {
  }
}
