# game-hub: the infinite-scroll controller and its helpers, in Dafny

game-hub is a browser interface over a third-party game catalog. It shows an
infinitely scrolling grid of game cards that can be narrowed by genre, parent
platform, free-text search and sort order. This project models its logic as
pure functions over immutable datatypes and proves properties about them.

- **GameGrid** is the accumulation controller. Its state is an explicit record
  `Grid{filters, page, displayed, hasMore, isLoading}`. Four events drive it:
  - a filter change resets it;
  - an update from the game hook merges the fetched page;
  - the sentinel coming into view advances the page;
  - a platform drop-down choice goes through the handler's lookup.
- **UseGame** is the game-list hook. It turns options into `GET /games` query
  parameters and settles a request as success, cancellation or failure. The
  network client is not modelled: a request's outcome is an input.
- **App** holds the genre/search handlers, which make the two filters mutually
  exclusive.
- **GenreList** covers highlighting and the click/keyboard toggle.
- **CriticScore** maps a score to its badge bucket.
- **PlatformIconList** maps platform slugs to icons.
- **CroppedImageUrl** inserts `crop/<w>/<h>/` after the first `/media/` of an image URL.
- **ViteConfig** holds `normalizeBase`, which wraps the site base path in slashes.
- Shared modules:
  - **Wrappers** has `Option`, which stands for both `null` and `undefined`.
  - **Strings** has JavaScript's `trim`, `indexOf`/`includes` and integer `toString`.
  - **Rawg** has the Game, Platform and Genre records.

Two facts about the code shape the grid's behaviour:

- `hasMore` turns false only when a fetched page is **empty**
  (src/components/GameGrid.tsx:187-191). A short, non-empty page keeps the feed
  open (`GameGrid.ShortPageKeepsFeedOpen`).
- The page size defaults to 10 (`UseGame.DefaultPageSize`).

## Model

| member | source | states |
|---|---|---|
| UseGame.RequestParams | src/hooks/useGame.ts:35-64 | ordering is "-metacritic" when absent or all whitespace, otherwise sent verbatim (untrimmed); page_size defaults to 10 and page to 1; parent_platforms is present exactly when a platform id is given; genre and search pass through |
| UseGame.StartRequest | src/hooks/useGame.ts:50-51 | starting a request sets loading, clears the error and keeps the games |
| UseGame.Settle | src/hooks/useGame.ts:67-78 | every settlement ends loading; success replaces the games; a "CanceledError" leaves games and error alone; any other failure stores the fixed games message and keeps the games |
| UseGame.IsCancellation | src/hooks/useGame.ts:71 | only an `Error` object named exactly "CanceledError" counts as a cancellation; any other thrown value does not |
| UseGame.CanceledSettleEndsNewerLoading | src/hooks/useGame.ts:50-78 | as written: a superseded request's cancellation, settling after a newer request started, clears the loading flag and leaves the older games |
| UseGame.SettleIgnoringCancel | src/hooks/useGame.ts:67-78 | the corrected settlement: a cancellation leaves the state unchanged; success and other failures settle as in the hook |
| UseGame.CanceledSettleKeepsNewerLoading | src/hooks/useGame.ts:50-78 | with the corrected settlement, a superseded cancellation leaves the newer request loading |
| UseGame.RequestLifecycle | src/hooks/useGame.ts:50-78 | after start-then-settle, an error is present exactly when the request failed for a reason other than cancellation; a rejected request keeps the prior games |
| GameGrid.Mount | src/components/GameGrid.tsx:136-142 | on mount the grid has no platform, relevance ordering, page 1, nothing shown, has-more set, and loading like the game hook's initial state |
| GameGrid.HookOptions | src/components/GameGrid.tsx:149-155 | the request the grid causes uses the default page size of 10, the grid's page, the selected platform's id (none without one), the genre and search as given, and the grid's ordering, or "-metacritic" when that is blank |
| GameGrid.RelevanceRequestsMetacritic | src/components/GameGrid.tsx:97-101 | the "Relevance" option (empty ordering) issues exactly the same request as the "Metacritic" option |
| GameGrid.ChangeFilters | src/components/GameGrid.tsx:171-175 | when any filter dimension differs, page becomes 1, the list empty and has-more true, whatever the prior state; identical filters change nothing |
| GameGrid.ChangeProps | src/components/GameGrid.tsx:171-175 | the new genre and search become the filters, platform and ordering are kept, the loading flag is untouched, a change in either resets accumulation, and unchanged genre and search leave the grid exactly as it was |
| GameGrid.ChangeOrdering | src/components/GameGrid.tsx:171-175 | the new ordering becomes the filter while genre, search and platform are kept, the loading flag is untouched, a different ordering resets accumulation, and the same ordering leaves the grid exactly as it was |
| GameGrid.ClearPlatformFilter | src/components/GameGrid.tsx:274-277 | the clear button removes the platform and the ordering together, keeps genre, search and the loading flag, resets accumulation when a platform was selected, and changes nothing when neither platform nor ordering was set |
| GameGrid.SelectValue | src/components/GameGrid.tsx:52 | the drop-down value is "" exactly when no platform is selected |
| GameGrid.PlatformIndex | src/components/GameGrid.tsx:57-59 | finds the first platform whose id string equals the value, or reports that none matches |
| GameGrid.FindPlatform | src/components/GameGrid.tsx:56-61 | the handler selects the first listed platform whose id string equals the value, or no platform when none does |
| GameGrid.AllPlatformsSelectsNone | src/components/GameGrid.tsx:56-61 | the "All platforms" value "" selects no platform |
| GameGrid.SelectValueFindsFirstWithId | src/components/GameGrid.tsx:52-61 | the value shown for a listed platform selects the first listed platform with the same id |
| GameGrid.SelectValueRoundTrip | src/components/GameGrid.tsx:52-61 | with distinct platform ids, the value shown for a platform selects that platform |
| GameGrid.SelectPlatform | src/components/GameGrid.tsx:56-61 | a drop-down choice stores the looked-up platform and keeps the other filters and the loading flag; "" clears it; a changed platform resets accumulation, and an unchanged one leaves the grid exactly as it was |
| GameGrid.Fresh | src/components/GameGrid.tsx:183-184 | a game is kept exactly when it is in the fetched page and its id is not already known |
| GameGrid.FreshConcat | src/components/GameGrid.tsx:184 | the filter distributes over concatenation, so kept games stay in fetched order |
| GameGrid.FreshSingle | src/components/GameGrid.tsx:184 | a single game is kept exactly when its id is new |
| GameGrid.FreshDistinct | src/components/GameGrid.tsx:184 | filtering a page with distinct ids yields distinct ids |
| GameGrid.FreshAllKnown | src/components/GameGrid.tsx:184 | a page whose ids are all known contributes nothing |
| GameGrid.FreshAllNew | src/components/GameGrid.tsx:184 | a page with no known id is kept whole |
| GameGrid.MergePage | src/components/GameGrid.tsx:179-186 | on page 1 the list becomes exactly the fetched games; on later pages the old list is an unchanged prefix and the new tail holds exactly the fetched games whose id was not shown |
| GameGrid.MergeLaterPage | src/components/GameGrid.tsx:183-185 | on later pages the new list is the old list followed by the new-id games in fetched order |
| GameGrid.MergeKeepsIdsDistinct | src/components/GameGrid.tsx:183-185 | distinct ids in the old list and in the page give distinct ids in the merged list |
| GameGrid.RepeatKeepsFirstPosition | src/components/GameGrid.tsx:183-185 | a game already shown keeps its first-seen position and appears nowhere else |
| GameGrid.MergeIdempotent | src/components/GameGrid.tsx:183-185 | merging the same later page a second time changes nothing |
| GameGrid.DisjointPageAppendsWhole | src/components/GameGrid.tsx:183-185 | a later page sharing no id with the list is appended whole |
| GameGrid.FetchUpdate | src/components/GameGrid.tsx:177-192 | while loading, the list and has-more are untouched; once idle, the page is merged and has-more is true exactly when the page was non-empty; filters and page never change |
| GameGrid.FetchCompleted | src/components/GameGrid.tsx:177-192 | a completed fetch replaces the list on page 1, appends new-id games on later pages, sets has-more exactly when the page is non-empty, and leaves filters and page unchanged |
| GameGrid.ShortPageKeepsFeedOpen | src/components/GameGrid.tsx:187-191 | a non-empty page shorter than the page size keeps has-more true |
| GameGrid.SentinelVisible | src/components/GameGrid.tsx:199-203 | the page goes up by exactly 1 when the sentinel intersects, nothing is loading and more pages exist; otherwise it stays; nothing else changes |
| GameGrid.ExhaustedFeedStaysPut | src/components/GameGrid.tsx:201-202 | with has-more false, any number of sentinel firings leave the state unchanged |
| GameGrid.EmptyPageEndsFeed | src/components/GameGrid.tsx:187-202 | after an empty page, no number of sentinel firings advances the page |
| GameGrid.Step | src/components/GameGrid.tsx:171-202 | any event that changes the filters resets to page 1 with nothing shown; with the filters unchanged the page stays or advances by exactly one, and advances only on an intersecting sentinel while idle with more pages; only the hook changes the loading flag |
| GameGrid.StepKeepsIdsDistinct | src/components/GameGrid.tsx:171-202 | every event keeps the shown ids distinct, provided each delivered page has distinct ids |
| GameGrid.DisjointPagesAccumulate | src/components/GameGrid.tsx:177-192 | pages 1..n with ids distinct within and across pages accumulate to all pages in fetch order, within-page order kept, with distinct ids |
| GameGrid.IsInitialLoading | src/components/GameGrid.tsx:166-167 | while skeletons are shown, the footer never says "Loading more games..." |
| GameGrid.InitialLoadingAfterReset | src/components/GameGrid.tsx:166-175 | a reset while the hook is loading shows skeletons |
| GameGrid.SupersededCancelShowsStaleGames | src/hooks/useGame.ts:70-78 | as written: after a reset, the superseded request's cancellation makes page 1 show the old filters' games before the new request settles, and an intersecting sentinel then advances to page 2 |
| GameGrid.SupersededCancelLeavesGridEmpty | src/hooks/useGame.ts:70-78 | with a cancellation that changes nothing, the reset grid stays empty, shows skeletons, and the sentinel cannot advance the page |
| GameGrid.FooterText | src/components/GameGrid.tsx:339-343 | "Loading more games..." exactly when loading past page 1; otherwise the scroll prompt when more pages exist, else the end-of-feed text |
| GameGrid.HeadingText | src/components/GameGrid.tsx:217 | the heading is the genre name when it has a non-whitespace character, else "Games" |
| CroppedImageUrl.CropSegment | src/lib/getCroppedImageUrl.ts:16 | the inserted segment starts with "crop/" and ends with "/" |
| CroppedImageUrl.InsertionPoint | src/lib/getCroppedImageUrl.ts:9-13 | the insertion point lies just past the first occurrence of "/media/", and is absent exactly when there is none |
| CroppedImageUrl.GetCroppedImageUrl | src/lib/getCroppedImageUrl.ts:1-16 | an absent or empty URL gives the fallback; a URL with "/media/crop/" or without "/media/" is unchanged; otherwise the segment for width/height (default 600/400) sits right after the first "/media/" with the rest of the URL intact |
| CroppedImageUrl.MarkerAfterInsertion | src/lib/getCroppedImageUrl.ts:13-16 | inserting the segment after "/media/" creates "/media/crop/" there |
| CroppedImageUrl.RewrittenUrlHasMarker | src/lib/getCroppedImageUrl.ts:7-16 | every rewritten URL contains "/media/crop/" |
| CroppedImageUrl.FallbackHasNoMedia | src/lib/getCroppedImageUrl.ts:1-2 | the fallback URL contains no "/media/" |
| CroppedImageUrl.Idempotent | src/lib/getCroppedImageUrl.ts:5-16 | applying the function to its own output, with any size, returns that output |
| CroppedImageUrl.RemovingSegmentRecoversUrl | src/lib/getCroppedImageUrl.ts:13-16 | the output is the input plus the segment in length, and cutting the segment out recovers the input |
| ViteConfig.StripSlashes | vite.config.ts:7 | "/" becomes ""; any other base is the result with one leading slash put back when the base had one and one trailing slash put back when it had one |
| ViteConfig.NormalizeBase | vite.config.ts:5-9 | "" and "/" give "/"; any other base gives a result of length at least 2 that starts and ends with "/", whose inside is the base less at most one leading and one trailing slash |
| ViteConfig.NormalizeBaseIdempotent | vite.config.ts:5-9 | normalising twice equals normalising once |
| ViteConfig.DefaultBaseNormalized | vite.config.ts:13-16 | the default base "game-hub" becomes "/game-hub/" |
| ViteConfig.DoubleSlashesKept | vite.config.ts:7 | "//a//" normalises to "//a//": only one slash is stripped per end |
| ViteConfig.ConfiguredBase | vite.config.ts:13-16 | an unset environment gives "/game-hub/", an empty one gives "/", and the result always starts and ends with "/" |
| App.HandleGenreSelect | src/App.tsx:45-49 | choosing a genre or none stores it and empties the search |
| App.HandleSearchChange | src/App.tsx:53-58 | the search is stored untrimmed; text with a non-whitespace character clears the genre; blank text leaves the genre untouched |
| App.HandlersKeepExclusive | src/App.tsx:45-58 | after either handler, no genre is selected while the trimmed search is non-empty |
| App.ClickGenre | src/components/GenreList.tsx:73 | a click on the selected genre clears the selection, a click on any other selects it, and the search is emptied either way |
| App.GridProps | src/App.tsx:110-113 | the grid gets the selected genre's slug (none without a genre) and the search text as typed; under the handlers' exclusion it never gets both a genre and a search with content |
| App.GenreChangeResetsGrid | src/App.tsx:110-113 | choosing a genre with a different slug resets the grid to page 1 with nothing shown |
| GenreList.IsSelected | src/components/GenreList.tsx:67 | a genre is highlighted exactly when a selected id is present and equals its id |
| GenreList.AtMostOneHighlighted | src/components/GenreList.tsx:66-67 | among genres with distinct ids, at most one is highlighted |
| GenreList.Toggle | src/components/GenreList.tsx:67-73 | a click clears the selection exactly when the selected genre has the clicked genre's id, and otherwise selects the clicked genre |
| GenreList.Activate | src/components/GenreList.tsx:67-73 | activating the highlighted genre (id equal to the selected id) requests no selection; any other genre requests itself |
| GenreList.KeyDown | src/components/GenreList.tsx:74-78 | Enter and Space act exactly like a click; any other key requests nothing |
| GenreList.SelectedId | src/App.tsx:97 | the id passed down is present exactly when a genre is selected, and is that genre's id |
| GenreList.ToggleTwice | src/components/GenreList.tsx:67-73 | two clicks on a genre restore the selection exactly when nothing or that genre was selected; after a different genre they clear it |
| CriticScore.ColorScheme | src/components/CriticScore.tsx:10 | green exactly above 85, yellow exactly for 71..85, gray exactly at 70 or below |
| CriticScore.CriticBadge | src/components/CriticScore.tsx:7-27 | an absent or zero score renders nothing; any other score, negatives included, renders a badge with that score in its bucket |
| CriticScore.ColorSchemeMonotone | src/components/CriticScore.tsx:10 | a higher score never gets a lower bucket |
| CriticScore.NegativeScoreIsGray | src/components/CriticScore.tsx:8-10 | a negative score is shown in gray |
| PlatformIconList.IconMapKeys | src/components/PlatformIconList.tsx:15-25 | the map has exactly nine own keys |
| PlatformIconList.SharedIcons | src/components/PlatformIconList.tsx:19-24 | "ios" and "mac" share the Apple icon, "nintendo" uses the Xbox icon and "web" the Steam icon |
| PlatformIconList.IconsOf | src/components/PlatformIconList.tsx:36-50 | there are no more icons than platforms, and each icon is the mapped icon of a listed platform with a known slug, keyed by its id with its name as tooltip |
| PlatformIconList.IconsOfConcat | src/components/PlatformIconList.tsx:36-38 | icons follow the order of the platforms |
| PlatformIconList.IconsOfSingle | src/components/PlatformIconList.tsx:37-38 | a platform with an unknown slug is skipped; a known one yields its icon |
| PlatformIconList.IconCount | src/components/PlatformIconList.tsx:36-38 | the number of icons equals the number of platforms with a known slug |
| PlatformIconList.PlatformIcons | src/components/PlatformIconList.tsx:31-38 | an absent or empty list renders nothing; otherwise the icons of the known platforms, possibly none |
| Strings.Trim | src/hooks/useGame.ts:53 | the trimmed string is no longer than the input, and is empty or starts and ends with a non-whitespace character |
| Strings.TrimIsSlice | src/App.tsx:56 | the trimmed string is a contiguous part of the input with only whitespace before and after it |
| Strings.TrimEmptyIffBlank | src/hooks/useGame.ts:53 | `trim()` leaves nothing exactly when every character is JavaScript whitespace |
| Strings.HasContentIffNotBlank | src/App.tsx:56 | a trimmed string is non-empty exactly when some character is not whitespace |
| Strings.IndexOf | src/lib/getCroppedImageUrl.ts:10 | the result is a match with no earlier match, and is absent exactly when there is no match |
| Strings.Contains | src/lib/getCroppedImageUrl.ts:7 | `includes` holds exactly when the pattern occurs at some index |
| Strings.IntToString | src/components/GameGrid.tsx:52 | the rendering is non-empty, starts with "-" exactly for negative numbers, and is otherwise decimal digits |
| Strings.IntToStringRoundTrip | src/components/GameGrid.tsx:52-58 | reading the rendering back gives the number |
| Strings.IntToStringInjective | src/components/GameGrid.tsx:58 | two ids have the same decimal string exactly when they are equal |

## Left out

- Browser wiring is not modelled. This covers the IntersectionObserver, its 200px root margin, and re-attaching the sentinel observer. It also covers the window scroll listeners, the 75 ms timeout, breakpoints, skeleton counts, colour modes, styling and animations. Only the sentinel's guard condition is modelled.
- The HTTP client is not modelled, because its code is not part of this model. A request's outcome is an input (`UseGame.Outcome`).
- Request cancellation is modelled only as one outcome of a settlement. `AbortController` and arbitrary interleavings of asynchronous events are not modelled; the one interleaving under "## Findings" is stated as lemmas.
- The platform list hook, the genre list hook and the genre selection holder are not modelled. The two list hooks follow the same fetch-and-settle pattern as `UseGame.Settle` with different messages. The selection holder is a plain state value.
- The nav bar, colour switch, game card, card container, skeleton and the entry file are presentational and are not modelled.
- JavaScript numbers are modelled as integers: ids, pages, scores and the crop width and height. Fractional scores and sizes, `NaN`, and float formatting are not modelled. The user rating is carried as an exact rational and never inspected.
- `GameGrid.ChangeFilters`: React compares the selected platform by object identity. The model compares it by value, which agrees as long as the platform comes from the same fetched list.
- Duplicates within one fetched page are not filtered, by the source or the model. So distinct ids are a precondition of the distinctness lemmas, not a promise.
- `Wrappers.Option` stands for both `null` and `undefined`. Every modelled site treats the two alike.
- `CroppedImageUrl.Fallback` is written as a concatenation of short literals. It spells the same URL as the source constant.
- A game's `parent_platforms` entries wrap each platform in a `{platform: …}` object. The model stores the platforms directly (`Rawg.Game.parentPlatforms`).
- The sort selector's option list and labels are presentational. The ordering is modelled as the string it sends.
- PlatformIconList.IconsOf: the source looks a slug up in a plain object literal, so a slug naming an inherited `Object.prototype` member ("toString", "constructor", "valueOf" and the like) is found and rendered as a bogus icon. The model treats such slugs as unknown and skips them; the catalog's slugs are never such names.

## Findings

| source | as written | input that shows it | evidently intended | confidence | as-written member | corrected member |
|---|---|---|---|---|---|---|
| src/hooks/useGame.ts:70-78 | the `finally` of an aborted request calls `setIsLoading(false)`, and a cancellation keeps the old `games` | a filter change after scrolling past page 1: the hook first requests the old page with the new filters (useGame.ts:81), the reset's `setPage(1)` (GameGrid.tsx:172) re-runs the effect and aborts that request, its cancellation settles after the page-1 request started, and the hook reports idle with the old games, which the grid's merge on page 1 shows; a second filter change (a search keystroke) while the previous request is in flight does the same | a superseded request's settlement changes nothing | medium, not executed | UseGame.CanceledSettleEndsNewerLoading, GameGrid.SupersededCancelShowsStaleGames | UseGame.SettleIgnoringCancel, UseGame.CanceledSettleKeepsNewerLoading, GameGrid.SupersededCancelLeavesGridEmpty |
