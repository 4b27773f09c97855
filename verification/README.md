# Game selector — verified model of the catalog, wishlist and picker logic

This project models, in Dafny, the decision-making core of a small Next.js
application for browsing a third-party game catalog, keeping a wishlist and
picking a random game from it with a spinning reel. The model has one module
per source file:

- `GameStore` (`game_store.dfy`) is the persisted wishlist store. The wishlist
  is a sequence of games kept unique by id. It supports add, remove,
  membership, clear and the random pick.
- `RandomPicker` (`random_picker.dfy`) covers the 50-slot reel and the
  picker's state machine (spin, the delayed reveal, reset).
- `UseGames` (`use_games.dfy`) covers the query hooks. It models each hook's
  cache key, its `enabled` condition and the request it issues. It also models
  how the four infinite queries accumulate pages and when they have a next
  page.
- `GamesList` (`games_list.dfy`) is the catalog page. It covers the view-mode
  state machine, including the effect that runs when the search text changes.
  It also covers the choice of the active infinite query, the flattened list,
  the card keys and the render decisions.
- `Api` (`api.dfy`) covers the API-key predicate, the request interceptor and
  the parameters of every catalog request.
- `ImageLightbox` (`image_lightbox.dfy`) covers cyclic screenshot navigation,
  zoom, key dispatch, thumbnail selection and re-syncing to the index prop.
- `GameCard` (`game_card.dfy`) covers the wishlist toggle, the Metacritic slot
  and its colour band, chip truncation and the link target.
- `GameDetailsPage` (`game_details.dfy`) covers the page's view precedence,
  date text, the screenshot and tag sections, and the page's interaction with
  the wishlist and the lightbox.
- `NetflixStyleHome` (`home.dfy`) covers the search/discover toggle, the order
  of its early returns and the fixed genre rows.
- `JsCore` (`js_core.dfy`) holds the JavaScript semantics these modules rely
  on:
  - truthiness, `&&` and `||`
  - `String.prototype.trim` over the full ECMAScript white-space and
    line-terminator set
  - `slice(0, k)`
  - integer-to-string rendering
- `GameTypes` (`game_types.dfy`) holds the record shapes the logic reads.

Randomness and time are handled as follows:

- Every `Math.random()` result is a parameter: a real `u` with `0 <= u < 1`.
- The index drawn from it is `floor(u * n)`. The model proves this index is in
  range, and proves it is chosen exactly on an interval of width `1/n`.
- The reel consumes 49 further draws, in slot order.
- Timers are explicit events. The reveal after 4000 ms is `Reveal`.
- The clock-derived date window of the trending request is a parameter.

The query library is reduced to what the application relies on:

- A cache maps each query key to the pages fetched under it, each with its
  page parameter.
- A fetch appends a page only when the query is enabled, it has a page to ask
  for, and the response arrived.
- Pages are always numbered 1, 2, 3 and so on. A fetch for one key never
  changes another key's data.

Three behaviours of the code that the model keeps as written:

- Pages are concatenated as they are, with no de-duplication across pages.
  Cards are told apart by the key `${id}-${index}`, which is proved unique.
- `hasNextPage` is false before the first page arrives.
- The random choice is stated as equal-width intervals of the draw.

## Model

| member | source | states |
|---|---|---|
| `GameStore.FindById` | store/gameStore.ts:21 | finds an entry exactly when some saved game has the id; the entry found is a saved game with that id and no earlier entry has it |
| `GameStore.IsGameSaved` | store/gameStore.ts:33-36 | holds exactly when some saved entry has the id |
| `GameStore.MarkSaved` | store/gameStore.ts:23 | the stored copy has the same id, `added_to_wishlist` true, and differs from the argument in no other field |
| `GameStore.AddGame` | store/gameStore.ts:19-26 | an already-saved id leaves the list unchanged; a new id appends exactly the flagged copy after the unchanged earlier entries; the id is saved afterwards; pairwise-distinct ids are preserved |
| `GameStore.RemoveGame` | store/gameStore.ts:28-31 | no entry with the id remains; every other entry is kept and nothing new appears; an absent id is a no-op; pairwise-distinct ids are preserved |
| `GameStore.RemoveGameDeletesOne` | store/gameStore.ts:30 | with distinct ids, removing the id of entry k yields the list with exactly position k deleted, the rest in their original order |
| `GameStore.ClearAllGames` | store/gameStore.ts:38-40 | the list becomes empty and no id is saved |
| `GameStore.RandomIndex` | store/gameStore.ts:45 | `floor(u * n)` lies in `[0, n)` and is the integer i with `i <= u * n < i + 1` |
| `GameStore.RandomIndexInterval` | store/gameStore.ts:45 | index i is drawn exactly when u lies in `[i/n, (i+1)/n)`, an interval of the same width for every index |
| `GameStore.GetRandomGame` | store/gameStore.ts:42-47 | null exactly when the list is empty; otherwise the entry at the in-range drawn index, hence a saved game |
| `GameStore.AddGameIdempotent` | store/gameStore.ts:21 | adding the same game twice equals adding it once |
| `GameStore.RemoveUndoesAdd` | store/gameStore.ts:19-31 | removing a freshly added id restores the previous list exactly |
| `RandomPicker.DrawForInjective` | components/RandomPicker.tsx:28-36 | different filler slots consume different draws, so the filler draws are independent |
| `RandomPicker.SpinningPool` | components/RandomPicker.tsx:20-41 | empty for an empty wishlist; otherwise exactly 50 slots, slot 25 holding the winner and every other slot holding a saved game |
| `RandomPicker.CreateSpinningPool` | components/RandomPicker.tsx:20-41 | the slot-filling loop, one draw per non-centre slot in order, builds exactly the pool above |
| `RandomPicker.HandleSpin` | components/RandomPicker.tsx:43-55 | nothing changes when the wishlist is empty or a spin is running; otherwise spinning is on, the result is hidden and cleared, the winner is the one drawn game, and the reel's landing slot holds it |
| `RandomPicker.Reveal` | components/RandomPicker.tsx:76-80 | the captured winner becomes the selection, the result shows, spinning stops and the reel is kept |
| `RandomPicker.ResetPicker` | components/RandomPicker.tsx:83-90 | selection, result flag and reel are cleared; a running spin is unaffected |
| `RandomPicker.RevealShowsLandingSlot` | components/RandomPicker.tsx:43-80 | after a spin and its reveal, the selection is the game in the slot the animation lands on (`floor(length/2)`) and is the drawn winner |
| `RandomPicker.WinnerIndependentOfFiller` | components/RandomPicker.tsx:51-55 | the revealed game does not depend on the filler draws |
| `RandomPicker.ResetIdempotent` | components/RandomPicker.tsx:83-86 | resetting twice equals resetting once |
| `Api.IsAPIKeyAvailable` | lib/api.ts:13-17 | holds exactly when the key is defined, is not all white space, and is not the placeholder `your_api_key_here` |
| `JsCore.Trim` | lib/api.ts:15 | the trimmed text is the original minus a white-space prefix and suffix, starts and ends with non-white-space, and is empty exactly when the text is all white space |
| `Api.Intercept` | lib/api.ts:34-41 | every request is rejected exactly when the key is unavailable; otherwise it passes unchanged |
| `Api.SearchQuery` | lib/api.ts:47-50 | the spread of the caller's search object contributes exactly its present fields, each with its own value |
| `Api.ParamNamesDistinct` | lib/api.ts:45-99 | different parameters go out under different names, so requests keyed by parameter lose nothing |
| `Api.SearchGames` | lib/api.ts:45-53 | `/games` with the caller's fields plus `page_size`; caller fields override the default, which is 20 when the caller gives none |
| `Api.GetGameById` | lib/api.ts:56-59 | `/games/{id}` with no parameters |
| `Api.GetGameDetails` | lib/api.ts:120-123 | issues the same request as `getGameById` |
| `Api.GetPopularGames` | lib/api.ts:62-71 | `/games` with exactly `ordering -rating`, `page_size 20` and the page |
| `Api.GetTrendingGames` | lib/api.ts:74-88 | `/games` with exactly the date window, `ordering -added`, `page_size 20` and the page |
| `Api.GetGamesByGenre` | lib/api.ts:91-100 | `/games` with exactly the genre id, `page_size 20` and the page |
| `Api.GetGenres` | lib/api.ts:103-117 | `/genres` with `page_size 20` |
| `Api.GetGameScreenshots` | lib/api.ts:126-129 | `/games/{id}/screenshots` with no parameters |
| `Api.GetPlatforms` | lib/api.ts:132-139 | `/platforms` with `page_size 50` |
| `Api.GetGamesByPlatform` | lib/api.ts:142-155 | `/games` with exactly the platform id, `page_size 20`, the page and `ordering -rating` |
| `Api.PlatformRequestNarrowsPopular` | lib/api.ts:146-153 | the platform request is the popular request plus the platform filter |
| `Api.GenreRequestDropsOrdering` | lib/api.ts:92-98 | the genre request is the popular request without its ordering, plus the genre filter |
| `UseGames.QueryKeyOf` | hooks/useGames.ts:5-145 | every game key starts with `games`; search keys end with the caller's parameters; id-gated keys carry the id |
| `UseGames.QueryKeysDistinct` | hooks/useGames.ts:7-141 | different hook calls never share a cache key |
| `UseGames.Enabled` | hooks/useGames.ts:9-143 | plain search needs non-empty text and a key; id-taking hooks need a non-zero id and a key; all others, infinite search included, need only a key |
| `UseGames.EnabledRequestsAreSent` | lib/api.ts:34-41 | a request from an enabled hook always passes the interceptor |
| `UseGames.QueryFn` | hooks/useGames.ts:98-99 | infinite hooks request the page parameter as `page`; infinite search keeps every other caller filter |
| `UseGames.PageOverrideKeepsFilters` | hooks/useGames.ts:98-99 | `{ ...params, page }` changes only the page |
| `UseGames.GetNextPageParam` | hooks/useGames.ts:36-41 | a next page exists exactly when the last page links onward, and it is one past the page count |
| `UseGames.PendingParam` | hooks/useGames.ts:42 | the first fetch asks for page 1; later ones for the next page parameter, or nothing at the end |
| `UseGames.Fetch` | hooks/useGames.ts:32-44 | an enabled fetch with a page to ask for appends the response and its parameter; otherwise nothing changes; page numbering stays sequential |
| `UseGames.FetchAllSequential` | hooks/useGames.ts:36-42 | after any run of fetches the pages carry parameters 1, 2, 3, ... in order |
| `UseGames.FetchAllCountsSuccesses` | hooks/useGames.ts:43 | a run of fetches adds at most one page per response and nothing when disabled |
| `UseGames.FetchInto` | hooks/useGames.ts:34 | a fetch changes only the entry under that hook's own key |
| `UseGames.FetchIsolated` | hooks/useGames.ts:34-64 | fetching for one hook never changes what another hook sees |
| `GamesList.QueryEffect` | components/GamesList.tsx:48-54 | the mode becomes search exactly for non-blank text and popular otherwise; text and platform are untouched |
| `GamesList.Step` | components/GamesList.tsx:48-58 | a handler's updates apply together; when the text changed, the mode then follows the new text |
| `GamesList.StepSearch` | components/GamesList.tsx:56-58 | submitting a search sets the text and, if it changed, the mode it implies |
| `GamesList.StepPopular` | components/GamesList.tsx:191-195 | the Popular button always yields popular mode, empty text, no platform |
| `GamesList.StepTrending` | components/GamesList.tsx:205-209 | the Trending button clears text and platform; the mode is trending only if no text was set, otherwise popular |
| `GamesList.StepPlatform` | components/GamesList.tsx:98-102 | a platform selection sets the platform and clears the text; the mode is platform only if no text was set, otherwise popular |
| `GamesList.NonBlankQueryMeansSearch` | components/GamesList.tsx:48-54 | after any action, non-blank search text implies search mode |
| `GamesList.TrendingClickDuringSearchShowsPopular` | components/GamesList.tsx:205-209 | a Trending click during a search lands on popular |
| `GamesList.StepIntended` | components/GamesList.tsx:98-102 | with the corrected handlers, Trending and platform clicks keep the mode they set |
| `GamesList.PlatformArg` | components/GamesList.tsx:42 | the platform hooks get the selected platform, or 0 when none is selected |
| `GamesList.CurrentInfiniteHook` | components/GamesList.tsx:60-71 | trending, search and platform modes read their own infinite query; any other mode reads popular |
| `GamesList.FlattenAppend` | components/GamesList.tsx:74-75 | flattening keeps every result in page order, so a new page appends exactly its results |
| `GamesList.DisplayedGames` | components/GamesList.tsx:73-75 | the list is empty while the active query has no data |
| `GamesList.FetchGrowsOnlyActiveList` | components/GamesList.tsx:73-75 | a page loaded for the active query appends exactly its results; one loaded for another query leaves the list unchanged |
| `GamesList.TwoPageSearch` | hooks/useGames.ts:95-108 | a 20-result page that links onward followed by a 5-result last page gives 25 games, page parameters 1 and 2, and no next page |
| `GamesList.CardKeyInjective` | components/GamesList.tsx:272-273 | equal card keys imply equal positions and ids, so every card in the grid has its own key |
| `GamesList.Render` | components/GamesList.tsx:113-304 | the key check comes first; past it the error banner shows exactly when the active query has an error, above the loading skeletons, the empty list or the grid, in that order of precedence; card i of the grid is game i with key `${id}-${i}`, so the grid shows the games in list order and, by `CardKeyInjective`, its keys are distinct; the end-of-list count shows exactly when there is no next page, and equals the list length |
| `GamesList.PlatformFilter` | components/GamesList.tsx:221-227 | absent until platforms load; then the first platforms in order, at most ten, and exactly ten when at least ten exist |
| `ImageLightbox.Mount` | components/ImageLightbox.tsx:27-28 | the viewer starts at the prop index, unzoomed |
| `ImageLightbox.PrevIndex` | components/ImageLightbox.tsx:65 | on a valid index, one step back modulo n, staying in range |
| `ImageLightbox.NextIndex` | components/ImageLightbox.tsx:70 | on a valid index, one step forward modulo n, staying in range |
| `ImageLightbox.PrevNextInverse` | components/ImageLightbox.tsx:64-72 | back after forward, and forward after back, return to the same index |
| `ImageLightbox.GoToPrevious` | components/ImageLightbox.tsx:64-67 | moves back one image and turns zoom off |
| `ImageLightbox.GoToNext` | components/ImageLightbox.tsx:69-72 | moves forward one image and turns zoom off |
| `ImageLightbox.ToggleZoom` | components/ImageLightbox.tsx:74-76 | flips zoom and keeps the image |
| `ImageLightbox.ToggleZoomTwice` | components/ImageLightbox.tsx:74-76 | toggling twice restores the state |
| `ImageLightbox.SelectThumbnail` | components/ImageLightbox.tsx:166-169 | shows the chosen image, unzoomed |
| `ImageLightbox.Resync` | components/ImageLightbox.tsx:30-32 | a changed prop moves the viewer to it, keeping zoom; an unchanged prop does nothing |
| `ImageLightbox.HandleClick` | components/ImageLightbox.tsx:91-170 | the chevrons move back or forward and the thumbnails select their image, all only for more than one image; the zoom button flips zoom; a click on the image only zooms in; the shown image stays within the n images |
| `ImageLightbox.ImageClickIdempotent` | components/ImageLightbox.tsx:145 | a second click on the image changes nothing |
| `ImageLightbox.HandleKeyDown` | components/ImageLightbox.tsx:34-53 | while open, Escape requests closing, the arrows move, z and Z toggle zoom, and other keys change nothing; when closed, no key does anything |
| `ImageLightbox.KeysKeepIndexInRange` | components/ImageLightbox.tsx:37-72 | any run of key presses keeps the shown image within the n images |
| `ImageLightbox.ArrowsCancel` | components/ImageLightbox.tsx:42-47 | right then left, or left then right, return to the same image, unzoomed |
| `GameCard.HandleToggleWishlist` | components/GameCard.tsx:14-23 | a saved game is removed and an unsaved one added, so saved-ness flips; distinct ids are preserved |
| `GameCard.ToggleTwiceRestoresMembership` | components/GameCard.tsx:17-23 | two toggles restore whether the game is saved |
| `GameCard.ToggleTwiceFromUnsaved` | components/GameCard.tsx:17-23 | for an unsaved game, two toggles restore the wishlist exactly |
| `GameCard.ScoreBand` | components/GameCard.tsx:82-86 | green at 75 and above, yellow from 50 to 74, red below 50 |
| `GameCard.ScoreBandMonotone` | components/GameCard.tsx:82-86 | a higher score never gets a worse band |
| `GameCard.MetacriticSlot` | components/GameCard.tsx:78-92 | a null score renders nothing; a score of 0 renders the bare text "0"; any other score renders its badge in its band |
| `GameCard.ZeroScoreShowsBareZero` | components/GameCard.tsx:78 | a score of 0 puts a stray "0" on the card |
| `GameCard.MetacriticSlotIntended` | components/GameCard.tsx:78 | never bare text; no badge exactly for a null or zero score; otherwise the same badge as above |
| `GameCard.CardChips` | components/GameCard.tsx:95-116 | the first two genres and the first three platforms, in order, as many as exist up to those limits |
| `GameCard.GameHref` | components/GameCard.tsx:43-46 | the link is `/game/` followed by the id |
| `GameCard.GameHrefInjective` | components/GameCard.tsx:44 | different games link to different pages |
| `GameDetailsPage.ViewFor` | components/GameDetailsPage.tsx:40-70 | loading takes precedence; otherwise an error or a missing game gives not-found; otherwise the loaded game |
| `GameDetailsPage.FormatDate` | components/GameDetailsPage.tsx:83-86 | "TBA" exactly for a null or empty date; otherwise the date's own text |
| `GameDetailsPage.ScreenshotsOf` | components/GameDetailsPage.tsx:73 | no screenshot data means an empty list |
| `GameDetailsPage.ShownScreenshots` | components/GameDetailsPage.tsx:242-243 | the first six screenshots in order, or all of them when fewer |
| `GameDetailsPage.ScreenshotSectionFor` | components/GameDetailsPage.tsx:236-274 | the section exists exactly when there are screenshots; the "Showing 6 of N" note appears exactly when more than six exist, and carries N |
| `GameDetailsPage.TagSection` | components/GameDetailsPage.tsx:313-327 | the section exists exactly when there are tags; it shows the first ten, in order |
| `GameDetailsPage.LoadedPageFor` | components/GameDetailsPage.tsx:145-157 | the hero score is the card's slot as written; the lightbox is mounted exactly when the screenshot section is shown (lines 373-381), which is when screenshots exist; the tag section exists exactly when there are tags |
| `GameDetailsPage.HeroZeroScoreShowsBareZero` | components/GameDetailsPage.tsx:145 | a game scored 0 shows a stray "0" in the hero |
| `GameDetailsPage.LoadedPageForIntended` | components/GameDetailsPage.tsx:145 | never bare text in the hero; no score exactly for a null or zero score; every other decision of the page is unchanged, and the whole page is unchanged unless the score is 0 |
| `GameDetailsPage.Loaded` | components/GameDetailsPage.tsx:37-38 | the page starts with the lightbox closed at index 0 |
| `GameDetailsPage.OpenLightbox` | components/GameDetailsPage.tsx:88-91 | opens with the clicked index; the viewer only moves to it if the index differs from the previous click |
| `GameDetailsPage.LightboxKeyPressed` | components/GameDetailsPage.tsx:93-95 | Escape closes an open lightbox; a closed one ignores keys |
| `GameDetailsPage.LightboxClicked` | components/ImageLightbox.tsx:78-170 | only an open lightbox reacts to its controls, as its handler says; the wishlist and the page's index and open flag are untouched |
| `GameDetailsPage.Step` | components/GameDetailsPage.tsx:245-247 | a click on a shown screenshot opens the lightbox as written; no other click position exists |
| `GameDetailsPage.ReopenShowsStaleImage` | components/GameDetailsPage.tsx:88-91 | clicking screenshot 3, pressing right, closing and clicking screenshot 3 again shows image 4 |
| `GameDetailsPage.ThumbnailReopenShowsStaleImage` | components/GameDetailsPage.tsx:88-91 | clicking screenshot 3, choosing thumbnail 5, closing and clicking screenshot 3 again shows image 5 |
| `GameDetailsPage.OpenLightboxIntended` | components/GameDetailsPage.tsx:88-91 | the corrected click always shows the clicked image |
| `GameDetailsPage.StepIntended` | components/GameDetailsPage.tsx:245-247 | with the corrected click, clicking shown screenshot i opens the lightbox on image i, an existing image |
| `GameDetailsPage.StepIntendedKeepsImage` | components/ImageLightbox.tsx:148 | every event keeps the lightbox on an existing screenshot: heart clicks, screenshot clicks, keys, closing, and clicks on the chevrons, zoom button, image and thumbnails |
| `GameDetailsPage.RunIntendedKeepsImage` | components/ImageLightbox.tsx:148 | after any sequence of those events the lightbox still shows an existing screenshot |
| `GameDetailsPage.HeartTwiceRestoresMembership` | components/GameDetailsPage.tsx:75-81 | two heart clicks on the page restore whether the game is saved |
| `NetflixStyleHome.HandleSearch` | components/NetflixStyleHome.tsx:30-33 | results show exactly when the text is not all white space |
| `NetflixStyleHome.BackToDiscover` | components/NetflixStyleHome.tsx:35-38 | text cleared and results hidden |
| `NetflixStyleHome.ViewFor` | components/NetflixStyleHome.tsx:40-46 | the search view is chosen exactly for a set flag with non-blank text, before the key check; then key-missing, then discover |
| `NetflixStyleHome.Apply` | components/NetflixStyleHome.tsx:30-38 | the results flag is only ever set together with non-blank text |
| `NetflixStyleHome.SearchViewIffFlag` | components/NetflixStyleHome.tsx:40-43 | after any actions, the search view shows exactly when the flag is set, key or not |
| `NetflixStyleHome.SearchViewQueryEnabled` | components/SearchResults.tsx:14-17 | for any non-blank text, which is all the search view is shown for, its query runs exactly when a key is configured |
| `NetflixStyleHome.HomeHooks` | components/NetflixStyleHome.tsx:19-28 | popular, trending and six genre queries with ids 4, 5, 3, 2, 10, 1 |
| `NetflixStyleHome.HomeHooksEnabledIffKey` | components/NetflixStyleHome.tsx:23-28 | every row's query is enabled exactly when a key is configured |
| `NetflixStyleHome.GenreRowsDistinct` | components/NetflixStyleHome.tsx:23-28 | the six genre rows use six different cache keys |

## Left out

- Persistence: the store's `persist` middleware and localStorage (store/gameStore.ts:49-52) are a library JSON round-trip and are not modelled; the wishlist is a value.
- The trending date window (lib/api.ts:75-77, lib/api.ts:81) reads the clock; it is a parameter.
- `formatDate`'s locale formatting (components/GameDetailsPage.tsx:85) is a host library call; a present date keeps its raw text.
- The axios transport, the base URL and the default `key` query parameter are not modelled; requests are records.
- Query-library internals are not modelled: request coalescing, refetching, staleness and loading flags are left out. `isLoading`, `isFetchingNextPage` and `hasNextPage` are inputs of the render decisions. The cache holds only what `Fetch` appends.
- `UseGames.FetchAllCountsSuccesses`: gives an upper bound of one page per response rather than the exact count, because a response arriving when no page is pending adds nothing.
- Explicit `undefined` fields in a search object (which the spread would copy) are treated as absent.
- Numbers are integers: JavaScript floats, `NaN`, `rating.toFixed(1)` and the exponential rendering of integers of 1e21 and above are not modelled.
- Titles and labels (`getTitle`, button highlight classes), the reel's timers, pixel offset and DOM transform, the lightbox's document listener and body overflow, and `dangerouslySetInnerHTML` are presentation or DOM side effects.
- The random picker's result card and reel cards (components/RandomPicker.tsx:235-260, components/RandomPicker.tsx:330-352) are presentation; their score expression is the card's, whose "0" defect is recorded under Findings.
- `useInfiniteScroll` and `SearchBar` are not part of this model; page loading is an explicit event.

## Findings

| source | as written | input that shows it | evidently intended | confidence | as-written member | corrected member |
|---|---|---|---|---|---|---|
| components/GamesList.tsx:98-102 | the Trending button (lines 205-209) and a platform button set their mode and clear the search text; the text change then triggers the effect at lines 48-54, which sets popular | search "zelda" in search mode, then click Trending: the popular list is shown | the clicked view is shown | high for the mode change, not executed | `GamesList.TrendingClickDuringSearchShowsPopular` | `GamesList.StepIntended` |
| components/GameDetailsPage.tsx:88-91 | the lightbox stays mounted while closed, and follows the page's index only when the index changes (components/ImageLightbox.tsx:30-32) | click screenshot 3, press right arrow (or choose thumbnail 5), close, click screenshot 3 again: screenshot 4 (or 5) is shown | the clicked screenshot is shown | high, not executed | `GameDetailsPage.ReopenShowsStaleImage` | `GameDetailsPage.OpenLightboxIntended` |
| components/GameDetailsPage.tsx:145 | the hero repeats `{game.metacritic && …}` and renders a score of 0 as the text "0" | a game whose `metacritic` is 0 | no score and no text | medium (scores of 0 may be rare), not executed | `GameDetailsPage.HeroZeroScoreShowsBareZero` | `GameDetailsPage.LoadedPageForIntended` |
| components/GameCard.tsx:78 | `{game.metacritic && …}` renders a score of 0 as the text "0" (likewise components/RandomPicker.tsx:242 and components/RandomPicker.tsx:338, whose rendering is not modelled) | a game whose `metacritic` is 0 | no badge and no text | medium (scores of 0 may be rare), not executed | `GameCard.ZeroScoreShowsBareZero` | `GameCard.MetacriticSlotIntended` |
