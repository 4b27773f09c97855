/** The query hooks (hooks/useGames.ts): each hook's cache key, its `enabled`
    condition and the request its query function issues, plus the page
    accumulation of the four infinite queries. The query library itself is
    reduced to a map from query key to the pages fetched under that key. */
module UseGames {
  import opened JsCore
  import opened GameTypes
  import opened Api

  /** One hook call, with its arguments. */
  datatype Hook =
    | SearchGamesHook(params: GameSearchParams)
    | PopularGamesHook(page: int)
    | TrendingGamesHook(page: int)
    | InfinitePopularHook
    | InfiniteTrendingHook
    | InfinitePlatformHook(platformId: int)
    | GameByIdHook(id: int)
    | GamesByGenreHook(genreId: int, page: int)
    | InfiniteGamesHook(params: GameSearchParams)
    | GameDetailsHook(id: int)
    | GameScreenshotsHook(id: int)
    | PlatformsHook
    | GamesByPlatformHook(platformId: int, page: int)

  /** The four hooks built on the infinite-query primitive. */
  predicate IsInfinite(h: Hook) {
    h.InfinitePopularHook? || h.InfiniteTrendingHook? || h.InfinitePlatformHook? || h.InfiniteGamesHook?
  }

  /** The hooks whose `enabled` also requires a non-zero id. */
  predicate GatedById(h: Hook) {
    h.InfinitePlatformHook? || h.GameByIdHook? || h.GamesByGenreHook?
    || h.GameDetailsHook? || h.GameScreenshotsHook? || h.GamesByPlatformHook?
  }

  function GateId(h: Hook): int
    requires GatedById(h)
  {
    match h
    case InfinitePlatformHook(id) => id
    case GameByIdHook(id) => id
    case GamesByGenreHook(id, _) => id
    case GameDetailsHook(id) => id
    case GameScreenshotsHook(id) => id
    case GamesByPlatformHook(id, _) => id
  }

  // ---------------------------------------------------------------------------
  // Query keys

  /** One element of a query-key array. */
  datatype KeyPart = KStr(s: string) | KNum(n: int) | KParams(p: GameSearchParams)

  type QueryKey = seq<KeyPart>

  /** The `queryKey` array of each hook. */
  function QueryKeyOf(h: Hook): (k: QueryKey)
    ensures h != PlatformsHook ==> |k| >= 3 && k[0] == KStr("games")
    ensures h.SearchGamesHook? || h.InfiniteGamesHook? ==> k[|k| - 1] == KParams(h.params)
    ensures GatedById(h) ==> KNum(GateId(h)) in k
  {
    match h
    case SearchGamesHook(p) => [KStr("games"), KStr("search"), KParams(p)]
    case PopularGamesHook(page) => [KStr("games"), KStr("popular"), KNum(page)]
    case TrendingGamesHook(page) => [KStr("games"), KStr("trending"), KNum(page)]
    case InfinitePopularHook => [KStr("games"), KStr("infinite"), KStr("popular")]
    case InfiniteTrendingHook => [KStr("games"), KStr("infinite"), KStr("trending")]
    case InfinitePlatformHook(id) => [KStr("games"), KStr("infinite"), KStr("platform"), KNum(id)]
    case GameByIdHook(id) => [KStr("games"), KStr("detail"), KNum(id)]
    case GamesByGenreHook(id, page) => [KStr("games"), KStr("genre"), KNum(id), KNum(page)]
    case InfiniteGamesHook(p) => [KStr("games"), KStr("infinite"), KParams(p)]
    case GameDetailsHook(id) => [KStr("games"), KStr("details"), KNum(id)]
    case GameScreenshotsHook(id) => [KStr("games"), KStr("screenshots"), KNum(id)]
    case PlatformsHook => [KStr("platforms")]
    case GamesByPlatformHook(id, page) => [KStr("games"), KStr("platform"), KNum(id), KNum(page)]
  }

  /** Different hook calls never share a cache entry. */
  lemma QueryKeysDistinct(a: Hook, b: Hook)
    ensures QueryKeyOf(a) == QueryKeyOf(b) ==> a == b
  {
  }

  // ---------------------------------------------------------------------------
  // Enabled conditions

  /** The `enabled` option of each hook, evaluated with JavaScript truthiness. */
  function Enabled(h: Hook, keyAvailable: bool): (r: bool)
    ensures h.SearchGamesHook? ==>
              (r <==> h.params.search.Some? && h.params.search.value != "" && keyAvailable)
    ensures GatedById(h) ==> (r <==> GateId(h) != 0 && keyAvailable)
    ensures !h.SearchGamesHook? && !GatedById(h) ==> r == keyAvailable
  {
    match h
    case SearchGamesHook(p) =>
      var search := OptStr(p.search);
      var nonEmpty := if p.search.Some? then Bool(|p.search.value| > 0) else Undefined;
      Truthy(And(And(search, nonEmpty), Bool(keyAvailable)))
    case InfinitePlatformHook(id) => Truthy(And(Num(id), Bool(keyAvailable)))
    case GameByIdHook(id) => Truthy(And(Num(id), Bool(keyAvailable)))
    case GamesByGenreHook(id, _) => Truthy(And(Num(id), Bool(keyAvailable)))
    case GameDetailsHook(id) => Truthy(And(Num(id), Bool(keyAvailable)))
    case GameScreenshotsHook(id) => Truthy(And(Num(id), Bool(keyAvailable)))
    case GamesByPlatformHook(id, _) => Truthy(And(Num(id), Bool(keyAvailable)))
    case _ => keyAvailable
  }

  /** An enabled hook's request always passes the interceptor. */
  lemma EnabledRequestsAreSent(h: Hook, apiKey: Option<string>, request: Request)
    requires Enabled(h, IsAPIKeyAvailable(apiKey))
    ensures Intercept(apiKey, request) == Sent(request)
  {
  }

  // ---------------------------------------------------------------------------
  // Query functions

  /** The request each hook's query function issues; infinite hooks use the
      page parameter, the others their own `page` argument. `dates` is the
      trending date window computed from the clock. */
  function QueryFn(h: Hook, pageParam: int, dates: string): (r: Request)
    ensures IsInfinite(h) ==> PageParam in r.params && r.params[PageParam] == Num(pageParam)
    ensures h.InfiniteGamesHook? ==>
              forall k :: k in SearchQuery(h.params) && k != PageParam ==> k in r.params && r.params[k] == SearchQuery(h.params)[k]
  {
    match h
    case SearchGamesHook(p) => SearchGames(p)
    case PopularGamesHook(page) => GetPopularGames(page)
    case TrendingGamesHook(page) => GetTrendingGames(page, dates)
    case InfinitePopularHook => GetPopularGames(pageParam)
    case InfiniteTrendingHook => GetTrendingGames(pageParam, dates)
    case InfinitePlatformHook(id) => GetGamesByPlatform(id, pageParam)
    case GameByIdHook(id) => GetGameById(id)
    case GamesByGenreHook(id, page) => GetGamesByGenre(id, page)
    case InfiniteGamesHook(p) =>
      PageOverrideKeepsFilters(p, pageParam);
      SearchGames(p.(page := Some(pageParam)))
    case GameDetailsHook(id) => GetGameDetails(id)
    case GameScreenshotsHook(id) => GetGameScreenshots(id)
    case PlatformsHook => GetPlatforms()
    case GamesByPlatformHook(id, page) => GetGamesByPlatform(id, page)
  }

  /** `{ ...params, page }` changes the page and keeps every other filter. */
  lemma PageOverrideKeepsFilters(p: GameSearchParams, page: int)
    ensures forall k :: k in SearchQuery(p) && k != PageParam ==>
              k in SearchQuery(p.(page := Some(page))) && SearchQuery(p.(page := Some(page)))[k] == SearchQuery(p)[k]
  {
  }

  // ---------------------------------------------------------------------------
  // Infinite queries

  /** The data of an infinite query: the pages fetched so far and the page
      parameter each was fetched with. */
  datatype InfiniteData = InfiniteData(pages: seq<Page>, pageParams: seq<int>)

  const NoData := InfiniteData([], [])

  /** `initialPageParam`, shared by all four infinite hooks. */
  const InitialPageParam: int := 1

  /** `getNextPageParam(lastPage, pages)`, shared by all four infinite hooks:
      one past the number of pages while the last page links to a further one. */
  function GetNextPageParam(lastPage: Page, pages: seq<Page>): (r: Option<int>)
    ensures r.Some? <==> lastPage.next.Some? && lastPage.next.value != ""
    ensures r.Some? ==> r.value == |pages| + 1
  {
    if Truthy(OptStr(lastPage.next)) then Some(|pages| + 1) else None
  }

  /** `hasNextPage`: there is data and the next page parameter is defined. */
  predicate HasNextPage(d: InfiniteData) {
    |d.pages| > 0 && GetNextPageParam(d.pages[|d.pages| - 1], d.pages).Some?
  }

  /** The page parameter the next fetch asks for: the initial one before any
      data, the next page parameter afterwards, nothing at the end. */
  function PendingParam(d: InfiniteData): (r: Option<int>)
    ensures |d.pages| == 0 ==> r == Some(InitialPageParam)
    ensures |d.pages| > 0 ==> (r.Some? <==> HasNextPage(d))
    ensures r.Some? ==> r.value == |d.pages| + 1
  {
    if |d.pages| == 0 then Some(InitialPageParam)
    else GetNextPageParam(d.pages[|d.pages| - 1], d.pages)
  }

  /** Pages were fetched strictly in order: page k (from 0) with parameter k + 1. */
  ghost predicate Sequential(d: InfiniteData) {
    |d.pageParams| == |d.pages| && forall k :: 0 <= k < |d.pageParams| ==> d.pageParams[k] == k + 1
  }

  /** One fetch of an infinite query: when the query is enabled and has a page
      to ask for, a successful response is appended with its parameter; a
      failed one (`None`) leaves the data as it was, so it can be retried. */
  function Fetch(d: InfiniteData, enabled: bool, response: Option<Page>): (r: InfiniteData)
    ensures !enabled || PendingParam(d).None? || response.None? ==> r == d
    ensures enabled && PendingParam(d).Some? && response.Some? ==>
              && r.pages == d.pages + [response.value]
              && r.pageParams == d.pageParams + [PendingParam(d).value]
    ensures Sequential(d) ==> Sequential(r)
  {
    if enabled && PendingParam(d).Some? && response.Some? then
      InfiniteData(d.pages + [response.value], d.pageParams + [PendingParam(d).value])
    else
      d
  }

  /** A run of fetches from no data. */
  function FetchAll(d: InfiniteData, enabled: bool, responses: seq<Option<Page>>): InfiniteData
    decreases |responses|
  {
    if responses == [] then d
    else FetchAll(Fetch(d, enabled, responses[0]), enabled, responses[1..])
  }

  /** However the responses go, the pages of an infinite query are always
      numbered 1, 2, 3, ... in the order they were fetched. */
  lemma {:induction false} FetchAllSequential(d: InfiniteData, enabled: bool, responses: seq<Option<Page>>)
    requires Sequential(d)
    ensures Sequential(FetchAll(d, enabled, responses))
    decreases |responses|
  {
    if responses != [] {
      FetchAllSequential(Fetch(d, enabled, responses[0]), enabled, responses[1..]);
    }
  }

  /** The number of pages never exceeds the number of successful responses. */
  lemma {:induction false} FetchAllCountsSuccesses(d: InfiniteData, enabled: bool, responses: seq<Option<Page>>)
    ensures |FetchAll(d, enabled, responses).pages| <= |d.pages| + |responses|
    ensures !enabled ==> FetchAll(d, enabled, responses) == d
    decreases |responses|
  {
    if responses != [] {
      FetchAllCountsSuccesses(Fetch(d, enabled, responses[0]), enabled, responses[1..]);
    }
  }

  // ---------------------------------------------------------------------------
  // The query cache, as far as the infinite queries use it

  type Cache = map<QueryKey, InfiniteData>

  /** The data held for a hook's key; no entry means no data yet. */
  function Lookup(cache: Cache, h: Hook): InfiniteData {
    var key := QueryKeyOf(h);
    if key in cache then cache[key] else NoData
  }

  /** One fetch for an infinite hook; only that hook's key can change. */
  function FetchInto(cache: Cache, h: Hook, keyAvailable: bool, response: Option<Page>): (r: Cache)
    requires IsInfinite(h)
    ensures Lookup(r, h) == Fetch(Lookup(cache, h), Enabled(h, keyAvailable), response)
    ensures forall k :: k in cache && k != QueryKeyOf(h) ==> k in r && r[k] == cache[k]
    ensures forall k :: k in r && k != QueryKeyOf(h) ==> k in cache
  {
    var d := Lookup(cache, h);
    var d' := Fetch(d, Enabled(h, keyAvailable), response);
    if d' == d then cache else cache[QueryKeyOf(h) := d']
  }

  /** Fetching for one hook never changes what another hook sees. */
  lemma FetchIsolated(cache: Cache, h: Hook, other: Hook, keyAvailable: bool, response: Option<Page>)
    requires IsInfinite(h) && other != h
    ensures Lookup(FetchInto(cache, h, keyAvailable, response), other) == Lookup(cache, other)
  {
    QueryKeysDistinct(h, other);
  }
}
