/** The catalog client (lib/api.ts): the API-key check, the request
    interceptor, and the request each `gameApi` call issues, as pure records.
    The HTTP transport and the remote catalog are not part of this model. */
module Api {
  import opened JsCore
  import opened GameTypes

  /** The value the example configuration ships with; it does not count as a key. */
  const PlaceholderKey: string := "your_api_key_here"

  /** Page size of every paginated game or genre request. */
  const PageSize: int := 20

  /** Page size of the platform list request. */
  const PlatformsPageSize: int := 50

  /** `isAPIKeyAvailable()` for the configured key (`undefined` when unset). */
  function IsAPIKeyAvailable(apiKey: Option<string>): (r: bool)
    ensures r <==> apiKey.Some? && !IsBlank(apiKey.value) && apiKey.value != PlaceholderKey
  {
    match apiKey
    case None => false
    case Some(k) => Truthy(Str(k)) && Trim(k) != "" && k != PlaceholderKey
  }

  /** The resource a request addresses. */
  datatype Endpoint =
    | GamesEndpoint                    // /games
    | GameEndpoint(id: int)            // /games/{id}
    | ScreenshotsEndpoint(id: int)     // /games/{id}/screenshots
    | GenresEndpoint                   // /genres
    | PlatformsEndpoint                // /platforms

  /** The query-string parameters the client sends. */
  datatype Param =
    | SearchParam | PageParam | PageSizeParam | OrderingParam
    | GenresParam | PlatformsParam | MetacriticParam | DatesParam

  /** The parameter's name on the wire. */
  function ParamName(p: Param): (name: string)
    ensures |name| > 0
  {
    match p
    case SearchParam => "search"
    case PageParam => "page"
    case PageSizeParam => "page_size"
    case OrderingParam => "ordering"
    case GenresParam => "genres"
    case PlatformsParam => "platforms"
    case MetacriticParam => "metacritic"
    case DatesParam => "dates"
  }

  /** Different parameters go out under different names, so keying requests
      by `Param` loses nothing. */
  lemma ParamNamesDistinct(a: Param, b: Param)
    ensures ParamName(a) == ParamName(b) <==> a == b
  {
  }

  /** Query-string parameters of a request, by name. */
  type QueryParams = map<Param, Value>

  /** A GET request as the client builds it. */
  datatype Request = Request(endpoint: Endpoint, params: QueryParams)

  /** The parameters a `GameSearchParams` object may carry. */
  const SearchParams: set<Param> :=
    {SearchParam, PageParam, PageSizeParam, OrderingParam, GenresParam, PlatformsParam, MetacriticParam}

  /** A present string or number field as a parameter value. */
  function StrField(f: Option<string>): Option<Value> {
    if f.Some? then Some(Str(f.value)) else None
  }

  function NumField(f: Option<int>): Option<Value> {
    if f.Some? then Some(Num(f.value)) else None
  }

  /** The parameters a `GameSearchParams` object contributes: exactly its present fields. */
  function SearchQuery(p: GameSearchParams): (m: QueryParams)
    ensures SearchParam in m <==> p.search.Some?
    ensures p.search.Some? ==> m[SearchParam] == Str(p.search.value)
    ensures PageParam in m <==> p.page.Some?
    ensures p.page.Some? ==> m[PageParam] == Num(p.page.value)
    ensures PageSizeParam in m <==> p.pageSize.Some?
    ensures p.pageSize.Some? ==> m[PageSizeParam] == Num(p.pageSize.value)
    ensures OrderingParam in m <==> p.ordering.Some?
    ensures p.ordering.Some? ==> m[OrderingParam] == Str(p.ordering.value)
    ensures GenresParam in m <==> p.genres.Some?
    ensures p.genres.Some? ==> m[GenresParam] == Str(p.genres.value)
    ensures PlatformsParam in m <==> p.platforms.Some?
    ensures p.platforms.Some? ==> m[PlatformsParam] == Str(p.platforms.value)
    ensures MetacriticParam in m <==> p.metacritic.Some?
    ensures p.metacritic.Some? ==> m[MetacriticParam] == Str(p.metacritic.value)
    ensures m.Keys <= SearchParams
  {
    map k | k in SearchParams && Field(p, k).Some? :: Field(p, k).value
  }

  /** The value a `GameSearchParams` object holds for one parameter, if present. */
  function Field(p: GameSearchParams, k: Param): Option<Value> {
    match k
    case SearchParam => StrField(p.search)
    case PageParam => NumField(p.page)
    case PageSizeParam => NumField(p.pageSize)
    case OrderingParam => StrField(p.ordering)
    case GenresParam => StrField(p.genres)
    case PlatformsParam => StrField(p.platforms)
    case MetacriticParam => StrField(p.metacritic)
    case DatesParam => None
  }

  /** `searchGames(params)`: `{ page_size: 20, ...params }` on /games. */
  function SearchGames(params: GameSearchParams): (r: Request)
    ensures r.endpoint == GamesEndpoint
    ensures r.params.Keys == SearchQuery(params).Keys + {PageSizeParam}
    ensures forall k :: k in SearchQuery(params) ==> r.params[k] == SearchQuery(params)[k]
    ensures params.pageSize.None? ==> r.params[PageSizeParam] == Num(PageSize)
  {
    Request(GamesEndpoint, map[PageSizeParam := Num(PageSize)] + SearchQuery(params))
  }

  /** `getGameById(id)` and `getGameDetails(id)`: /games/{id} without parameters. */
  function GetGameById(id: int): (r: Request)
    ensures r.endpoint.GameEndpoint? && r.endpoint.id == id
    ensures r.params == map[]
  {
    Request(GameEndpoint(id), map[])
  }

  function GetGameDetails(id: int): (r: Request)
    ensures r == GetGameById(id)
  {
    Request(GameEndpoint(id), map[])
  }

  /** `getPopularGames(page)`: ordered by rating, descending. */
  function GetPopularGames(page: int): (r: Request)
    ensures r.endpoint == GamesEndpoint
    ensures r.params.Keys == {OrderingParam, PageSizeParam, PageParam}
    ensures r.params[OrderingParam] == Str("-rating")
    ensures r.params[PageSizeParam] == Num(PageSize)
    ensures r.params[PageParam] == Num(page)
  {
    Request(GamesEndpoint, map[OrderingParam := Str("-rating"), PageSizeParam := Num(PageSize), PageParam := Num(page)])
  }

  /** `getTrendingGames(page)`, given the date window it computes from the clock. */
  function GetTrendingGames(page: int, dates: string): (r: Request)
    ensures r.endpoint == GamesEndpoint
    ensures r.params.Keys == {DatesParam, OrderingParam, PageSizeParam, PageParam}
    ensures r.params[DatesParam] == Str(dates)
    ensures r.params[OrderingParam] == Str("-added")
    ensures r.params[PageSizeParam] == Num(PageSize)
    ensures r.params[PageParam] == Num(page)
  {
    Request(GamesEndpoint,
      map[DatesParam := Str(dates), OrderingParam := Str("-added"), PageSizeParam := Num(PageSize), PageParam := Num(page)])
  }

  /** `getGamesByGenre(genreId, page)`: filtered by genre, no ordering. */
  function GetGamesByGenre(genreId: int, page: int): (r: Request)
    ensures r.endpoint == GamesEndpoint
    ensures r.params.Keys == {GenresParam, PageSizeParam, PageParam}
    ensures r.params[GenresParam] == Num(genreId)
    ensures r.params[PageSizeParam] == Num(PageSize)
    ensures r.params[PageParam] == Num(page)
  {
    Request(GamesEndpoint, map[GenresParam := Num(genreId), PageSizeParam := Num(PageSize), PageParam := Num(page)])
  }

  /** `getGenres()`. */
  function GetGenres(): (r: Request)
    ensures r.endpoint == GenresEndpoint
    ensures r.params == map[PageSizeParam := Num(PageSize)]
  {
    Request(GenresEndpoint, map[PageSizeParam := Num(PageSize)])
  }

  /** `getGameScreenshots(id)`. */
  function GetGameScreenshots(id: int): (r: Request)
    ensures r.endpoint.ScreenshotsEndpoint? && r.endpoint.id == id
    ensures r.params == map[]
  {
    Request(ScreenshotsEndpoint(id), map[])
  }

  /** `getPlatforms()`: one page of up to 50 platforms. */
  function GetPlatforms(): (r: Request)
    ensures r.endpoint == PlatformsEndpoint
    ensures r.params == map[PageSizeParam := Num(PlatformsPageSize)]
  {
    Request(PlatformsEndpoint, map[PageSizeParam := Num(PlatformsPageSize)])
  }

  /** `getGamesByPlatform(platformId, page)`: filtered by platform, ordered by rating. */
  function GetGamesByPlatform(platformId: int, page: int): (r: Request)
    ensures r.endpoint == GamesEndpoint
    ensures r.params.Keys == {PlatformsParam, PageSizeParam, PageParam, OrderingParam}
    ensures r.params[PlatformsParam] == Num(platformId)
    ensures r.params[PageSizeParam] == Num(PageSize)
    ensures r.params[PageParam] == Num(page)
    ensures r.params[OrderingParam] == Str("-rating")
  {
    Request(GamesEndpoint,
      map[PlatformsParam := Num(platformId), PageSizeParam := Num(PageSize), PageParam := Num(page), OrderingParam := Str("-rating")])
  }

  /** The platform listing is the popular listing narrowed to one platform. */
  lemma PlatformRequestNarrowsPopular(platformId: int, page: int)
    ensures GetGamesByPlatform(platformId, page).params
         == GetPopularGames(page).params[PlatformsParam := Num(platformId)]
  {
  }

  /** The genre listing is the popular listing narrowed to one genre, without its ordering. */
  lemma GenreRequestDropsOrdering(genreId: int, page: int)
    ensures GetGamesByGenre(genreId, page).params
         == (GetPopularGames(page).params - {OrderingParam})[GenresParam := Num(genreId)]
  {
  }

  // ---------------------------------------------------------------------------
  // Request interceptor

  datatype ApiError = KeyNotConfigured

  /** What leaves the client: the request, or the interceptor's rejection. */
  datatype Dispatch = Sent(request: Request) | Rejected(error: ApiError)

  /** The request interceptor: throws before any request when no key is
      configured, and passes the request through untouched otherwise. */
  function Intercept(apiKey: Option<string>, request: Request): (r: Dispatch)
    ensures r.Rejected? <==> (apiKey.None? || IsBlank(apiKey.value) || apiKey.value == PlaceholderKey)
    ensures r.Sent? ==> r.request == request
  {
    if !IsAPIKeyAvailable(apiKey) then Rejected(KeyNotConfigured) else Sent(request)
  }
}
