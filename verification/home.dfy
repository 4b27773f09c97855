/** The discover page (components/NetflixStyleHome.tsx): the search/discover
    toggle, the order of its early returns, and the fixed set of queries it
    issues for its rows. */
module NetflixStyleHome {
  import opened JsCore
  import opened GameTypes
  import opened Api
  import opened UseGames

  /** The page's two pieces of state. */
  datatype HomeState = HomeState(searchQuery: string, showSearchResults: bool)

  const InitialState := HomeState("", false)

  /** `handleSearch(query)`: keeps the text, and shows results only for a
      text with something other than whitespace in it. */
  function HandleSearch(st: HomeState, query: string): (r: HomeState)
    ensures r.searchQuery == query
    ensures r.showSearchResults <==> !IsBlank(query)
  {
    HomeState(query, |Trim(query)| > 0)
  }

  /** `handleBackToDiscover()`: clears the text and hides the results. */
  function BackToDiscover(st: HomeState): (r: HomeState)
    ensures r.searchQuery == "" && !r.showSearchResults
    ensures r == InitialState
  {
    HomeState("", false)
  }

  /** What the page renders. */
  datatype HomeView = SearchView(query: string) | KeyMissingView | DiscoverView

  /** The early returns in order: search results first, then the key check. */
  function ViewFor(st: HomeState, keyAvailable: bool): (v: HomeView)
    ensures v.SearchView? <==> st.showSearchResults && !IsBlank(st.searchQuery)
    ensures v.SearchView? ==> v.query == st.searchQuery
    ensures v == KeyMissingView <==> !(st.showSearchResults && !IsBlank(st.searchQuery)) && !keyAvailable
    ensures v == DiscoverView <==> !(st.showSearchResults && !IsBlank(st.searchQuery)) && keyAvailable
  {
    if st.showSearchResults && Truthy(Str(Trim(st.searchQuery))) then SearchView(st.searchQuery)
    else if !keyAvailable then KeyMissingView
    else DiscoverView
  }

  /** The results flag is only ever set for a non-blank text. */
  ghost predicate Consistent(st: HomeState) {
    st.showSearchResults ==> !IsBlank(st.searchQuery)
  }

  datatype HomeEvent = Searched(query: string) | BackClicked

  function Apply(st: HomeState, e: HomeEvent): (r: HomeState)
    ensures Consistent(r)
  {
    match e
    case Searched(q) => HandleSearch(st, q)
    case BackClicked => BackToDiscover(st)
  }

  function ApplyAll(st: HomeState, events: seq<HomeEvent>): HomeState
    decreases |events|
  {
    if events == [] then st else ApplyAll(Apply(st, events[0]), events[1..])
  }

  /** From any consistent state (the initial one among them), the flag alone
      decides the search view: the blank-text check before it never changes
      the outcome, and the search view is shown even without a key. */
  lemma {:induction false} SearchViewIffFlag(st: HomeState, events: seq<HomeEvent>, keyAvailable: bool)
    requires Consistent(st)
    ensures var r := ApplyAll(st, events);
            ViewFor(r, keyAvailable).SearchView? <==> r.showSearchResults
    decreases |events|
  {
    if events != [] {
      SearchViewIffFlag(Apply(st, events[0]), events[1..], keyAvailable);
    }
  }

  /** The search view's own query (`{ search: query, page_size: 20 }`) is
      enabled exactly when a key is configured: the view is only shown for a
      non-blank text, which is never empty. */
  lemma SearchViewQueryEnabled(query: string, keyAvailable: bool)
    requires !IsBlank(query)
    ensures var p := NoSearchParams.(search := Some(query), pageSize := Some(PageSize));
            Enabled(SearchGamesHook(p), keyAvailable) <==> keyAvailable
  {
    assert IsBlank("");
  }

  /** Genre ids of the six genre rows: action, RPG, adventure, shooter,
      strategy, racing. */
  const GenreRowIds: seq<int> := [4, 5, 3, 2, 10, 1]

  /** Every query the page issues, in hook order, whatever it renders. */
  function HomeHooks(): (hs: seq<Hook>)
    ensures |hs| == 2 + |GenreRowIds|
    ensures hs[0] == PopularGamesHook(1) && hs[1] == TrendingGamesHook(1)
    ensures forall k :: 0 <= k < |GenreRowIds| ==> hs[2 + k] == GamesByGenreHook(GenreRowIds[k], 1)
  {
    [PopularGamesHook(1), TrendingGamesHook(1)]
      + seq(|GenreRowIds|, k requires 0 <= k < |GenreRowIds| => GamesByGenreHook(GenreRowIds[k], 1))
  }

  /** The rows load exactly when a key is configured: every genre id is non-zero. */
  lemma HomeHooksEnabledIffKey(keyAvailable: bool)
    ensures forall k :: 0 <= k < |HomeHooks()| ==> (Enabled(HomeHooks()[k], keyAvailable) <==> keyAvailable)
  {
    var hs := HomeHooks();
    forall k | 0 <= k < |hs| ensures Enabled(hs[k], keyAvailable) <==> keyAvailable {
      if k >= 2 {
        assert GenreRowIds[k - 2] != 0;
      }
    }
  }

  /** The six rows issue six different queries. */
  lemma GenreRowsDistinct()
    ensures forall i, j :: 0 <= i < j < |GenreRowIds| ==>
              QueryKeyOf(GamesByGenreHook(GenreRowIds[i], 1)) != QueryKeyOf(GamesByGenreHook(GenreRowIds[j], 1))
  {
    forall i, j | 0 <= i < j < |GenreRowIds|
      ensures QueryKeyOf(GamesByGenreHook(GenreRowIds[i], 1)) != QueryKeyOf(GamesByGenreHook(GenreRowIds[j], 1))
    {
      QueryKeysDistinct(GamesByGenreHook(GenreRowIds[i], 1), GamesByGenreHook(GenreRowIds[j], 1));
    }
  }
}
