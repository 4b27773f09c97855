/** The catalog page (components/GamesList.tsx): the view-selection state
    (search text, view mode, selected platform), its handlers and the effect
    that re-derives the view mode whenever the search text changes, the choice
    of the infinite query to show, the flattened game list and what the page
    renders for it. */
module GamesList {
  import opened JsCore
  import opened GameTypes
  import opened Api
  import opened UseGames

  datatype ViewMode = Popular | Trending | SearchMode | PlatformMode

  /** The component's three pieces of state. */
  datatype ListState = ListState(searchQuery: string, viewMode: ViewMode, selectedPlatform: Option<int>)

  /** The state after mounting: the initial values, after the effect has run once on "". */
  const InitialState := ListState("", Popular, None)

  /** The user actions the component handles. */
  datatype UiEvent =
    | SearchSubmitted(query: string)     // handleSearch, from the search bar
    | PopularClicked
    | TrendingClicked
    | PlatformSelected(platformId: int)  // handlePlatformSelect

  /** The effect on `[searchQuery]`: search mode for a non-blank query, popular otherwise. */
  function QueryEffect(s: ListState): (r: ListState)
    ensures r.searchQuery == s.searchQuery && r.selectedPlatform == s.selectedPlatform
    ensures r.viewMode == SearchMode <==> !IsBlank(s.searchQuery)
    ensures r.viewMode == Popular <==> IsBlank(s.searchQuery)
  {
    if Truthy(Str(Trim(s.searchQuery))) then s.(viewMode := SearchMode) else s.(viewMode := Popular)
  }

  /** The state updates a handler makes, before the effect runs. */
  function Handle(s: ListState, e: UiEvent): ListState {
    match e
    case SearchSubmitted(q) => s.(searchQuery := q)
    case PopularClicked => ListState("", Popular, None)
    case TrendingClicked => ListState("", Trending, None)
    case PlatformSelected(id) => ListState("", PlatformMode, Some(id))
  }

  /** One user action: the handler's batched updates, then the effect when
      the search text changed. The effect never touches the text or the
      platform; when it runs, the mode follows the new text. */
  function Step(s: ListState, e: UiEvent): (r: ListState)
    ensures r.searchQuery == Handle(s, e).searchQuery
    ensures r.selectedPlatform == Handle(s, e).selectedPlatform
    ensures r.searchQuery != s.searchQuery ==> (r.viewMode == SearchMode <==> !IsBlank(r.searchQuery))
    ensures r.searchQuery == s.searchQuery ==> r.viewMode == Handle(s, e).viewMode
  {
    AfterHandler(s, Handle(s, e))
  }

  /** Submitting a search sets the text and, when it changed, the mode it implies. */
  lemma StepSearch(s: ListState, q: string)
    ensures var r := Step(s, SearchSubmitted(q));
            && r.searchQuery == q && r.selectedPlatform == s.selectedPlatform
            && (q == s.searchQuery ==> r.viewMode == s.viewMode)
            && (q != s.searchQuery ==> (r.viewMode == SearchMode <==> !IsBlank(q)))
            && (q != s.searchQuery ==> (r.viewMode == Popular <==> IsBlank(q)))
  {
  }

  /** The Popular button always lands on the unfiltered popular list. */
  lemma StepPopular(s: ListState)
    ensures Step(s, PopularClicked) == ListState("", Popular, None)
  {
  }

  /** The Trending button shows trending only when no search text was set;
      otherwise clearing the text triggers the effect, which resets the mode. */
  lemma StepTrending(s: ListState)
    ensures var r := Step(s, TrendingClicked);
            && r.searchQuery == "" && r.selectedPlatform.None?
            && r.viewMode == (if s.searchQuery == "" then Trending else Popular)
  {
    var next := ListState("", Trending, None);
    assert Handle(s, TrendingClicked) == next;
    if s.searchQuery != "" {
      assert IsBlank(next.searchQuery);
    }
  }

  /** A platform selection behaves like the Trending button. */
  lemma StepPlatform(s: ListState, id: int)
    ensures var r := Step(s, PlatformSelected(id));
            && r.searchQuery == "" && r.selectedPlatform == Some(id)
            && r.viewMode == (if s.searchQuery == "" then PlatformMode else Popular)
  {
    var next := ListState("", PlatformMode, Some(id));
    assert Handle(s, PlatformSelected(id)) == next;
    if s.searchQuery != "" {
      assert IsBlank(next.searchQuery);
    }
  }

  /** React's order: the handler's updates are applied together, then the
      effect runs if (and only if) the search text changed. */
  function AfterHandler(before: ListState, next: ListState): (r: ListState)
    ensures next.searchQuery == before.searchQuery ==> r == next
    ensures next.searchQuery != before.searchQuery ==> r == QueryEffect(next)
  {
    if next.searchQuery != before.searchQuery then QueryEffect(next) else next
  }

  /** After any action, a non-blank search text always means search mode. */
  lemma NonBlankQueryMeansSearch(s: ListState, e: UiEvent)
    requires !IsBlank(s.searchQuery) ==> s.viewMode == SearchMode
    ensures var r := Step(s, e); !IsBlank(r.searchQuery) ==> r.viewMode == SearchMode
  {
  }

  /** A witness that a Trending click during a search shows the popular list. */
  lemma TrendingClickDuringSearchShowsPopular()
    ensures Step(ListState("zelda", SearchMode, None), TrendingClicked).viewMode == Popular
  {
  }

  /** The same action with the effect skipped for handlers that set the mode
      themselves: Trending and platform selections keep the mode they set. */
  function StepIntended(s: ListState, e: UiEvent): (r: ListState)
    ensures e.SearchSubmitted? ==> r == Step(s, e)
    ensures !e.SearchSubmitted? ==> r.searchQuery == ""
    ensures e.PopularClicked? ==> r.viewMode == Popular
    ensures e.TrendingClicked? ==> r.viewMode == Trending
    ensures e.PlatformSelected? ==> r.viewMode == PlatformMode && r.selectedPlatform == Some(e.platformId)
  {
    if e.SearchSubmitted? then Step(s, e) else Handle(s, e)
  }

  // ---------------------------------------------------------------------------
  // The active query and the displayed list

  /** The search parameters both search hooks are called with. */
  function SearchParamsFor(query: string): GameSearchParams {
    NoSearchParams.(search := Some(query), pageSize := Some(PageSize))
  }

  /** `selectedPlatform || 0`. */
  function PlatformArg(selected: Option<int>): (id: int)
    ensures selected.None? ==> id == 0
    ensures selected.Some? ==> id == selected.value
  {
    var v := Or(OptNum(selected), Num(0));
    if v.Num? then v.n else 0
  }

  /** `getCurrentInfiniteData()`: the infinite hook the current mode reads. */
  function CurrentInfiniteHook(s: ListState): (h: Hook)
    ensures IsInfinite(h)
    ensures s.viewMode == Trending ==> h == InfiniteTrendingHook
    ensures s.viewMode == SearchMode ==> h == InfiniteGamesHook(SearchParamsFor(s.searchQuery))
    ensures s.viewMode == PlatformMode ==> h == InfinitePlatformHook(PlatformArg(s.selectedPlatform))
    ensures s.viewMode == Popular ==> h == InfinitePopularHook
  {
    match s.viewMode
    case Trending => InfiniteTrendingHook
    case SearchMode => InfiniteGamesHook(SearchParamsFor(s.searchQuery))
    case PlatformMode => InfinitePlatformHook(PlatformArg(s.selectedPlatform))
    case _ => InfinitePopularHook
  }

  /** `pages.flatMap(page => page.results)`. */
  function Flatten(pages: seq<Page>): (items: seq<Game>)
  {
    if pages == [] then [] else pages[0].results + Flatten(pages[1..])
  }

  /** Total number of results across pages. */
  function ResultCount(pages: seq<Page>): nat {
    if pages == [] then 0 else |pages[0].results| + ResultCount(pages[1..])
  }

  /** Flattening keeps every result, in page order: the list has one entry
      per result, and appending a page appends exactly its results. */
  lemma {:induction false} FlattenAppend(pages: seq<Page>, p: Page)
    ensures Flatten(pages + [p]) == Flatten(pages) + p.results
    ensures |Flatten(pages + [p])| == ResultCount(pages + [p])
  {
    if pages == [] {
      assert [p][1..] == [];
    } else {
      assert (pages + [p])[1..] == pages[1..] + [p];
      FlattenAppend(pages[1..], p);
    }
  }

  /** The games the page lists: the flattened pages of the active query, or
      nothing before its first page arrives. */
  function DisplayedGames(cache: Cache, s: ListState): (games: seq<Game>)
    ensures QueryKeyOf(CurrentInfiniteHook(s)) !in cache ==> games == []
  {
    Flatten(Lookup(cache, CurrentInfiniteHook(s)).pages)
  }

  /** Loading a page for the active query appends exactly that page's
      results to the list; loading for any other query leaves it unchanged. */
  lemma FetchGrowsOnlyActiveList(cache: Cache, s: ListState, h: Hook, keyAvailable: bool, page: Page)
    requires IsInfinite(h)
    ensures var after := FetchInto(cache, h, keyAvailable, Some(page));
            && (h != CurrentInfiniteHook(s) ==> DisplayedGames(after, s) == DisplayedGames(cache, s))
            && (h == CurrentInfiniteHook(s) && Enabled(h, keyAvailable) && PendingParam(Lookup(cache, h)).Some? ==>
                  DisplayedGames(after, s) == DisplayedGames(cache, s) + page.results)
  {
    var after := FetchInto(cache, h, keyAvailable, Some(page));
    if h != CurrentInfiniteHook(s) {
      FetchIsolated(cache, h, CurrentInfiniteHook(s), keyAvailable, Some(page));
    } else if Enabled(h, keyAvailable) && PendingParam(Lookup(cache, h)).Some? {
      FlattenAppend(Lookup(cache, h).pages, page);
    }
  }

  /** The search example: a first page of 20 results that links onwards and
      a last page of 5 leave 25 games listed and nothing more to load. */
  lemma TwoPageSearch(query: string, first: Page, last: Page)
    requires |first.results| == 20 && first.next.Some? && first.next.value != ""
    requires |last.results| == 5 && last.next.None?
    ensures var d := Fetch(Fetch(NoData, true, Some(first)), true, Some(last));
            |Flatten(d.pages)| == 25 && !HasNextPage(d) && d.pageParams == [1, 2]
  {
    var d1 := Fetch(NoData, true, Some(first));
    assert d1.pages == [first];
    FlattenAppend([], first);
    FlattenAppend([first], last);
    assert [first] + [last] == [first, last];
  }

  // ---------------------------------------------------------------------------
  // Rendering decisions

  /** The key of the card at position `index`: `${game.id}-${index}`. */
  function CardKey(g: Game, index: nat): string {
    IntToString(g.id) + "-" + NatToString(index)
  }

  /** The part of `s` after its last '-' (all of `s` when it has none). */
  function AfterLastDash(s: string): string {
    if s == [] then []
    else if s[|s| - 1] == '-' then []
    else AfterLastDash(s[..|s| - 1]) + [s[|s| - 1]]
  }

  lemma {:induction false} AfterLastDashOfDigits(prefix: string, digits: string)
    requires forall i :: 0 <= i < |digits| ==> IsDigit(digits[i])
    ensures AfterLastDash(prefix + "-" + digits) == digits
    decreases |digits|
  {
    var s := prefix + "-" + digits;
    if digits == [] {
      assert s[|s| - 1] == '-';
    } else {
      var d := digits[..|digits| - 1];
      assert s[..|s| - 1] == prefix + "-" + d;
      AfterLastDashOfDigits(prefix, d);
      assert digits == d + [digits[|digits| - 1]];
    }
  }

  /** Card keys are unique: the position is recovered after the last '-', and
      the id before it. So cards at different positions get different keys,
      even for the same game repeated across pages. */
  lemma CardKeyInjective(g1: Game, i: nat, g2: Game, j: nat)
    ensures CardKey(g1, i) == CardKey(g2, j) ==> i == j && g1.id == g2.id
  {
    var a, b := NatToString(i), NatToString(j);
    AfterLastDashOfDigits(IntToString(g1.id), a);
    AfterLastDashOfDigits(IntToString(g2.id), b);
    if CardKey(g1, i) == CardKey(g2, j) {
      NatToStringInjective(i, j);
      var k := CardKey(g1, i);
      assert IntToString(g1.id) == k[..|k| - |a| - 1] == IntToString(g2.id);
      IntToStringInjective(g1.id, g2.id);
    }
  }

  /** What the page body shows. Every screen past the key check carries the
      error banner flag, since the banner sits above whichever of them renders. */
  datatype ListScreen =
    | ApiKeyRequired
    | Skeletons(errorBanner: bool)
    | NoGames(forSearch: bool, errorBanner: bool)
    | Grid(cardKeys: seq<string>, loadingMore: bool, endCount: Option<nat>, errorBanner: bool)

  /** The render decisions: the key check first; past it, the error banner
      whenever the active query has an error, and below it loading, then an
      empty list, then the grid with the loading-more row and the end-of-list
      count. */
  function Render(keyAvailable: bool, hasError: bool, isLoading: bool, isFetchingNextPage: bool, hasNextPage: bool,
                  games: seq<Game>, searchQuery: string): (r: ListScreen)
    ensures r == ApiKeyRequired <==> !keyAvailable
    ensures !r.ApiKeyRequired? ==> (r.errorBanner <==> hasError)
    ensures r.Skeletons? <==> keyAvailable && isLoading
    ensures r.NoGames? <==> keyAvailable && !isLoading && games == []
    ensures r.NoGames? ==> r.forSearch == (searchQuery != "")
    ensures r.Grid? <==> keyAvailable && !isLoading && games != []
    ensures r.Grid? ==> |r.cardKeys| == |games| && r.loadingMore == isFetchingNextPage
    ensures r.Grid? ==> forall i :: 0 <= i < |games| ==> r.cardKeys[i] == CardKey(games[i], i)
    ensures r.Grid? ==> forall i, j :: 0 <= i < j < |r.cardKeys| ==> r.cardKeys[i] != r.cardKeys[j]
    ensures r.Grid? ==> (r.endCount.Some? <==> !hasNextPage)
    ensures r.Grid? && r.endCount.Some? ==> r.endCount.value == |games|
  {
    if !keyAvailable then ApiKeyRequired
    else if isLoading then Skeletons(hasError)
    else if |games| == 0 then NoGames(Truthy(Str(searchQuery)), hasError)
    else
      var keys := seq(|games|, i requires 0 <= i < |games| => CardKey(games[i], i));
      assert forall i, j :: 0 <= i < j < |keys| ==> keys[i] != keys[j] by {
        forall i, j | 0 <= i < j < |keys| ensures keys[i] != keys[j] {
          CardKeyInjective(games[i], i, games[j], j);
        }
      }
      var showEnd := !hasNextPage && |games| > 0;
      Grid(keys, isFetchingNextPage, if showEnd then Some(|games|) else None, hasError)
  }

  /** Maximum number of platform buttons in the filter. */
  const MaxPlatformButtons: nat := 10

  /** The platform filter: absent until the platform list loads, then its
      first ten platforms in order. */
  function PlatformFilter(platforms: Option<seq<Ref>>): (r: Option<seq<Ref>>)
    ensures r.Some? <==> platforms.Some?
    ensures r.Some? ==> |r.value| <= MaxPlatformButtons && |r.value| <= |platforms.value|
    ensures r.Some? ==> forall i :: 0 <= i < |r.value| ==> r.value[i] == platforms.value[i]
    ensures r.Some? && |platforms.value| >= MaxPlatformButtons ==> |r.value| == MaxPlatformButtons
  {
    match platforms
    case None => None
    case Some(ps) => Some(Take(ps, MaxPlatformButtons))
  }
}
