/** The game page (components/GameDetailsPage.tsx): which view it renders,
    the pieces of the loaded view that involve a decision (release date,
    score slot, screenshot grid, tags), and the page's interactive state: the
    wishlist heart and the screenshot lightbox it opens. */
module GameDetailsPage {
  import opened JsCore
  import opened GameTypes
  import opened GameStore
  import opened GameCard
  import opened ImageLightbox

  /** The three views of the page. */
  datatype DetailsView = LoadingView | NotFoundView | LoadedView(game: Game)

  /** The early returns: loading first, then an error or a missing game. */
  function ViewFor(isLoading: bool, error: bool, game: Option<Game>): (v: DetailsView)
    ensures v.LoadingView? <==> isLoading
    ensures v.NotFoundView? <==> !isLoading && (error || game.None?)
    ensures v.LoadedView? ==> game == Some(v.game) && !error
  {
    if isLoading then LoadingView
    else if error || game.None? then NotFoundView
    else LoadedView(game.value)
  }

  /** The release date as shown; the locale formatting itself is not modelled,
      so a present date carries its raw text. */
  datatype DateText = TBA | Formatted(raw: string)

  /** `formatDate(released)`: "TBA" for `null` and for the empty string. */
  function FormatDate(released: Option<string>): (d: DateText)
    ensures d == TBA <==> released.None? || released.value == ""
    ensures d.Formatted? ==> released == Some(d.raw)
  {
    if !Truthy(OptStr(released)) then TBA else Formatted(released.value)
  }

  /** `screenshotsData?.results || []`: no data means no screenshots. */
  function ScreenshotsOf(data: Option<seq<Screenshot>>): (shots: seq<Screenshot>)
    ensures data.None? ==> shots == []
    ensures data.Some? ==> shots == data.value
  {
    match data
    case None => []
    case Some(results) => results
  }

  /** Screenshot grid limit. */
  const MaxShownScreenshots: nat := 6

  /** Tag list limit. */
  const MaxShownTags: nat := 10

  /** The screenshots the grid shows: the first six. */
  function ShownScreenshots(shots: seq<Screenshot>): (shown: seq<Screenshot>)
    ensures |shown| <= MaxShownScreenshots && |shown| <= |shots| && shown == shots[..|shown|]
    ensures |shown| == if |shots| < MaxShownScreenshots then |shots| else MaxShownScreenshots
  {
    Take(shots, MaxShownScreenshots)
  }

  /** The screenshot section: absent without screenshots; otherwise the grid
      and, when some are hidden, the "Showing 6 of N" note carrying N. */
  datatype ScreenshotSection = ScreenshotSection(shown: seq<Screenshot>, overflowTotal: Option<nat>)

  function ScreenshotSectionFor(shots: seq<Screenshot>): (r: Option<ScreenshotSection>)
    ensures r.Some? <==> |shots| > 0
    ensures r.Some? ==> r.value.shown == ShownScreenshots(shots)
    ensures r.Some? ==> (r.value.overflowTotal.Some? <==> |shots| > MaxShownScreenshots)
    ensures r.Some? && r.value.overflowTotal.Some? ==>
              r.value.overflowTotal.value == |shots| > |r.value.shown| == MaxShownScreenshots
  {
    if |shots| > 0 then
      Some(ScreenshotSection(ShownScreenshots(shots), if |shots| > MaxShownScreenshots then Some(|shots|) else None))
    else None
  }

  /** The tag section: absent when the game has no tags, else its first ten. */
  function TagSection(tags: seq<Ref>): (r: Option<seq<Ref>>)
    ensures r.Some? <==> |tags| > 0
    ensures r.Some? ==> 0 < |r.value| <= MaxShownTags && |r.value| <= |tags| && r.value == tags[..|r.value|]
    ensures r.Some? && |tags| >= MaxShownTags ==> |r.value| == MaxShownTags
  {
    if |tags| > 0 then Some(Take(tags, MaxShownTags)) else None
  }

  /** The decisions of the loaded view. The hero's score slot is the same
      expression as the card's. */
  datatype LoadedPage = LoadedPage(
    date: DateText,
    score: ScoreSlot,
    screenshots: Option<ScreenshotSection>,
    tags: Option<seq<Ref>>,
    lightboxMounted: bool
  )

  /** The loaded view as written, with the card's score expression in the hero. */
  function LoadedPageFor(game: Game, shots: seq<Screenshot>): (p: LoadedPage)
    ensures p.date == FormatDate(game.released) && p.score == MetacriticSlot(game.metacritic)
    ensures p.lightboxMounted <==> p.screenshots.Some?
    ensures p.lightboxMounted <==> |shots| > 0
    ensures p.tags.Some? <==> |game.tags| > 0
  {
    LoadedPage(FormatDate(game.released), MetacriticSlot(game.metacritic),
               ScreenshotSectionFor(shots), TagSection(game.tags), |shots| > 0)
  }

  /** A game scored 0 shows a stray "0" in the hero, as on the card. */
  lemma HeroZeroScoreShowsBareZero(game: Game, shots: seq<Screenshot>)
    requires game.metacritic == Some(0)
    ensures LoadedPageFor(game, shots).score == BareText("0")
  {
  }

  /** The loaded view with the corrected score slot; every other decision is unchanged. */
  function LoadedPageForIntended(game: Game, shots: seq<Screenshot>): (p: LoadedPage)
    ensures !p.score.BareText?
    ensures p.score.NoScore? <==> game.metacritic.None? || game.metacritic.value == 0
    ensures p == LoadedPageFor(game, shots).(score := p.score)
    ensures game.metacritic != Some(0) ==> p == LoadedPageFor(game, shots)
  {
    LoadedPageFor(game, shots).(score := MetacriticSlotIntended(game.metacritic))
  }

  // ---------------------------------------------------------------------------
  // Interaction: the heart and the lightbox

  /** The loaded page's interactive state: the wishlist, the page's
      `lightboxOpen` / `lightboxIndex`, and the state of the mounted lightbox. */
  datatype PageState = PageState(saved: seq<Game>, lightboxOpen: bool, lightboxIndex: int, lightbox: LightboxState)

  /** The page as loaded: lightbox closed, index 0, the lightbox mounted with it. */
  function Loaded(saved: seq<Game>): (st: PageState)
    ensures st.saved == saved && !st.lightboxOpen
    ensures st.lightbox.activeIndex == st.lightboxIndex == 0
  {
    PageState(saved, false, 0, Mount(0))
  }

  datatype PageEvent =
    | HeartClicked
    | ScreenshotClicked(index: int)  // a screenshot of the grid
    | LightboxKey(key: string)       // a key press reaching the lightbox
    | LightboxClosed                 // its close button or backdrop
    | LightboxClick(control: Control) // one of its other controls

  /** A screenshot click, as written: `openLightbox(index)` sets the page's index
      and opens; the lightbox only follows when the index prop changed. */
  function OpenLightbox(st: PageState, index: int): (r: PageState)
    ensures r.lightboxOpen && r.lightboxIndex == index && r.saved == st.saved
    ensures index != st.lightboxIndex ==> r.lightbox.activeIndex == index
    ensures index == st.lightboxIndex ==> r.lightbox == st.lightbox
  {
    PageState(st.saved, true, index, Resync(st.lightbox, st.lightboxIndex, index))
  }

  /** A key press: the lightbox's handler, and closing on Escape. */
  function LightboxKeyPressed(st: PageState, shots: seq<Screenshot>, key: string): (r: PageState)
    ensures r.saved == st.saved && r.lightboxIndex == st.lightboxIndex
    ensures r.lightboxOpen <==> st.lightboxOpen && key != "Escape"
    ensures !st.lightboxOpen ==> r == st
  {
    var out := HandleKeyDown(st.lightboxOpen, |shots|, key, st.lightbox);
    st.(lightbox := out.state, lightboxOpen := st.lightboxOpen && !out.closeRequested)
  }

  /** A click on one of the lightbox's controls: it renders nothing while
      closed, so only an open lightbox reacts. */
  function LightboxClicked(st: PageState, shots: seq<Screenshot>, c: Control): (r: PageState)
    ensures r.saved == st.saved && r.lightboxOpen == st.lightboxOpen && r.lightboxIndex == st.lightboxIndex
    ensures st.lightboxOpen ==> r.lightbox == HandleClick(|shots|, c, st.lightbox)
    ensures !st.lightboxOpen ==> r == st
  {
    if st.lightboxOpen then st.(lightbox := HandleClick(|shots|, c, st.lightbox)) else st
  }

  /** The events that do not involve opening the lightbox. */
  function OtherEvent(st: PageState, game: Game, shots: seq<Screenshot>, e: PageEvent): (r: PageState)
    requires !e.ScreenshotClicked?
    ensures e.HeartClicked? ==> r == st.(saved := HandleToggleWishlist(st.saved, game))
    ensures e.LightboxClosed? ==> r == st.(lightboxOpen := false)
    ensures e.LightboxKey? ==> r == LightboxKeyPressed(st, shots, e.key)
    ensures e.LightboxClick? ==> r == LightboxClicked(st, shots, e.control)
  {
    match e
    case HeartClicked => st.(saved := HandleToggleWishlist(st.saved, game))
    case LightboxKey(k) => LightboxKeyPressed(st, shots, k)
    case LightboxClosed => st.(lightboxOpen := false)
    case LightboxClick(c) => LightboxClicked(st, shots, c)
  }

  /** One event on the loaded page, as written. A click outside the grid's
      screenshots cannot happen and changes nothing. */
  function Step(st: PageState, game: Game, shots: seq<Screenshot>, e: PageEvent): (r: PageState)
    ensures e.ScreenshotClicked? && 0 <= e.index < |ShownScreenshots(shots)| ==> r == OpenLightbox(st, e.index)
    ensures e.ScreenshotClicked? && !(0 <= e.index < |ShownScreenshots(shots)|) ==> r == st
  {
    match e
    case ScreenshotClicked(i) => if 0 <= i < |ShownScreenshots(shots)| then OpenLightbox(st, i) else st
    case _ => OtherEvent(st, game, shots, e)
  }

  /** Applies events in order. */
  function Run(st: PageState, game: Game, shots: seq<Screenshot>, events: seq<PageEvent>): PageState
    decreases |events|
  {
    if events == [] then st else Run(Step(st, game, shots, events[0]), game, shots, events[1..])
  }

  /** Reopening the screenshot last opened, after browsing in the lightbox,
      shows the image browsed to rather than the one clicked. */
  lemma ReopenShowsStaleImage(saved: seq<Game>, game: Game, shots: seq<Screenshot>)
    requires |shots| == 5
    ensures var events := [ScreenshotClicked(2), LightboxKey("ArrowRight"), LightboxClosed, ScreenshotClicked(2)];
            var st := Run(Loaded(saved), game, shots, events);
            st.lightboxOpen && st.lightbox.activeIndex == 3
  {
    var s0 := Loaded(saved);
    var s1 := Step(s0, game, shots, ScreenshotClicked(2));
    assert s1.lightbox.activeIndex == 2;
    var s2 := Step(s1, game, shots, LightboxKey("ArrowRight"));
    assert s2.lightbox.activeIndex == 3;
    var s3 := Step(s2, game, shots, LightboxClosed);
    var s4 := Step(s3, game, shots, ScreenshotClicked(2));
    assert s4.lightbox.activeIndex == 3;
    var events := [ScreenshotClicked(2), LightboxKey("ArrowRight"), LightboxClosed, ScreenshotClicked(2)];
    assert events[1..][1..][1..][1..] == [];
    assert Run(s4, game, shots, []) == s4;
  }

  /** The same happens after choosing a thumbnail in the lightbox: reopening
      the screenshot last clicked shows the thumbnail chosen. */
  lemma ThumbnailReopenShowsStaleImage(saved: seq<Game>, game: Game, shots: seq<Screenshot>)
    requires |shots| == 5
    ensures var events := [ScreenshotClicked(2), LightboxClick(Thumbnail(4)), LightboxClosed, ScreenshotClicked(2)];
            var st := Run(Loaded(saved), game, shots, events);
            st.lightboxOpen && st.lightbox.activeIndex == 4
  {
    var s0 := Loaded(saved);
    var s1 := Step(s0, game, shots, ScreenshotClicked(2));
    assert s1.lightbox.activeIndex == 2;
    var s2 := Step(s1, game, shots, LightboxClick(Thumbnail(4)));
    assert s2.lightbox.activeIndex == 4;
    var s3 := Step(s2, game, shots, LightboxClosed);
    var s4 := Step(s3, game, shots, ScreenshotClicked(2));
    assert s4.lightbox.activeIndex == 4;
    var events := [ScreenshotClicked(2), LightboxClick(Thumbnail(4)), LightboxClosed, ScreenshotClicked(2)];
    assert events[1..][1..][1..][1..] == [];
    assert Run(s4, game, shots, []) == s4;
  }

  /** A screenshot click with the evident intent: the lightbox always shows
      the clicked image. */
  function OpenLightboxIntended(st: PageState, index: int): (r: PageState)
    ensures r.lightboxOpen && r.lightboxIndex == index && r.saved == st.saved
    ensures r.lightbox.activeIndex == index
    ensures index != st.lightboxIndex ==> r == OpenLightbox(st, index)
  {
    PageState(st.saved, true, index, st.lightbox.(activeIndex := index))
  }

  /** One event on the loaded page, with the corrected screenshot click. */
  function StepIntended(st: PageState, game: Game, shots: seq<Screenshot>, e: PageEvent): (r: PageState)
    ensures !e.ScreenshotClicked? ==> r == Step(st, game, shots, e)
    ensures e.ScreenshotClicked? && 0 <= e.index < |ShownScreenshots(shots)| ==>
              r.lightboxOpen && r.lightbox.activeIndex == e.index && e.index < |shots|
  {
    match e
    case ScreenshotClicked(i) => if 0 <= i < |ShownScreenshots(shots)| then OpenLightboxIntended(st, i) else st
    case _ => OtherEvent(st, game, shots, e)
  }

  /** The lightbox shows one of the screenshots. */
  ghost predicate ShowsAScreenshot(st: PageState, shots: seq<Screenshot>) {
    0 <= st.lightbox.activeIndex < |shots|
  }

  /** With the corrected click, every event keeps the lightbox on an existing
      screenshot, so `images[activeIndex]` is always defined. */
  lemma StepIntendedKeepsImage(st: PageState, game: Game, shots: seq<Screenshot>, e: PageEvent)
    requires ShowsAScreenshot(st, shots)
    ensures ShowsAScreenshot(StepIntended(st, game, shots, e), shots)
  {
    if e.LightboxKey? {
      var out := HandleKeyDown(st.lightboxOpen, |shots|, e.key, st.lightbox);
      assert out.state.activeIndex == st.lightbox.activeIndex
          || out.state.activeIndex == PrevIndex(|shots|, st.lightbox.activeIndex)
          || out.state.activeIndex == NextIndex(|shots|, st.lightbox.activeIndex);
    }
  }

  /** Whatever the user does, the lightbox of a page with screenshots shows one of them. */
  lemma {:induction false} RunIntendedKeepsImage(st: PageState, game: Game, shots: seq<Screenshot>, events: seq<PageEvent>)
    requires ShowsAScreenshot(st, shots)
    ensures ShowsAScreenshot(RunIntended(st, game, shots, events), shots)
    decreases |events|
  {
    if events != [] {
      StepIntendedKeepsImage(st, game, shots, events[0]);
      RunIntendedKeepsImage(StepIntended(st, game, shots, events[0]), game, shots, events[1..]);
    }
  }

  /** Applies events in order, with the corrected click. */
  function RunIntended(st: PageState, game: Game, shots: seq<Screenshot>, events: seq<PageEvent>): PageState
    decreases |events|
  {
    if events == [] then st else RunIntended(StepIntended(st, game, shots, events[0]), game, shots, events[1..])
  }

  /** The heart on the page toggles like the card's: two clicks restore whether the game is saved. */
  lemma HeartTwiceRestoresMembership(st: PageState, game: Game, shots: seq<Screenshot>)
    ensures var twice := StepIntended(StepIntended(st, game, shots, HeartClicked), game, shots, HeartClicked);
            IsGameSaved(twice.saved, game.id) == IsGameSaved(st.saved, game.id)
  {
    ToggleTwiceRestoresMembership(st.saved, game);
  }
}
