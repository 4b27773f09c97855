/** A catalog card (components/GameCard.tsx): the wishlist heart toggle, the
    Metacritic score slot and its colour band, the truncated genre and
    platform chips, and the link to the game's page. */
module GameCard {
  import opened JsCore
  import opened GameTypes
  import opened GameStore

  /** `handleToggleWishlist()`: removes the game when its id is saved, adds it otherwise. */
  function HandleToggleWishlist(saved: seq<Game>, game: Game): (r: seq<Game>)
    ensures IsGameSaved(saved, game.id) ==> r == RemoveGame(saved, game.id)
    ensures !IsGameSaved(saved, game.id) ==> r == AddGame(saved, game)
    ensures HasId(r, game.id) <==> !HasId(saved, game.id)
    ensures DistinctIds(saved) ==> DistinctIds(r)
  {
    if IsGameSaved(saved, game.id) then RemoveGame(saved, game.id) else AddGame(saved, game)
  }

  /** Two clicks on the heart restore whether the game is saved. */
  lemma ToggleTwiceRestoresMembership(saved: seq<Game>, game: Game)
    ensures var twice := HandleToggleWishlist(HandleToggleWishlist(saved, game), game);
            IsGameSaved(twice, game.id) == IsGameSaved(saved, game.id)
  {
  }

  /** Starting from an unsaved game, two clicks restore the wishlist exactly. */
  lemma ToggleTwiceFromUnsaved(saved: seq<Game>, game: Game)
    requires DistinctIds(saved) && !HasId(saved, game.id)
    ensures HandleToggleWishlist(HandleToggleWishlist(saved, game), game) == saved
  {
    RemoveUndoesAdd(saved, game);
  }

  /** The Metacritic colour band. */
  datatype Band = Green | Yellow | Red

  /** Green from 75, yellow from 50, red below. */
  function ScoreBand(score: int): (b: Band)
    ensures b == Green <==> score >= 75
    ensures b == Yellow <==> 50 <= score < 75
    ensures b == Red <==> score < 50
  {
    if score >= 75 then Green else if score >= 50 then Yellow else Red
  }

  /** Bands ordered from worst to best. */
  function BandRank(b: Band): nat {
    match b
    case Red => 0
    case Yellow => 1
    case Green => 2
  }

  /** A higher score never gets a worse band. */
  lemma ScoreBandMonotone(s: int, t: int)
    requires s <= t
    ensures BandRank(ScoreBand(s)) <= BandRank(ScoreBand(t))
  {
  }

  /** What the score slot renders. */
  datatype ScoreSlot =
    | NoScore                        // nothing
    | BareText(text: string)         // a falsy number rendered as text
    | Badge(band: Band, score: int)  // the coloured score badge

  /** `{game.metacritic && <badge/>}` as written: `null` renders nothing, but a
      score of 0 is a falsy number, which the renderer prints as the text "0". */
  function MetacriticSlot(metacritic: Option<int>): (r: ScoreSlot)
    ensures metacritic.None? ==> r == NoScore
    ensures metacritic == Some(0) ==> r == BareText("0")
    ensures metacritic.Some? && metacritic.value != 0 ==> r == Badge(ScoreBand(metacritic.value), metacritic.value)
  {
    var v := OptNum(metacritic);
    if Truthy(v) then Badge(ScoreBand(metacritic.value), metacritic.value)
    else if v.Num? then BareText(IntToString(v.n))
    else NoScore
  }

  /** A score of 0 puts a stray "0" on the card. */
  lemma ZeroScoreShowsBareZero()
    ensures MetacriticSlot(Some(0)) == BareText("0")
  {
  }

  /** The slot with the evident intent: no badge and no text for a missing or zero score. */
  function MetacriticSlotIntended(metacritic: Option<int>): (r: ScoreSlot)
    ensures !r.BareText?
    ensures r.NoScore? <==> metacritic.None? || metacritic.value == 0
    ensures r.Badge? ==> r == MetacriticSlot(metacritic)
  {
    match metacritic
    case Some(m) => if m != 0 then Badge(ScoreBand(m), m) else NoScore
    case None => NoScore
  }

  /** Card chip limits. */
  const MaxGenreChips: nat := 2
  const MaxPlatformChips: nat := 3

  /** The chips a card shows: the first two genres and the first three platforms. */
  datatype Chips = Chips(genres: seq<Ref>, platforms: seq<Ref>)

  function CardChips(g: Game): (c: Chips)
    ensures |c.genres| <= MaxGenreChips && |c.platforms| <= MaxPlatformChips
    ensures |c.genres| == if |g.genres| < MaxGenreChips then |g.genres| else MaxGenreChips
    ensures |c.platforms| == if |g.platforms| < MaxPlatformChips then |g.platforms| else MaxPlatformChips
    ensures c.genres == g.genres[..|c.genres|] && c.platforms == g.platforms[..|c.platforms|]
  {
    Chips(Take(g.genres, MaxGenreChips), Take(g.platforms, MaxPlatformChips))
  }

  /** The card's link target, `/game/{id}`. */
  function GameHref(id: int): (href: string)
    ensures |href| > |"/game/"| && href[..|"/game/"|] == "/game/"
    ensures href[|"/game/"|..] == IntToString(id)
  {
    "/game/" + IntToString(id)
  }

  /** Different games link to different pages. */
  lemma GameHrefInjective(a: int, b: int)
    ensures GameHref(a) == GameHref(b) ==> a == b
  {
    if GameHref(a) == GameHref(b) {
      assert IntToString(a) == GameHref(a)[|"/game/"|..];
      assert IntToString(b) == GameHref(b)[|"/game/"|..];
      IntToStringInjective(a, b);
    }
  }
}
