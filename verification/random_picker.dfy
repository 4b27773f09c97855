/** The random-pick reel (components/RandomPicker.tsx): the pool of games the
    reel scrolls through, and the picker's state machine (spin, the delayed
    reveal, reset). Every `Math.random()` call is an injected draw in [0, 1);
    the timer that fires the reveal is an explicit event. */
module RandomPicker {
  import opened JsCore
  import opened GameTypes
  import opened GameStore

  /** Number of slots in the reel. */
  const TotalItems: nat := 50

  /** The slot the winning game is forced into: `Math.floor(totalItems / 2)`. */
  const CenterIndex: nat := TotalItems / 2

  /** Number of random draws a pool consumes: one per slot except the centre. */
  const FillerDraws: nat := TotalItems - 1

  /** Every draw is a value `Math.random()` can return. */
  predicate ValidDraws(draws: seq<real>) {
    forall k :: 0 <= k < |draws| ==> 0.0 <= draws[k] < 1.0
  }

  /** The draw that fills slot `i`: draws are consumed in slot order, and the
      centre slot consumes none. */
  function DrawFor(i: nat): (k: nat)
    requires i < TotalItems && i != CenterIndex
    ensures k < FillerDraws
  {
    if i < CenterIndex then i else i - 1
  }

  /** Different slots consume different draws, so filler slots are independent. */
  lemma DrawForInjective(i: nat, j: nat)
    requires i < TotalItems && i != CenterIndex
    requires j < TotalItems && j != CenterIndex
    ensures DrawFor(i) == DrawFor(j) ==> i == j
  {
  }

  /** `createSpinningPool(winningGame)` as a value: empty for an empty
      wishlist, otherwise 50 slots, the centre holding the winner and every
      other slot the saved game its draw selects. */
  function SpinningPool(saved: seq<Game>, winner: Game, draws: seq<real>): (pool: seq<Game>)
    requires ValidDraws(draws) && |draws| == FillerDraws
    ensures saved == [] ==> pool == []
    ensures saved != [] ==> |pool| == TotalItems && pool[CenterIndex] == winner
    ensures forall i :: 0 <= i < |pool| && i != CenterIndex ==> pool[i] in saved
  {
    if |saved| == 0 then []
    else
      seq(TotalItems, i requires 0 <= i < TotalItems =>
        if i == CenterIndex then winner else saved[RandomIndex(draws[DrawFor(i)], |saved|)])
  }

  /** The reel-building loop itself: one `Math.random()` per non-centre slot,
      taken from `draws` in order. */
  method CreateSpinningPool(saved: seq<Game>, winner: Game, draws: seq<real>) returns (pool: seq<Game>)
    requires ValidDraws(draws) && |draws| == FillerDraws
    ensures pool == SpinningPool(saved, winner, draws)
    ensures saved != [] ==> |pool| == TotalItems && pool[CenterIndex] == winner
  {
    if |saved| == 0 {
      return [];
    }
    pool := [];
    var used := 0;
    var i := 0;
    while i < TotalItems
      invariant 0 <= i <= TotalItems
      invariant used == if i <= CenterIndex then i else i - 1
      invariant |pool| == i
      invariant forall j :: 0 <= j < i ==> pool[j] == SpinningPool(saved, winner, draws)[j]
    {
      if i == CenterIndex {
        pool := pool + [winner];
      } else {
        var g := saved[RandomIndex(draws[used], |saved|)];
        used := used + 1;
        pool := pool + [g];
      }
      i := i + 1;
    }
  }

  /** The slot the reel animation lands on: `Math.floor(pool.length / 2)`. */
  function LandingIndex(pool: seq<Game>): nat {
    |pool| / 2
  }

  /** The picker component's state; `pendingReveal` is the game captured by
      the scheduled reveal timeout, if one is outstanding. */
  datatype PickerState = PickerState(
    isSpinning: bool,
    selectedGame: Option<Game>,
    spinningGames: seq<Game>,
    showResult: bool,
    pendingReveal: Option<Game>
  )

  /** The state after mounting (the mount effect resets the picker). */
  const InitialState := PickerState(false, None, [], false, None)

  /** `handleSpin()`: ignored on an empty wishlist or while spinning; otherwise
      starts spinning, hides and clears the result, draws the winner once and
      builds the reel around it, and schedules the reveal of that winner. */
  function HandleSpin(st: PickerState, saved: seq<Game>, winnerDraw: real, draws: seq<real>): (r: PickerState)
    requires 0.0 <= winnerDraw < 1.0
    requires ValidDraws(draws) && |draws| == FillerDraws
    ensures saved == [] || st.isSpinning ==> r == st
    ensures saved != [] && !st.isSpinning ==>
              && r.isSpinning && !r.showResult && r.selectedGame.None?
              && r.pendingReveal.Some? && r.pendingReveal.value in saved
              && r.pendingReveal == GetRandomGame(saved, winnerDraw)
              && |r.spinningGames| == TotalItems
              && r.spinningGames[LandingIndex(r.spinningGames)] == r.pendingReveal.value
              && forall i :: 0 <= i < TotalItems ==> r.spinningGames[i] in saved
  {
    if |saved| == 0 || st.isSpinning then st
    else
      var finalGame := GetRandomGame(saved, winnerDraw);
      var pool := SpinningPool(saved, finalGame.value, draws);
      PickerState(true, None, pool, false, finalGame)
  }

  /** The reveal timeout firing: selects the captured winner, shows it and
      stops spinning. The reel is left as it is. */
  function Reveal(st: PickerState): (r: PickerState)
    ensures st.pendingReveal.None? ==> r == st
    ensures st.pendingReveal.Some? ==>
              && r.selectedGame == st.pendingReveal
              && r.showResult && !r.isSpinning && r.pendingReveal.None?
              && r.spinningGames == st.spinningGames
  {
    match st.pendingReveal
    case None => st
    case Some(w) => PickerState(false, Some(w), st.spinningGames, true, None)
  }

  /** `resetPicker()`: clears the selection, the result flag and the reel;
      a spin in progress keeps spinning and is still revealed. */
  function ResetPicker(st: PickerState): (r: PickerState)
    ensures r.selectedGame.None? && !r.showResult && r.spinningGames == []
    ensures r.isSpinning == st.isSpinning && r.pendingReveal == st.pendingReveal
  {
    st.(selectedGame := None, showResult := false, spinningGames := [])
  }

  /** A spin followed by its reveal shows exactly the game the reel lands on. */
  lemma RevealShowsLandingSlot(st: PickerState, saved: seq<Game>, winnerDraw: real, draws: seq<real>)
    requires 0.0 <= winnerDraw < 1.0
    requires ValidDraws(draws) && |draws| == FillerDraws
    requires saved != [] && !st.isSpinning
    ensures var spun := HandleSpin(st, saved, winnerDraw, draws);
            var shown := Reveal(spun);
            && shown.selectedGame == Some(spun.spinningGames[LandingIndex(spun.spinningGames)])
            && shown.selectedGame == GetRandomGame(saved, winnerDraw)
            && shown.showResult && !shown.isSpinning
  {
  }

  /** The winner shown does not depend on the filler draws. */
  lemma WinnerIndependentOfFiller(saved: seq<Game>, winnerDraw: real, draws1: seq<real>, draws2: seq<real>)
    requires 0.0 <= winnerDraw < 1.0
    requires ValidDraws(draws1) && |draws1| == FillerDraws
    requires ValidDraws(draws2) && |draws2| == FillerDraws
    requires saved != []
    ensures Reveal(HandleSpin(InitialState, saved, winnerDraw, draws1)).selectedGame
         == Reveal(HandleSpin(InitialState, saved, winnerDraw, draws2)).selectedGame
  {
  }

  /** Resetting is idempotent. */
  lemma ResetIdempotent(st: PickerState)
    ensures ResetPicker(ResetPicker(st)) == ResetPicker(st)
  {
  }
}
