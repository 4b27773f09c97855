/** The full-screen screenshot viewer (components/ImageLightbox.tsx): a cyclic
    index over the `n` images, a zoom flag, the keyboard dispatch that is
    active while the viewer is open, thumbnail selection, and the effect that
    re-syncs the index to the `currentIndex` prop. */
module ImageLightbox {
  /** The component's own state. */
  datatype LightboxState = LightboxState(activeIndex: int, isZoomed: bool)

  /** The state on mounting: `useState(currentIndex)` and no zoom. */
  function Mount(currentIndex: int): (s: LightboxState)
    ensures s.activeIndex == currentIndex && !s.isZoomed
  {
    LightboxState(currentIndex, false)
  }

  /** The index `goToPrevious` moves to: the last image from the first one,
      otherwise one back. On a valid index this is a step back modulo `n`. */
  function PrevIndex(n: int, i: int): (j: int)
    ensures 0 <= i < n ==> 0 <= j < n && j == (i - 1) % n
  {
    if i == 0 then n - 1 else i - 1
  }

  /** The index `goToNext` moves to: the first image from the last one,
      otherwise one forward. On a valid index this is a step forward modulo `n`. */
  function NextIndex(n: int, i: int): (j: int)
    ensures 0 <= i < n ==> 0 <= j < n && j == (i + 1) % n
  {
    if i == n - 1 then 0 else i + 1
  }

  /** Forward and back undo each other on every valid index. */
  lemma PrevNextInverse(n: int, i: int)
    requires 0 <= i < n
    ensures PrevIndex(n, NextIndex(n, i)) == i
    ensures NextIndex(n, PrevIndex(n, i)) == i
  {
  }

  /** `goToPrevious()`: one image back, zoom off. */
  function GoToPrevious(n: int, s: LightboxState): (r: LightboxState)
    ensures r.activeIndex == PrevIndex(n, s.activeIndex) && !r.isZoomed
  {
    LightboxState(PrevIndex(n, s.activeIndex), false)
  }

  /** `goToNext()`: one image forward, zoom off. */
  function GoToNext(n: int, s: LightboxState): (r: LightboxState)
    ensures r.activeIndex == NextIndex(n, s.activeIndex) && !r.isZoomed
  {
    LightboxState(NextIndex(n, s.activeIndex), false)
  }

  /** `toggleZoom()`: flips the zoom flag and nothing else. */
  function ToggleZoom(s: LightboxState): (r: LightboxState)
    ensures r.isZoomed != s.isZoomed && r.activeIndex == s.activeIndex
  {
    s.(isZoomed := !s.isZoomed)
  }

  /** Toggling zoom twice restores the state. */
  lemma ToggleZoomTwice(s: LightboxState)
    ensures ToggleZoom(ToggleZoom(s)) == s
  {
  }

  /** A thumbnail click: show that image, zoom off. */
  function SelectThumbnail(s: LightboxState, index: int): (r: LightboxState)
    ensures r.activeIndex == index && !r.isZoomed
  {
    LightboxState(index, false)
  }

  /** The effect on `[currentIndex]`: when the prop changes, the active image
      follows it; the zoom flag is untouched. An unchanged prop does nothing. */
  function Resync(s: LightboxState, oldProp: int, newProp: int): (r: LightboxState)
    ensures oldProp == newProp ==> r == s
    ensures oldProp != newProp ==> r.activeIndex == newProp && r.isZoomed == s.isZoomed
  {
    if newProp != oldProp then s.(activeIndex := newProp) else s
  }

  /** The viewer's own controls, other than closing (its close button and the
      backdrop call `onClose`). */
  datatype Control =
    | PrevButton          // the left chevron
    | NextButton          // the right chevron
    | ZoomButton          // the zoom button in the corner
    | ImageClick          // a click on the image itself
    | Thumbnail(index: int)

  /** A click on a control of the open viewer over `n` images. The chevrons
      and the thumbnail strip are rendered only for more than one image, one
      thumbnail per image; a click on the image zooms in and does nothing
      once zoomed. */
  function HandleClick(n: int, c: Control, s: LightboxState): (r: LightboxState)
    ensures c.PrevButton? ==> r == (if n > 1 then GoToPrevious(n, s) else s)
    ensures c.NextButton? ==> r == (if n > 1 then GoToNext(n, s) else s)
    ensures c.ZoomButton? ==> r == ToggleZoom(s)
    ensures c.ImageClick? ==> r == s.(isZoomed := true)
    ensures c.Thumbnail? ==> r == (if n > 1 && 0 <= c.index < n then SelectThumbnail(s, c.index) else s)
    ensures 0 <= s.activeIndex < n ==> 0 <= r.activeIndex < n
  {
    match c
    case PrevButton => if n > 1 then GoToPrevious(n, s) else s
    case NextButton => if n > 1 then GoToNext(n, s) else s
    case ZoomButton => ToggleZoom(s)
    case ImageClick => if s.isZoomed then s else ToggleZoom(s)
    case Thumbnail(i) => if n > 1 && 0 <= i < n then SelectThumbnail(s, i) else s
  }

  /** Clicking the image twice is the same as clicking it once: it only zooms in. */
  lemma ImageClickIdempotent(n: int, s: LightboxState)
    ensures HandleClick(n, ImageClick, HandleClick(n, ImageClick, s)) == HandleClick(n, ImageClick, s)
  {
  }

  /** What a key press does: the new state, and whether `onClose` was called. */
  datatype KeyOutcome = KeyOutcome(state: LightboxState, closeRequested: bool)

  /** The keys the handler reacts to. */
  const HandledKeys: set<string> := {"Escape", "ArrowLeft", "ArrowRight", "z", "Z"}

  /** The `keydown` handler, registered only while the viewer is open. */
  function HandleKeyDown(isOpen: bool, n: int, key: string, s: LightboxState): (r: KeyOutcome)
    ensures !isOpen || key !in HandledKeys ==> r == KeyOutcome(s, false)
    ensures r.closeRequested <==> isOpen && key == "Escape"
    ensures isOpen && key == "Escape" ==> r.state == s
    ensures isOpen && key == "ArrowLeft" ==> r.state == GoToPrevious(n, s)
    ensures isOpen && key == "ArrowRight" ==> r.state == GoToNext(n, s)
    ensures isOpen && (key == "z" || key == "Z") ==> r.state == ToggleZoom(s)
  {
    if !isOpen then KeyOutcome(s, false)
    else if key == "Escape" then KeyOutcome(s, true)
    else if key == "ArrowLeft" then KeyOutcome(GoToPrevious(n, s), false)
    else if key == "ArrowRight" then KeyOutcome(GoToNext(n, s), false)
    else if key == "z" || key == "Z" then KeyOutcome(ToggleZoom(s), false)
    else KeyOutcome(s, false)
  }

  /** A run of key presses while open, ignoring close requests. */
  function HandleKeys(n: int, keys: seq<string>, s: LightboxState): LightboxState
    decreases |keys|
  {
    if keys == [] then s else HandleKeys(n, keys[1..], HandleKeyDown(true, n, keys[0], s).state)
  }

  /** However the keyboard is used, the shown image stays one of the `n` images. */
  lemma {:induction false} KeysKeepIndexInRange(n: int, keys: seq<string>, s: LightboxState)
    requires 0 <= s.activeIndex < n
    ensures 0 <= HandleKeys(n, keys, s).activeIndex < n
    decreases |keys|
  {
    if keys != [] {
      var t := HandleKeyDown(true, n, keys[0], s).state;
      assert 0 <= t.activeIndex < n;
      KeysKeepIndexInRange(n, keys[1..], t);
    }
  }

  /** The arrows are inverse: right then left returns to the same image, unzoomed. */
  lemma ArrowsCancel(n: int, s: LightboxState)
    requires 0 <= s.activeIndex < n
    ensures HandleKeys(n, ["ArrowRight", "ArrowLeft"], s) == LightboxState(s.activeIndex, false)
    ensures HandleKeys(n, ["ArrowLeft", "ArrowRight"], s) == LightboxState(s.activeIndex, false)
  {
    var r := ["ArrowRight", "ArrowLeft"];
    assert r[1..] == ["ArrowLeft"] && r[1..][1..] == [];
    var l := ["ArrowLeft", "ArrowRight"];
    assert l[1..] == ["ArrowRight"] && l[1..][1..] == [];
    PrevNextInverse(n, s.activeIndex);
  }
}
