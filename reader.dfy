/** The decisions of the reader view (js/reader.js): which tap zone a tap
    falls in, when a touch counts as a tap, which gesture handlers a
    display mode binds, how a wheel is remapped to horizontal scrolling,
    which chapter is current, the progress payload and how it is restored,
    the throttle of progress updates, paging by a viewport, and the
    settings form.

    The DOM is not modelled: the viewport's geometry is passed in as a
    `Viewport` value, a chapter's position as its offset from the top of
    the content, and the clock as a `now` argument. A scroll the code
    performs is returned as a value. */
module Reader {
  import opened Common

  // ---------------------------------------------------------------------
  // Tap zones

  const TapLeftRatio: real := 0.33
  const TapRightRatio: real := 0.66
  /** A touch that moves further than this on either axis is no tap. */
  const TapMoveThreshold: real := 12.0
  /** A click this soon after a touch end is the browser's echo of it. */
  const TapDedupMs: real := 450.0

  datatype TapAction = PageBack | PageForward | ToggleTopbar | NoAction

  /** `width || 1`: the element width used for tap bands and for the page
      width in progress reports, never zero so it can be divided by. */
  function WidthOr1(width: real): (w: real)
    ensures w != 0.0
    ensures width != 0.0 ==> w == width
    ensures width == 0.0 ==> w == 1.0
  {
    if width != 0.0 then width else 1.0
  }

  /** `handleTapAtClientX` of `bindPageTap`, for a tap `x` pixels from
      the content's left edge: every tap does something. */
  function ClassifyPageTap(x: real, width: real): (a: TapAction)
    ensures a != NoAction
    ensures a == PageBack <==> x < WidthOr1(width) * TapLeftRatio
    ensures a == PageForward <==> !(x < WidthOr1(width) * TapLeftRatio) && x > WidthOr1(width) * TapRightRatio
    ensures a == ToggleTopbar <==>
              WidthOr1(width) * TapLeftRatio <= x <= WidthOr1(width) * TapRightRatio
  {
    var w := WidthOr1(width);
    if x < w * TapLeftRatio then PageBack
    else if x > w * TapRightRatio then PageForward
    else ToggleTopbar
  }

  /** `handleTapAtClientX` of `bindCenterTapOnly`: only the middle band
      does anything, and it never pages. */
  function ClassifyCenterTap(x: real, width: real): (a: TapAction)
    ensures a == ToggleTopbar || a == NoAction
    ensures a == ToggleTopbar <==>
              WidthOr1(width) * TapLeftRatio <= x <= WidthOr1(width) * TapRightRatio
  {
    var w := WidthOr1(width);
    if w * TapLeftRatio <= x <= w * TapRightRatio then ToggleTopbar else NoAction
  }

  /** On a content of positive width the three bands are the left third
      (back), the right third (forward) and the middle (top bar), and the
      centre-only handler toggles the top bar exactly where the paging
      handler does. */
  lemma TapBands(x: real, width: real)
    requires width > 0.0
    ensures ClassifyPageTap(x, width) == PageBack <==> x < width * TapLeftRatio
    ensures ClassifyPageTap(x, width) == PageForward <==> x > width * TapRightRatio
    ensures ClassifyCenterTap(x, width) == ToggleTopbar <==> ClassifyPageTap(x, width) == ToggleTopbar
    ensures ClassifyCenterTap(x, width) != ToggleTopbar ==> ClassifyCenterTap(x, width) == NoAction
  {
    assert width * TapLeftRatio < width * TapRightRatio;
  }

  /** Which tap handler set a display mode binds; a paging binding keeps
      the mode it was bound for. */
  datatype TapBinding = PageTap(mode: string) | CenterTapOnly

  /** What a tap does: the action, and whether the page-turn effect is
      triggered along with it. */
  datatype TapResult = TapResult(action: TapAction, pageEffect: bool)

  const NoTap := TapResult(NoAction, false)

  /** The handler of a binding applied to a tap: the page effect goes
      with a page turn in paged mode only. */
  function TapResultOf(binding: TapBinding, x: real, width: real): (r: TapResult)
    ensures r.pageEffect <==>
              binding.PageTap? && binding.mode == "paged" && r.action in {PageBack, PageForward}
    ensures binding.CenterTapOnly? ==> r.action != PageBack && r.action != PageForward
  {
    match binding
    case PageTap(mode) =>
      var a := ClassifyPageTap(x, width);
      TapResult(a, mode == "paged" && a != ToggleTopbar)
    case CenterTapOnly =>
      TapResult(ClassifyCenterTap(x, width), false)
  }

  /** The closure state of one `bindPageTap` or `bindCenterTapOnly`
      call: where the current touch started, whether it has moved too far
      to be a tap, and when the last touch ended. */
  class TapTracker {
    const binding: TapBinding
    var startX: real
    var startY: real
    var moved: bool
    var lastTouchTs: real

    constructor (binding: TapBinding)
      ensures this.binding == binding
      ensures startX == 0.0 && startY == 0.0 && !moved && lastTouchTs == 0.0
    {
      this.binding := binding;
      startX, startY, moved, lastTouchTs := 0.0, 0.0, false, 0.0;
    }

    /** `touchstart`: a touch with a point starts afresh. */
    method TouchStart(touches: seq<TouchPoint>)
      modifies this
      ensures lastTouchTs == old(lastTouchTs)
      ensures touches == [] ==> startX == old(startX) && startY == old(startY) && moved == old(moved)
      ensures touches != [] ==>
                startX == touches[0].clientX && startY == touches[0].clientY && !moved
    {
      if |touches| == 0 {
        return;
      }
      startX := touches[0].clientX;
      startY := touches[0].clientY;
      moved := false;
    }

    /** `touchmove`: once the touch strays more than the threshold on
        either axis it stays moved. */
    method TouchMove(touches: seq<TouchPoint>)
      modifies this
      ensures startX == old(startX) && startY == old(startY) && lastTouchTs == old(lastTouchTs)
      ensures moved <==>
                old(moved)
                || (touches != []
                    && (Abs(touches[0].clientX - startX) > TapMoveThreshold
                        || Abs(touches[0].clientY - startY) > TapMoveThreshold))
    {
      if |touches| == 0 {
        return;
      }
      var dx := Abs(touches[0].clientX - startX);
      var dy := Abs(touches[0].clientY - startY);
      if dx > TapMoveThreshold || dy > TapMoveThreshold {
        moved := true;
      }
    }

    /** `touchend` at time `now`: the time is stamped even when the touch
        moved, so the click that follows is suppressed either way. */
    method TouchEnd(changedTouches: seq<TouchPoint>, now: real, rectLeft: real, rectWidth: real)
      returns (r: TapResult)
      modifies this
      ensures lastTouchTs == now
      ensures startX == old(startX) && startY == old(startY) && moved == old(moved)
      ensures moved || changedTouches == [] ==> r == NoTap
      ensures !moved && changedTouches != [] ==>
                r == TapResultOf(binding, changedTouches[0].clientX - rectLeft, rectWidth)
    {
      lastTouchTs := now;
      if moved {
        return NoTap;
      }
      if |changedTouches| == 0 {
        return NoTap;
      }
      r := TapResultOf(binding, changedTouches[0].clientX - rectLeft, rectWidth);
    }

    /** `click` at time `now`: ignored within `TapDedupMs` of the last
        touch end. */
    method Click(clientX: real, now: real, rectLeft: real, rectWidth: real) returns (r: TapResult)
      ensures now - lastTouchTs < TapDedupMs ==> r == NoTap
      ensures now - lastTouchTs >= TapDedupMs ==> r == TapResultOf(binding, clientX - rectLeft, rectWidth)
    {
      if now - lastTouchTs < TapDedupMs {
        return NoTap;
      }
      r := TapResultOf(binding, clientX - rectLeft, rectWidth);
    }
  }

  // ---------------------------------------------------------------------
  // Scrolling

  /** The viewport's scroll position and size, and the range the browser
      lets each scroll position take: `scrollLeft` within
      [`minLeft`, `maxLeft`] (the bounds depend on the writing direction)
      and `scrollTop` within [0, `maxTop`]. */
  datatype Viewport = Viewport(scrollLeft: real, scrollTop: real, clientWidth: real, clientHeight: real,
                               minLeft: real, maxLeft: real, maxTop: real)

  /** A `scrollTo` call, by the axis it sets. */
  datatype ScrollRequest = ScrollToTop(top: real) | ScrollToLeft(left: real)

  /** The module-level `pageBy`: a page is a viewport height in vertical
      scrolling and a viewport width otherwise. */
  function PageBy(mode: string, deltaPages: int, vp: Viewport): (r: ScrollRequest)
    ensures mode == "scrollY" <==> r.ScrollToTop?
    ensures r.ScrollToTop? ==> r.top == vp.scrollTop + deltaPages as real * vp.clientHeight
    ensures r.ScrollToLeft? ==> r.left == vp.scrollLeft + deltaPages as real * vp.clientWidth
  {
    if mode == "scrollY" then ScrollToTop(vp.scrollTop + deltaPages as real * vp.clientHeight)
    else ScrollToLeft(vp.scrollLeft + deltaPages as real * vp.clientWidth)
  }

  /** `x` brought into [`lo`, `hi`], as the browser does with a scroll
      target. */
  function Clamp(x: real, lo: real, hi: real): (r: real)
    requires lo <= hi
    ensures lo <= r <= hi
    ensures lo <= x <= hi ==> r == x
    ensures x < lo ==> r == lo
    ensures x > hi ==> r == hi
  {
    if x < lo then lo else if x > hi then hi else x
  }

  predicate WellFormed(vp: Viewport)
  {
    vp.minLeft <= vp.maxLeft && 0.0 <= vp.maxTop
  }

  /** Where a scroll request leaves the viewport: the target clamped to
      the scroll range. */
  function Scrolled(vp: Viewport, r: ScrollRequest): (v: Viewport)
    requires WellFormed(vp)
    ensures WellFormed(v)
  {
    match r
    case ScrollToTop(top) => vp.(scrollTop := Clamp(top, 0.0, vp.maxTop))
    case ScrollToLeft(left) => vp.(scrollLeft := Clamp(left, vp.minLeft, vp.maxLeft))
  }

  /** Paging forward and then back by the same amount returns to the
      starting position, along the axis of the mode only, when the
      position and the first target both lie in the scroll range. */
  lemma PageByThereAndBack(mode: string, deltaPages: int, vp: Viewport)
    requires WellFormed(vp)
    requires mode == "scrollY" ==>
               0.0 <= vp.scrollTop <= vp.maxTop
               && 0.0 <= vp.scrollTop + deltaPages as real * vp.clientHeight <= vp.maxTop
    requires mode != "scrollY" ==>
               vp.minLeft <= vp.scrollLeft <= vp.maxLeft
               && vp.minLeft <= vp.scrollLeft + deltaPages as real * vp.clientWidth <= vp.maxLeft
    ensures var there := Scrolled(vp, PageBy(mode, deltaPages, vp));
            && Scrolled(there, PageBy(mode, -deltaPages, there)) == vp
            && (mode == "scrollY" ==> there.scrollLeft == vp.scrollLeft)
            && (mode != "scrollY" ==> there.scrollTop == vp.scrollTop)
  {
    var there := Scrolled(vp, PageBy(mode, deltaPages, vp));
    if mode == "scrollY" {
      assert there.scrollTop == vp.scrollTop + deltaPages as real * vp.clientHeight;
      assert there.scrollTop + (-deltaPages) as real * vp.clientHeight == vp.scrollTop;
    } else {
      assert there.scrollLeft == vp.scrollLeft + deltaPages as real * vp.clientWidth;
      assert there.scrollLeft + (-deltaPages) as real * vp.clientWidth == vp.scrollLeft;
    }
  }

  /** At the end of the scroll range, paging further changes nothing, so
      paging back afterwards does not return to the page before. */
  lemma PageByAtEnd(mode: string, deltaPages: int, vp: Viewport)
    requires WellFormed(vp) && deltaPages > 0
    requires mode == "scrollY" ==> vp.scrollTop == vp.maxTop && vp.clientHeight >= 0.0
    requires mode != "scrollY" ==> vp.scrollLeft == vp.maxLeft && vp.clientWidth >= 0.0
    ensures Scrolled(vp, PageBy(mode, deltaPages, vp)) == vp
  {
    if mode == "scrollY" {
      assert deltaPages as real * vp.clientHeight >= 0.0;
    } else {
      assert deltaPages as real * vp.clientWidth >= 0.0;
    }
  }

  const WheelDirection: real := 1.0

  /** The wheel handler of `bindWheelToHorizontalScroll`: the delta of the
      dominant axis, the vertical one on a tie, is added to `scrollLeft`. */
  function WheelRemapDelta(deltaY: real, deltaX: real): (d: real)
    ensures Abs(deltaY) >= Abs(deltaX) ==> d == deltaY
    ensures Abs(deltaY) < Abs(deltaX) ==> d == deltaX
    ensures Abs(d) >= Abs(deltaY) && Abs(d) >= Abs(deltaX)
  {
    (if Abs(deltaY) >= Abs(deltaX) then deltaY else deltaX) * WheelDirection
  }

  // ---------------------------------------------------------------------
  // The current chapter

  /** A `section.chapter` of the rendered book: its id attribute and the
      distance from the top of the content to its top. */
  datatype ChapterBox = ChapterBox(id: Option<string>, offset: real)

  /** A chapter counts as reached once its top is this close to the top. */
  const ReachedOffset: real := 24.0

  /** The length of the leading run of chapters that have been reached. */
  function LeadingReached(chapters: seq<ChapterBox>): (n: nat)
    ensures n <= |chapters|
    ensures forall i :: 0 <= i < n ==> chapters[i].offset <= ReachedOffset
    ensures n < |chapters| ==> chapters[n].offset > ReachedOffset
  {
    if chapters == [] || chapters[0].offset > ReachedOffset then 0
    else 1 + LeadingReached(chapters[1..])
  }

  /** The index of the chapter `getCurrentChapterId` settles on: the last
      of the leading run, or the first chapter when none is reached. */
  function CurrentIndex(chapters: seq<ChapterBox>): (k: nat)
    requires chapters != []
    ensures k < |chapters|
  {
    var n := LeadingReached(chapters);
    if n == 0 then 0 else n - 1
  }

  /** What `getCurrentChapterId` returns. */
  function CurrentChapterId(chapters: seq<ChapterBox>): (id: string)
    ensures id != []
    ensures chapters == [] ==> id == "chapter-001"
    ensures chapters != [] && chapters[0].offset > ReachedOffset && chapters[0].id.Some?
              && chapters[0].id.value != [] ==>
              id == chapters[0].id.value
  {
    if chapters == [] then "chapter-001"
    else
      var c := chapters[CurrentIndex(chapters)];
      if c.id.Some? && c.id.value != [] then c.id.value else "chapter-001"
  }

  /** `getCurrentChapterId`: the scan stops at the first chapter below
      the line. */
  method GetCurrentChapterId(chapters: seq<ChapterBox>) returns (id: string)
    ensures id == CurrentChapterId(chapters)
  {
    if |chapters| == 0 {
      return "chapter-001";
    }
    var candidate := 0;
    var i := 0;
    while i < |chapters|
      invariant i <= LeadingReached(chapters)
      invariant candidate == if i == 0 then 0 else i - 1
      decreases |chapters| - i
    {
      if chapters[i].offset <= ReachedOffset {
        candidate := i;
        i := i + 1;
        LeadingReachedAt(chapters, i);
      } else {
        break;
      }
    }
    assert candidate == CurrentIndex(chapters);
    var c := chapters[candidate];
    id := if c.id.Some? && c.id.value != [] then c.id.value else "chapter-001";
  }

  lemma {:induction false} LeadingReachedAt(chapters: seq<ChapterBox>, i: nat)
    requires i <= |chapters|
    requires forall j :: 0 <= j < i ==> chapters[j].offset <= ReachedOffset
    ensures i <= LeadingReached(chapters)
  {
    if i > 0 {
      LeadingReachedAt(chapters[1..], i - 1);
    }
  }

  /** With chapters in document order (offsets ascending) the current
      chapter is the last one reached, or the first when none is. */
  lemma CurrentIsLastReached(chapters: seq<ChapterBox>)
    requires chapters != []
    requires forall i, j :: 0 <= i < j < |chapters| ==> chapters[i].offset <= chapters[j].offset
    ensures var k := CurrentIndex(chapters);
            && (chapters[0].offset <= ReachedOffset ==> chapters[k].offset <= ReachedOffset)
            && (forall j :: k < j < |chapters| ==> chapters[j].offset > ReachedOffset)
  {
    var n := LeadingReached(chapters);
    if n < |chapters| {
      forall j | n < j < |chapters|
        ensures chapters[j].offset > ReachedOffset
      {
        assert chapters[n].offset <= chapters[j].offset;
      }
    }
  }

  // ---------------------------------------------------------------------
  // Progress

  /** The payload the throttled scroll handler of `bindProgressTracking`
      reports, given the checked display mode. */
  function ProgressPayload(chapterId: string, mode: string, vp: Viewport): (p: JsObject)
    ensures p.Keys == if mode == "scrollY" then {"chapterId", "scrollLeft", "pageIndex", "scrollTop"}
                      else {"chapterId", "scrollLeft", "pageIndex"}
    ensures p["chapterId"] == VStr(chapterId) && p["scrollLeft"] == VNum(vp.scrollLeft)
    ensures p["pageIndex"] == VNum(Round(vp.scrollLeft / WidthOr1(vp.clientWidth)) as real)
    ensures mode == "scrollY" ==> p["scrollTop"] == VNum(vp.scrollTop)
  {
    var w := WidthOr1(vp.clientWidth);
    var payload := map["chapterId" := VStr(chapterId), "scrollLeft" := VNum(vp.scrollLeft),
                       "pageIndex" := VNum(Round(vp.scrollLeft / w) as real)];
    if mode == "scrollY" then payload["scrollTop" := VNum(vp.scrollTop)] else payload
  }

  /** What `applyProgress` does to the viewport. */
  datatype RestoreAction = RestoreNothing | RestoreScrollTop(top: real) | RestoreScrollLeft(left: real)

  /** `v != null`: present and not `null`. */
  predicate NotNullish(v: Option<Value>)
  {
    v.Some? && v.value != VNull
  }

  /** `applyProgress` with the checked display mode. In vertical scrolling
      a stored `scrollTop` wins; otherwise a stored `pageIndex` is turned
      into a position (a `pageIndex` that is not a number gives NaN, which
      the browser stores as 0), and failing that the stored `scrollLeft`. */
  function RestoreProgress(progress: Option<JsObject>, mode: string, clientWidth: real): (r: RestoreAction)
    ensures progress.None? ==> r == RestoreNothing
    ensures r.RestoreScrollTop? <==>
              progress.Some? && mode == "scrollY" && NotNullish(Get(progress.value, "scrollTop"))
    ensures progress.Some? && !r.RestoreScrollTop? && NotNullish(Get(progress.value, "pageIndex")) ==>
              r.RestoreScrollLeft?
    ensures r == RestoreNothing <==>
              progress.None?
              || (!(mode == "scrollY" && NotNullish(Get(progress.value, "scrollTop")))
                  && !NotNullish(Get(progress.value, "pageIndex"))
                  && !NotNullish(Get(progress.value, "scrollLeft")))
    ensures progress.Some? && r.RestoreScrollTop? ==>
              r.top == NumberOr(Get(progress.value, "scrollTop"), 0.0)
    ensures progress.Some? && r.RestoreScrollLeft? && NotNullish(Get(progress.value, "pageIndex")) ==>
              r.left == ToNumber(Get(progress.value, "pageIndex")).GetOr(0.0) * WidthOr1(clientWidth)
    ensures progress.Some? && r.RestoreScrollLeft? && !NotNullish(Get(progress.value, "pageIndex")) ==>
              r.left == NumberOr(Get(progress.value, "scrollLeft"), 0.0)
  {
    if progress.None? then RestoreNothing
    else
      var p := progress.value;
      if mode == "scrollY" && NotNullish(Get(p, "scrollTop")) then
        RestoreScrollTop(NumberOr(Get(p, "scrollTop"), 0.0))
      else if NotNullish(Get(p, "pageIndex")) then
        RestoreScrollLeft(ToNumber(Get(p, "pageIndex")).GetOr(0.0) * WidthOr1(clientWidth))
      else if NotNullish(Get(p, "scrollLeft")) then
        RestoreScrollLeft(NumberOr(Get(p, "scrollLeft"), 0.0))
      else RestoreNothing
  }

  /** A stored page index outside vertical scrolling is a whole number of
      viewport widths: page 2 at width 400 is restored to 800. */
  lemma RestorePageIndex(progress: JsObject, mode: string, clientWidth: real, page: real)
    requires !(mode == "scrollY" && NotNullish(Get(progress, "scrollTop")))
    requires Get(progress, "pageIndex") == Some(VNum(page))
    ensures RestoreProgress(Some(progress), mode, clientWidth)
              == RestoreScrollLeft(page * WidthOr1(clientWidth))
    ensures page == 2.0 && clientWidth == 400.0 ==>
              RestoreProgress(Some(progress), mode, clientWidth) == RestoreScrollLeft(800.0)
  {
  }

  /** Restoring a payload in the same mode and at the same width puts the
      reader back: the exact `scrollTop` in vertical scrolling, otherwise
      the page boundary nearest to where it was, within half a page. */
  lemma RestorePayload(chapterId: string, mode: string, vp: Viewport)
    requires vp.clientWidth >= 0.0
    ensures var r := RestoreProgress(Some(ProgressPayload(chapterId, mode, vp)), mode, vp.clientWidth);
            && (mode == "scrollY" ==> r == RestoreScrollTop(vp.scrollTop))
            && (mode != "scrollY" ==>
                  && r.RestoreScrollLeft?
                  && r.left == Round(vp.scrollLeft / WidthOr1(vp.clientWidth)) as real * WidthOr1(vp.clientWidth)
                  && Abs(r.left - vp.scrollLeft) <= WidthOr1(vp.clientWidth) / 2.0)
  {
    RoundToMultiple(vp.scrollLeft, WidthOr1(vp.clientWidth));
  }

  // ---------------------------------------------------------------------
  // Throttle

  /** `throttle(fn, wait)`: at most one timer is pending; calls while it
      is pending only record their arguments, and when it fires `fn` gets
      the latest ones. The timer firing is the method `Fire`. */
  class Throttle<T> {
    const wait: real
    var timerPending: bool
    var lastArgs: Option<T>

    predicate Valid()
      reads this
    {
      timerPending ==> lastArgs.Some?
    }

    constructor (wait: real)
      ensures this.wait == wait && !timerPending && lastArgs.None? && Valid()
    {
      this.wait := wait;
      timerPending := false;
      lastArgs := None;
    }

    /** `throttled(...args)`: returns whether a timer was started. */
    method Call(args: T) returns (started: bool)
      requires Valid()
      modifies this
      ensures Valid()
      ensures lastArgs == Some(args) && timerPending
      ensures started <==> !old(timerPending)
    {
      lastArgs := Some(args);
      if timerPending {
        return false;
      }
      timerPending := true;
      started := true;
    }

    /** The timer's callback: returns the arguments `fn` is called with. */
    method Fire() returns (args: T)
      requires Valid() && timerPending
      modifies this
      ensures Valid()
      ensures !timerPending && lastArgs == old(lastArgs)
      ensures args == old(lastArgs).value
    {
      timerPending := false;
      args := lastArgs.value;
    }
  }

  // ---------------------------------------------------------------------
  // Settings and display mode

  /** The values of the display-mode radio buttons. */
  const DisplayModes := ["paged", "scrollX", "scrollY"]

  /** The options of the theme and page-effect selects. */
  const ThemeOptions := ["light", "dark"]
  const PageEffectOptions := ["none", "dim", "fade"]

  /** The value a select reads back after being set to `v`: `v` when it is
      one of the options, and otherwise `""`, since nothing is selected. */
  function SelectValue(options: seq<string>, v: string): (r: string)
    ensures r in options || r == []
    ensures v in options && v != [] ==> r == v
    ensures v !in options ==> r == []
  {
    if v in options && v != [] then v else []
  }

  /** `v || d` for a setting used as a string; a value that is not a
      string counts as absent. */
  function StrOr(v: Option<Value>, d: string): (s: string)
    ensures d != [] ==> s != []
  {
    if v.Some? && v.value.VStr? && v.value.s != [] then v.value.s else d
  }

  /** `v ?? d`. */
  function NullishOr(v: Option<Value>, d: Value): Value
  {
    if v.Some? && v.value != VNull then v.value else d
  }

  /** The settings panel's controls: the three ranges, the theme select,
      the checked display-mode radio (if any), the page-effect select and
      the tap-in-scroll checkbox. */
  datatype SettingsForm = SettingsForm(
    fontSize: Value,
    lineHeight: Value,
    letterSpacing: Value,
    theme: string,
    checkedMode: Option<string>,
    pageEffect: string,
    tapInScroll: bool)

  function DisplayModeOf(s: JsObject): string
  {
    StrOr(Get(s, "displayMode"), "paged")
  }

  function PageEffectOf(s: JsObject): string
  {
    StrOr(Get(s, "pageEffect"), "none")
  }

  /** The controls as `applySettings` sets them. */
  function FormOf(s: JsObject): SettingsForm
  {
    var mode := DisplayModeOf(s);
    SettingsForm(
      NullishOr(Get(s, "fontSize"), VNum(100.0)),
      NullishOr(Get(s, "lineHeight"), VNum(1.8)),
      NullishOr(Get(s, "letterSpacing"), VNum(0.0)),
      SelectValue(ThemeOptions, StrOr(Get(s, "theme"), "light")),
      if mode in DisplayModes then Some(mode) else None,
      SelectValue(PageEffectOptions, PageEffectOf(s)),
      Truthy(Get(s, "tapInScroll")))
  }

  /** `getCheckedDisplayMode`. */
  function CheckedDisplayMode(form: SettingsForm): string
  {
    form.checkedMode.GetOr("paged")
  }

  /** The settings object `updateSettings` reads off the controls before
      the patch is spread over it. */
  function ReadForm(form: SettingsForm): (s: JsObject)
    ensures s.Keys == {"fontSize", "lineHeight", "letterSpacing", "theme", "displayMode", "pageEffect", "tapInScroll"}
  {
    map["fontSize" := VNum(NumberOr(Some(form.fontSize), 100.0)),
        "lineHeight" := VNum(NumberOr(Some(form.lineHeight), 1.8)),
        "letterSpacing" := VNum(NumberOr(Some(form.letterSpacing), 0.0)),
        "theme" := VStr(if form.theme != [] then form.theme else "light"),
        "displayMode" := VStr(CheckedDisplayMode(form)),
        "pageEffect" := VStr(if form.pageEffect != [] then form.pageEffect else "none"),
        "tapInScroll" := VBool(form.tapInScroll)]
  }

  /** A complete settings object whose every value survives the controls:
      non-zero numbers (any number for the letter spacing, whose default
      is 0), a theme and a page effect among the select options, a known
      display mode and a boolean. */
  predicate CanonicalSettings(s: JsObject)
  {
    && s.Keys == {"fontSize", "lineHeight", "letterSpacing", "theme", "displayMode", "pageEffect", "tapInScroll"}
    && s["fontSize"].VNum? && s["fontSize"].n != 0.0
    && s["lineHeight"].VNum? && s["lineHeight"].n != 0.0
    && s["letterSpacing"].VNum?
    && s["theme"].VStr? && s["theme"].s in ThemeOptions
    && s["displayMode"].VStr? && s["displayMode"].s in DisplayModes
    && s["pageEffect"].VStr? && s["pageEffect"].s in PageEffectOptions
    && s["tapInScroll"].VBool?
  }

  /** Applying canonical settings to the controls and reading them back
      gives the same settings. */
  lemma FormRoundTrip(s: JsObject)
    requires CanonicalSettings(s)
    ensures ReadForm(FormOf(s)) == s
  {
    var r := ReadForm(FormOf(s));
    assert s["letterSpacing"] == VNum(NumberOr(Some(s["letterSpacing"]), 0.0));
    forall k | k in s.Keys
      ensures r[k] == s[k]
    {
    }
  }

  /** A theme or page effect that is not one of the select's options does
      not survive the form: it reads back as the default. */
  lemma SelectReadsBack(s: JsObject)
    ensures var theme := StrOr(Get(s, "theme"), "light");
            ReadForm(FormOf(s))["theme"] == VStr(if theme in ThemeOptions then theme else "light")
    ensures var effect := PageEffectOf(s);
            ReadForm(FormOf(s))["pageEffect"] == VStr(if effect in PageEffectOptions then effect else "none")
  {
  }

  /** Canonical settings are a fixed point of `updateSettings` with an
      empty patch. */
  lemma ReadFormCanonical(form: SettingsForm)
    requires form.fontSize.VNum? && form.lineHeight.VNum? && form.letterSpacing.VNum?
    requires form.checkedMode.Some? ==> form.checkedMode.value in DisplayModes
    requires form.theme == [] || form.theme in ThemeOptions
    requires form.pageEffect == [] || form.pageEffect in PageEffectOptions
    ensures CanonicalSettings(ReadForm(form))
    ensures FormOf(ReadForm(form)).checkedMode == Some(CheckedDisplayMode(form))
    ensures ReadForm(FormOf(ReadForm(form))) == ReadForm(form)
  {
    FormRoundTrip(ReadForm(form));
  }

  /** The CSS custom properties `applySettings` sets. */
  datatype Css = Css(fontSize: real, lineHeight: real, letterSpacing: real)

  function CssOf(s: JsObject): Css
  {
    Css(NumberOr(Get(s, "fontSize"), 100.0), NumberOr(Get(s, "lineHeight"), 1.8),
        NumberOr(Get(s, "letterSpacing"), 0.0))
  }

  datatype Theme = Light | Dark

  /** `applyTheme(settings.theme || "light")`. */
  function ThemeOf(s: JsObject): (t: Theme)
    ensures t == Dark <==> Get(s, "theme") == Some(VStr("dark"))
  {
    if StrOr(Get(s, "theme"), "light") == "dark" then Dark else Light
  }

  /** The layout class of the content: exactly one of the three. */
  datatype Layout = ModePaged | ModeScrollX | ModeScrollY

  function LayoutOf(mode: string): (l: Layout)
    ensures l == ModeScrollX <==> mode == "scrollX"
    ensures l == ModeScrollY <==> mode == "scrollY"
  {
    if mode == "scrollX" then ModeScrollX
    else if mode == "scrollY" then ModeScrollY
    else ModePaged
  }

  /** The gesture handlers bound under one `AbortController`. */
  datatype Gestures = Gestures(controller: nat, tap: TapBinding, wheelRemap: bool)

  /** The handlers `applyDisplayMode` binds. An unknown mode gets the
      paged layout but, unless tap-in-scroll is on, only centre taps. */
  function GesturesFor(controller: nat, mode: string, tapInScroll: bool): (g: Gestures)
    ensures g.controller == controller
    ensures g.tap.PageTap? <==> mode == "paged" || tapInScroll
    ensures g.tap.PageTap? ==> g.tap.mode == mode
    ensures g.wheelRemap <==> LayoutOf(mode) == ModeScrollX
  {
    Gestures(controller, if mode == "paged" || tapInScroll then PageTap(mode) else CenterTapOnly,
             mode == "scrollX")
  }

  /** The reader view's state: the settings form, the applied CSS and
      theme, the closure variables `currentMode` and `currentEffect`, the
      layout class, the gesture handlers bound under the live
      `AbortController` (the `controllers`-th created) and the horizontal
      slider: whether it is disabled, its maximum and its value. */
  class ReaderView {
    var form: SettingsForm
    var css: Css
    var theme: Theme
    var currentMode: string
    var currentEffect: string
    var layout: Layout
    var controllers: nat
    var gestures: Option<Gestures>
    var sliderDisabled: bool
    var sliderMax: real
    var sliderValue: real

    /** Only the handlers of the live controller are bound. */
    predicate Valid()
      reads this
    {
      (gestures.Some? <==> controllers > 0)
      && (gestures.Some? ==> gestures.value.controller == controllers)
    }

    constructor ()
      ensures currentMode == "paged" && currentEffect == "none"
      ensures controllers == 0 && gestures.None?
      ensures Valid()
    {
      form := FormOf(map[]);
      css := CssOf(map[]);
      theme := Light;
      currentMode := "paged";
      currentEffect := "none";
      layout := ModePaged;
      controllers := 0;
      gestures := None;
      sliderDisabled := false;
      sliderMax := 0.0;
      sliderValue := 0.0;
    }

    /** `applyDisplayMode`: the previous controller is aborted, which
        unbinds its handlers, and the mode's handlers are bound under a
        new one. The slider is disabled at once in `scrollY`; the refresh
        it schedules two frames later is the event RefreshHScroll. */
    method ApplyDisplayMode(mode: string, tapInScroll: bool)
      requires Valid()
      modifies this
      ensures Valid()
      ensures layout == LayoutOf(mode)
      ensures controllers == old(controllers) + 1
      ensures gestures == Some(GesturesFor(controllers, mode, tapInScroll))
      ensures sliderDisabled <==> mode == "scrollY"
      ensures sliderMax == old(sliderMax) && sliderValue == old(sliderValue)
      ensures form == old(form) && css == old(css) && theme == old(theme)
      ensures currentMode == old(currentMode) && currentEffect == old(currentEffect)
    {
      layout := LayoutOf(mode);
      controllers := controllers + 1;
      gestures := Some(GesturesFor(controllers, mode, tapInScroll));
      sliderDisabled := mode == "scrollY";
    }

    /** `applySettings`: nothing happens without settings. */
    method ApplySettings(settings: Option<JsObject>)
      requires Valid()
      modifies this
      ensures Valid()
      ensures settings.None? ==>
                form == old(form) && css == old(css) && theme == old(theme)
                && currentMode == old(currentMode) && currentEffect == old(currentEffect)
                && layout == old(layout) && controllers == old(controllers)
                && gestures == old(gestures) && sliderDisabled == old(sliderDisabled)
      ensures sliderMax == old(sliderMax) && sliderValue == old(sliderValue)
      ensures settings.Some? ==>
                var s := settings.value;
                && form == FormOf(s) && css == CssOf(s) && theme == ThemeOf(s)
                && currentMode == DisplayModeOf(s) && currentEffect == PageEffectOf(s)
                && layout == LayoutOf(currentMode)
                && controllers == old(controllers) + 1
                && gestures == Some(GesturesFor(controllers, currentMode, Truthy(Get(s, "tapInScroll"))))
                && (sliderDisabled <==> currentMode == "scrollY")
    {
      if settings.None? {
        return;
      }
      var s := settings.value;
      css := CssOf(s);
      theme := ThemeOf(s);
      form := FormOf(s);
      currentMode := DisplayModeOf(s);
      currentEffect := PageEffectOf(s);
      ApplyDisplayMode(currentMode, Truthy(Get(s, "tapInScroll")));
    }

    /** `updateSettings(patch)`: the controls' values with the patch
        spread over them are applied and returned for `onUpdateSettings`. */
    method UpdateSettings(patch: JsObject) returns (next: JsObject)
      requires Valid()
      modifies this
      ensures Valid()
      ensures next == ReadForm(old(form)) + patch
      ensures forall k :: k in patch ==> next[k] == patch[k]
      ensures forall k :: k in ReadForm(old(form)) && k !in patch ==> next[k] == ReadForm(old(form))[k]
      ensures form == FormOf(next) && css == CssOf(next) && theme == ThemeOf(next)
      ensures currentMode == DisplayModeOf(next) && currentEffect == PageEffectOf(next)
      ensures layout == LayoutOf(currentMode) && controllers == old(controllers) + 1
      ensures gestures == Some(GesturesFor(controllers, currentMode, Truthy(Get(next, "tapInScroll"))))
      ensures sliderDisabled <==> currentMode == "scrollY"
      ensures sliderMax == old(sliderMax) && sliderValue == old(sliderValue)
    {
      next := ReadForm(form) + patch;
      ApplySettings(Some(next));
    }

    /** The `refresh` of `setupHScroll`, run two animation frames after
        a display-mode change and on every resize or orientation change:
        the slider ranges over the horizontal overflow, shows the current
        position within it, and is disabled exactly when nothing
        overflows, whatever the mode. */
    method RefreshHScroll(scrollWidth: real, clientWidth: real, scrollLeft: real)
      requires Valid()
      modifies this
      ensures Valid()
      ensures sliderMax >= 0.0
      ensures sliderMax == (if scrollWidth - clientWidth > 0.0 then scrollWidth - clientWidth else 0.0)
      ensures sliderValue <= sliderMax
      ensures sliderValue == (if scrollLeft < sliderMax then scrollLeft else sliderMax)
      ensures sliderDisabled <==> sliderMax == 0.0
      ensures form == old(form) && css == old(css) && theme == old(theme)
      ensures currentMode == old(currentMode) && currentEffect == old(currentEffect)
      ensures layout == old(layout) && controllers == old(controllers) && gestures == old(gestures)
    {
      var max := if scrollWidth - clientWidth > 0.0 then scrollWidth - clientWidth else 0.0;
      sliderMax := max;
      sliderValue := if max < scrollLeft then max else scrollLeft;
      sliderDisabled := max == 0.0;
    }

    /** The progress payload of the throttled scroll handler. */
    method ProgressSnapshot(chapters: seq<ChapterBox>, vp: Viewport) returns (payload: JsObject)
      ensures payload == ProgressPayload(CurrentChapterId(chapters), CheckedDisplayMode(form), vp)
    {
      var chapterId := GetCurrentChapterId(chapters);
      payload := ProgressPayload(chapterId, CheckedDisplayMode(form), vp);
    }
  }
}
