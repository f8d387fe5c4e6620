/** Horizontal paging of a column-laid-out viewport (js/paging.js): wheel
    notches accumulate until they reach a threshold and then turn one page
    and lock the wheel until a timer releases it, a scroll while unlocked
    snaps to the nearest page, and a vertical swipe turns one page.

    The closure state of `setupHorizontalPaging` is the state of a
    `HorizontalPager`; each event listener is a method. The viewport's
    `scrollLeft` and `clientWidth` are passed to the handlers that read
    them, and a handler that calls `viewport.scrollTo` returns the
    requested `left` position. The lock timer firing is the method
    `LockTimerFires`. */
module Paging {
  import opened Common

  datatype PagingOptions = PagingOptions(wheelThreshold: real, wheelLockMs: real, touchThreshold: real)

  /** `DEFAULTS`. */
  const Defaults := PagingOptions(120.0, 320.0, 60.0)

  /** `{ ...DEFAULTS, ...options }` for numeric options: each key given
      overrides its default, the others keep it. */
  function MergeOptions(options: map<string, real>): (o: PagingOptions)
    ensures "wheelThreshold" in options ==> o.wheelThreshold == options["wheelThreshold"]
    ensures "wheelThreshold" !in options ==> o.wheelThreshold == Defaults.wheelThreshold
    ensures "wheelLockMs" in options ==> o.wheelLockMs == options["wheelLockMs"]
    ensures "wheelLockMs" !in options ==> o.wheelLockMs == Defaults.wheelLockMs
    ensures "touchThreshold" in options ==> o.touchThreshold == options["touchThreshold"]
    ensures "touchThreshold" !in options ==> o.touchThreshold == Defaults.touchThreshold
  {
    var merged := map["wheelThreshold" := Defaults.wheelThreshold,
                       "wheelLockMs" := Defaults.wheelLockMs,
                       "touchThreshold" := Defaults.touchThreshold] + options;
    PagingOptions(merged["wheelThreshold"], merged["wheelLockMs"], merged["touchThreshold"])
  }

  /** `e.deltaY || e.deltaX || 0`: the vertical delta unless it is zero. */
  function WheelDelta(deltaY: real, deltaX: real): (d: real)
    ensures deltaY != 0.0 ==> d == deltaY
    ensures deltaY == 0.0 ==> d == deltaX
    ensures d == 0.0 <==> deltaY == 0.0 && deltaX == 0.0
  {
    if deltaY != 0.0 then deltaY else deltaX
  }

  /** `pageWidth()`: the viewport width, never below one pixel. */
  function PageWidth(clientWidth: real): (w: real)
    ensures w >= 1.0 && w >= clientWidth
    ensures w == 1.0 || w == clientWidth
  {
    if clientWidth > 1.0 then clientWidth else 1.0
  }

  /** The `left` that `pageBy(deltaPages)` scrolls to: the nearest page
      boundary moved by `deltaPages` pages. */
  function PageByTarget(scrollLeft: real, clientWidth: real, deltaPages: int): real
  {
    var w := PageWidth(clientWidth);
    (Round(scrollLeft / w) + deltaPages) as real * w
  }

  /** The `left` that `snapToNearest` scrolls to. */
  function SnapTarget(scrollLeft: real, clientWidth: real): real
  {
    var w := PageWidth(clientWidth);
    Round(scrollLeft / w) as real * w
  }

  /** Every scroll request lands on a page boundary: a whole number of
      page widths. */
  lemma PageByOnGrid(scrollLeft: real, clientWidth: real, deltaPages: int)
    ensures var w, t := PageWidth(clientWidth), PageByTarget(scrollLeft, clientWidth, deltaPages);
            && t / w == (t / w).Floor as real
            && (t / w).Floor == Round(scrollLeft / w) + deltaPages
  {
    var w := PageWidth(clientWidth);
    var k := Round(scrollLeft / w) + deltaPages;
    assert PageByTarget(scrollLeft, clientWidth, deltaPages) / w == k as real;
  }

  /** Paging moves exactly `deltaPages` page widths from where a snap
      would land. */
  lemma PageByFromSnap(scrollLeft: real, clientWidth: real, deltaPages: int)
    ensures PageByTarget(scrollLeft, clientWidth, deltaPages)
            == SnapTarget(scrollLeft, clientWidth) + deltaPages as real * PageWidth(clientWidth)
  {
  }

  /** The snap lands on a page boundary no further than half a page away. */
  lemma SnapNearest(scrollLeft: real, clientWidth: real)
    ensures var w, t := PageWidth(clientWidth), SnapTarget(scrollLeft, clientWidth);
            && t / w == (t / w).Floor as real
            && Abs(t - scrollLeft) <= w / 2.0
  {
    var w := PageWidth(clientWidth);
    assert SnapTarget(scrollLeft, clientWidth) == Round(scrollLeft / w) as real * w;
    RoundToMultiple(scrollLeft, w);
    PageByOnGrid(scrollLeft, clientWidth, 0);
    assert PageByTarget(scrollLeft, clientWidth, 0) == SnapTarget(scrollLeft, clientWidth);
  }

  /** `dy > 0 ? -1 : 1`: dragging the content down goes back a page. */
  function SwipeDirection(dy: real): (dir: int)
    ensures dir == 1 || dir == -1
    ensures dir == -1 <==> dy > 0.0
  {
    if dy > 0.0 then -1 else 1
  }

  /** Whether a touch that moved by (dx, dy) turns a page: it must be at
      least as vertical as it is horizontal and travel the threshold. */
  predicate IsSwipe(dx: real, dy: real, touchThreshold: real)
  {
    Abs(dy) >= Abs(dx) && Abs(dy) >= touchThreshold
  }

  class HorizontalPager {
    const opts: PagingOptions
    var wheelAccum: real
    var locked: bool
    /** A lock timer has been set and has not fired yet. */
    var lockTimerPending: bool
    var touchStartX: real
    var touchStartY: real
    var touchActive: bool

    /** The accumulator stays below the threshold (or at rest), and the
        wheel is locked exactly while a lock timer is pending. */
    predicate Valid()
      reads this
    {
      (wheelAccum == 0.0 || Abs(wheelAccum) < opts.wheelThreshold)
      && locked == lockTimerPending
    }

    constructor (options: map<string, real>)
      ensures opts == MergeOptions(options)
      ensures wheelAccum == 0.0 && !locked && !lockTimerPending
      ensures touchStartX == 0.0 && touchStartY == 0.0 && !touchActive
      ensures Valid()
    {
      opts := MergeOptions(options);
      wheelAccum := 0.0;
      locked := false;
      lockTimerPending := false;
      touchStartX := 0.0;
      touchStartY := 0.0;
      touchActive := false;
    }

    /** `lock()`: any pending timer is cleared and a new one is set. */
    method Lock()
      modifies this
      ensures locked && lockTimerPending
      ensures wheelAccum == old(wheelAccum)
      ensures touchActive == old(touchActive)
      ensures touchStartX == old(touchStartX) && touchStartY == old(touchStartY)
    {
      locked := true;
      lockTimerPending := true;
    }

    /** The lock timer's callback, `opts.wheelLockMs` after `lock()`: the
        only way the wheel is released. */
    method LockTimerFires()
      requires Valid() && lockTimerPending
      modifies this
      ensures Valid()
      ensures !locked && !lockTimerPending
      ensures wheelAccum == old(wheelAccum)
      ensures touchActive == old(touchActive)
      ensures touchStartX == old(touchStartX) && touchStartY == old(touchStartY)
    {
      locked := false;
      lockTimerPending := false;
    }

    /** `onWheel`. Returns whether the default was prevented and the
        scroll requested, if any. */
    method OnWheel(deltaY: real, deltaX: real, scrollLeft: real, clientWidth: real)
      returns (prevented: bool, target: Option<real>)
      requires Valid()
      modifies this
      ensures Valid()
      ensures touchActive == old(touchActive)
      ensures touchStartX == old(touchStartX) && touchStartY == old(touchStartY)
      ensures var delta := WheelDelta(deltaY, deltaX);
              && (old(locked) || delta == 0.0 ==>
                    !prevented && target.None?
                    && wheelAccum == old(wheelAccum) && locked == old(locked)
                    && lockTimerPending == old(lockTimerPending))
              && (!old(locked) && delta != 0.0 ==> prevented)
              && (!old(locked) && delta != 0.0 && Abs(old(wheelAccum) + delta) >= opts.wheelThreshold ==>
                    wheelAccum == 0.0 && locked && lockTimerPending
                    && target == Some(PageByTarget(scrollLeft, clientWidth,
                                                   if old(wheelAccum) + delta > 0.0 then 1 else -1)))
              && (!old(locked) && delta != 0.0 && Abs(old(wheelAccum) + delta) < opts.wheelThreshold ==>
                    wheelAccum == old(wheelAccum) + delta && target.None?
                    && !locked && !lockTimerPending)
    {
      prevented, target := false, None;
      if locked {
        return;
      }
      var delta := WheelDelta(deltaY, deltaX);
      if delta == 0.0 {
        return;
      }
      prevented := true;
      wheelAccum := wheelAccum + delta;
      if Abs(wheelAccum) >= opts.wheelThreshold {
        var dir := if wheelAccum > 0.0 then 1 else -1;
        wheelAccum := 0.0;
        target := Some(PageByTarget(scrollLeft, clientWidth, dir));
        Lock();
      }
    }

    /** `onWheelEnd`, bound to the viewport's `scroll` event. */
    method OnWheelEnd(scrollLeft: real, clientWidth: real) returns (target: Option<real>)
      requires Valid()
      modifies this
      ensures Valid()
      ensures locked == old(locked) && lockTimerPending == old(lockTimerPending)
      ensures touchActive == old(touchActive)
      ensures touchStartX == old(touchStartX) && touchStartY == old(touchStartY)
      ensures old(locked) || old(wheelAccum) == 0.0 ==> wheelAccum == old(wheelAccum) && target.None?
      ensures !old(locked) && old(wheelAccum) != 0.0 ==>
                wheelAccum == 0.0 && target == Some(SnapTarget(scrollLeft, clientWidth))
    {
      target := None;
      if locked {
        return;
      }
      if Abs(wheelAccum) > 0.0 {
        wheelAccum := 0.0;
        target := Some(SnapTarget(scrollLeft, clientWidth));
      }
    }

    /** `onTouchStart`: an event without touch points is ignored. */
    method OnTouchStart(touches: seq<TouchPoint>)
      modifies this
      ensures wheelAccum == old(wheelAccum) && locked == old(locked)
      ensures lockTimerPending == old(lockTimerPending)
      ensures touches == [] ==>
                touchActive == old(touchActive)
                && touchStartX == old(touchStartX) && touchStartY == old(touchStartY)
      ensures touches != [] ==>
                touchActive && touchStartX == touches[0].clientX && touchStartY == touches[0].clientY
    {
      if |touches| == 0 {
        return;
      }
      touchActive := true;
      touchStartX := touches[0].clientX;
      touchStartY := touches[0].clientY;
    }

    /** `onTouchMove`: returns whether scrolling was prevented, which it
        is for a mostly vertical move of an active touch. */
    method OnTouchMove(touches: seq<TouchPoint>) returns (prevented: bool)
      ensures prevented <==>
                touchActive && touches != []
                && Abs(touches[0].clientY - touchStartY) > Abs(touches[0].clientX - touchStartX)
    {
      prevented := false;
      if !touchActive || |touches| == 0 {
        return;
      }
      var dx := touches[0].clientX - touchStartX;
      var dy := touches[0].clientY - touchStartY;
      if Abs(dy) > Abs(dx) {
        prevented := true;
      }
    }

    /** `onTouchEnd`: always ends the touch; a vertical swipe of an
        active touch turns one page, against the drag direction. */
    method OnTouchEnd(changedTouches: seq<TouchPoint>, scrollLeft: real, clientWidth: real)
      returns (target: Option<real>)
      modifies this
      ensures !touchActive
      ensures wheelAccum == old(wheelAccum) && locked == old(locked)
      ensures lockTimerPending == old(lockTimerPending)
      ensures touchStartX == old(touchStartX) && touchStartY == old(touchStartY)
      ensures !old(touchActive) || changedTouches == [] ==> target.None?
      ensures old(touchActive) && changedTouches != [] ==>
                var dx := changedTouches[0].clientX - touchStartX;
                var dy := changedTouches[0].clientY - touchStartY;
                target == if IsSwipe(dx, dy, opts.touchThreshold)
                          then Some(PageByTarget(scrollLeft, clientWidth, SwipeDirection(dy)))
                          else None
    {
      target := None;
      if !touchActive {
        return;
      }
      touchActive := false;
      if |changedTouches| == 0 {
        return;
      }
      var dx := changedTouches[0].clientX - touchStartX;
      var dy := changedTouches[0].clientY - touchStartY;
      if Abs(dy) < Abs(dx) {
        return;
      }
      if Abs(dy) < opts.touchThreshold {
        return;
      }
      target := Some(PageByTarget(scrollLeft, clientWidth, SwipeDirection(dy)));
    }
  }
}
