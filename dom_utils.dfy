/**
 * The DOM helpers: finding an input by placeholder, the scroll-lock class on
 * the page body, and the rectangle arithmetic for scroll targets and
 * visibility. The window and document body the helpers touch are one
 * `Page` object.
 */
module DomUtils {
  import opened Wrappers
  import opened JsBuiltins

  const InputFocusedClass: string := "input-focused"
  const KeyboardVisibleClass: string := "keyboard-visible"
  /** The default header height and padding of the adjusted scroll position. */
  const DefaultHeaderHeight: real := 60.0
  const DefaultPadding: real := 20.0

  /** The window and the document body, as far as the helpers use them. */
  class Page {
    var innerWidth: real
    var innerHeight: real
    var scrollY: real
    /** `window.initialHeight`: unset until the viewport hook first records a height. */
    var initialHeight: Option<real>
    /** The body's class list. */
    var bodyClasses: set<string>
    /** A window scroll a timer will perform, if one is pending. */
    var pendingScroll: Option<real>

    constructor (innerWidth: real, innerHeight: real)
      ensures this.innerWidth == innerWidth && this.innerHeight == innerHeight
      ensures scrollY == 0.0 && initialHeight == None && bodyClasses == {} && pendingScroll == None
    {
      this.innerWidth := innerWidth;
      this.innerHeight := innerHeight;
      scrollY := 0.0;
      initialHeight := None;
      bodyClasses := {};
      pendingScroll := None;
    }
  }

  /** An input element of the document, with the text it shows as placeholder. */
  datatype InputElement = InputElement(placeholder: string, value: string)

  /**
   * `findInputByPlaceholder`: the position of the first input, in document
   * order, whose placeholder is the given text; None (`null`) when none is.
   */
  method FindInputByPlaceholder(inputs: seq<InputElement>, placeholder: string) returns (found: Option<nat>)
    ensures found.Some? ==> found.value < |inputs| && inputs[found.value].placeholder == placeholder
    ensures found.Some? ==> forall k :: 0 <= k < found.value ==> inputs[k].placeholder != placeholder
    ensures found.None? <==> forall k :: 0 <= k < |inputs| ==> inputs[k].placeholder != placeholder
  {
    var i := 0;
    while i < |inputs|
      invariant 0 <= i <= |inputs|
      invariant forall k :: 0 <= k < i ==> inputs[k].placeholder != placeholder
    {
      if inputs[i].placeholder == placeholder {
        return Some(i);
      }
      i := i + 1;
    }
    return None;
  }

  /** `lockScrollPosition`: marks the body as input-focused and scrolls the window to the position. */
  method LockScrollPosition(page: Page, position: real)
    modifies page
    ensures page.bodyClasses == old(page.bodyClasses) + {InputFocusedClass}
    ensures page.scrollY == position
    ensures page.innerWidth == old(page.innerWidth) && page.innerHeight == old(page.innerHeight)
    ensures page.initialHeight == old(page.initialHeight) && page.pendingScroll == old(page.pendingScroll)
  {
    page.bodyClasses := page.bodyClasses + {InputFocusedClass};
    page.scrollY := position;
  }

  /** `unlockScrollPosition`: removes only the input-focused class. */
  method UnlockScrollPosition(page: Page)
    modifies page
    ensures page.bodyClasses == old(page.bodyClasses) - {InputFocusedClass}
    ensures page.scrollY == old(page.scrollY) && page.innerWidth == old(page.innerWidth)
    ensures page.innerHeight == old(page.innerHeight) && page.initialHeight == old(page.initialHeight)
    ensures page.pendingScroll == old(page.pendingScroll)
  {
    page.bodyClasses := page.bodyClasses - {InputFocusedClass};
  }

  /** Locking then unlocking leaves every other class as it was and the lock class gone. */
  method LockThenUnlock(page: Page, position: real)
    modifies page
    ensures page.bodyClasses == old(page.bodyClasses) - {InputFocusedClass}
  {
    LockScrollPosition(page, position);
    UnlockScrollPosition(page);
  }

  /** An element's bounding rectangle in viewport coordinates. */
  datatype Rect = Rect(top: real, left: real, bottom: real, right: real)

  /**
   * `calculateAdjustedScrollPosition`: the page offset of the element's top,
   * less the header and padding, but never above the top of the page.
   */
  function AdjustedScrollPosition(rect: Rect, scrollY: real, headerHeight: real, padding: real): (p: real)
    ensures p >= 0.0
    ensures p >= rect.top + scrollY - headerHeight - padding
    ensures p == 0.0 || p == rect.top + scrollY - headerHeight - padding
  {
    MaxOf(0.0, rect.top + scrollY - headerHeight - padding)
  }

  /** The target `smoothScrollToElement` asks for: the element's page offset less `offset`, unclamped. */
  function SmoothScrollTarget(rect: Rect, scrollY: real, offset: real): real
  {
    rect.top + scrollY - offset
  }

  /** Unlike the adjusted position, the smooth-scroll target can lie above the page. */
  lemma SmoothScrollTargetUnclamped()
    ensures SmoothScrollTarget(Rect(10.0, 0.0, 20.0, 0.0), 0.0, 30.0) < 0.0
    ensures AdjustedScrollPosition(Rect(10.0, 0.0, 20.0, 0.0), 0.0, 30.0, 0.0) == 0.0
  {
  }

  /** The adjusted position with header and padding is the smooth-scroll target for their sum, clamped at 0. */
  lemma AdjustedIsClampedTarget(rect: Rect, scrollY: real, headerHeight: real, padding: real)
    ensures AdjustedScrollPosition(rect, scrollY, headerHeight, padding)
         == MaxOf(0.0, SmoothScrollTarget(rect, scrollY, headerHeight + padding))
  {
  }

  /** `isElementInViewport`: fully inside the window, or overlapping it. */
  function IsElementInViewport(rect: Rect, innerWidth: real, innerHeight: real, fullyVisible: bool): bool
  {
    if fullyVisible then
      rect.top >= 0.0 && rect.left >= 0.0 && rect.bottom <= innerHeight && rect.right <= innerWidth
    else
      rect.bottom >= 0.0 && rect.right >= 0.0 && rect.top <= innerHeight && rect.left <= innerWidth
  }

  /** For a proper rectangle, full visibility implies partial visibility. */
  lemma FullyVisibleIsVisible(rect: Rect, innerWidth: real, innerHeight: real)
    requires rect.top <= rect.bottom && rect.left <= rect.right
    ensures IsElementInViewport(rect, innerWidth, innerHeight, true) ==> IsElementInViewport(rect, innerWidth, innerHeight, false)
  {
  }

  /** Without a proper rectangle the implication fails: an inverted rectangle can be "fully" visible yet not overlap. */
  lemma InvertedRectNotImplied()
    ensures IsElementInViewport(Rect(0.0, 0.0, -1.0, 0.0), 100.0, 100.0, true)
    ensures !IsElementInViewport(Rect(0.0, 0.0, -1.0, 0.0), 100.0, 100.0, false)
  {
  }

  /** `getDistanceFromBottom`: how far the element's bottom edge lies above the window's. */
  function DistanceFromBottom(rect: Rect, innerHeight: real): (d: real)
    ensures d >= 0.0 <==> rect.bottom <= innerHeight
  {
    innerHeight - rect.bottom
  }

  /** A fully visible element never reaches below the window. */
  lemma FullyVisibleHasRoomBelow(rect: Rect, innerWidth: real, innerHeight: real)
    requires IsElementInViewport(rect, innerWidth, innerHeight, true)
    ensures DistanceFromBottom(rect, innerHeight) >= 0.0
  {
  }
}
