/**
 * The viewport hook: the device-width flags, the keyboard detector that
 * compares the window height with the first height it saw, and the focus and
 * blur handlers of the chat input.
 */
module Viewport {
  import opened Wrappers
  import opened JsBuiltins
  import opened DomUtils
  import ResponsiveFire

  /** A keyboard is taken to be open when the window shrank below this share of its first height. */
  const KeyboardRatio: real := 0.8
  /** The header height and padding `preventInputScroll` keeps above the input. */
  const FocusHeaderHeight: real := 60.0
  const FocusPadding: real := 20.0

  datatype ViewportState = ViewportState(
    isMobile: bool, isSmallMobile: bool, isKeyboardVisible: bool,
    width: real, height: real, appHeight: real)

  /** JavaScript truthiness of an optional number: present and not zero. */
  predicate TruthyNumber(x: Option<real>)
  {
    x.Some? && x.value != 0.0
  }

  /** The state before the mount effect runs: flags from the width, no keyboard. */
  function InitialState(width: real, height: real): ViewportState
  {
    ViewportState(width < 768.0, width < 480.0, false, width, height, height)
  }

  /** The width flags agree with the fire overlay's screen-size flags, and a small mobile is a mobile. */
  lemma WidthFlags(width: real, height: real)
    ensures InitialState(width, height).isSmallMobile ==> InitialState(width, height).isMobile
    ensures InitialState(width, height).isMobile == ResponsiveFire.CheckScreenSize(width, height).isMobile
    ensures InitialState(width, height).isSmallMobile == ResponsiveFire.CheckScreenSize(width, height).isSmallMobile
  {
  }

  /**
   * `detectKeyboard`: records the window height as the initial one unless a
   * truthy one is already recorded, then reports (and mirrors in the body's
   * `keyboard-visible` class) whether the window is below 80% of it.
   */
  method DetectKeyboard(page: Page) returns (visible: bool)
    modifies page
    ensures page.initialHeight == if TruthyNumber(old(page.initialHeight)) then old(page.initialHeight) else Some(page.innerHeight)
    ensures visible <==> TruthyNumber(page.initialHeight) && page.innerHeight < page.initialHeight.value * KeyboardRatio
    ensures page.bodyClasses == if visible then old(page.bodyClasses) + {KeyboardVisibleClass} else old(page.bodyClasses) - {KeyboardVisibleClass}
    ensures page.innerWidth == old(page.innerWidth) && page.innerHeight == old(page.innerHeight)
    ensures page.scrollY == old(page.scrollY) && page.pendingScroll == old(page.pendingScroll)
  {
    if !TruthyNumber(page.initialHeight) {
      page.initialHeight := Some(page.innerHeight);
    }
    visible := if TruthyNumber(page.initialHeight) then page.innerHeight < page.initialHeight.value * KeyboardRatio else false;
    if visible {
      page.bodyClasses := page.bodyClasses + {KeyboardVisibleClass};
    } else {
      page.bodyClasses := page.bodyClasses - {KeyboardVisibleClass};
    }
  }

  /** The height recorded first is never the one that reveals a keyboard: a positive height is not below 80% of itself. */
  lemma FirstHeightShowsNoKeyboard(h: real)
    requires h > 0.0
    ensures !(h < h * KeyboardRatio)
  {
  }

  /**
   * The mount effect and the resize / orientation handler: take the app
   * height (`setAppHeight` returns the window height), detect the keyboard
   * and replace the state wholesale. Apart from the keyboard flag the new
   * state is the one the hook would start with in a window of this size; the
   * body's `keyboard-visible` class mirrors the flag, and no other class and
   * no scroll changes.
   */
  method HandleResize(page: Page) returns (state: ViewportState)
    modifies page
    ensures page.initialHeight == if TruthyNumber(old(page.initialHeight)) then old(page.initialHeight) else Some(page.innerHeight)
    ensures state.isMobile <==> page.innerWidth < 768.0
    ensures state.isSmallMobile <==> page.innerWidth < 480.0
    ensures state.isKeyboardVisible <==> TruthyNumber(page.initialHeight) && page.innerHeight < page.initialHeight.value * KeyboardRatio
    ensures state.width == page.innerWidth && state.height == page.innerHeight && state.appHeight == page.innerHeight
    ensures state.(isKeyboardVisible := false) == InitialState(page.innerWidth, page.innerHeight)
    ensures KeyboardVisibleClass in page.bodyClasses <==> state.isKeyboardVisible
    ensures page.bodyClasses - {KeyboardVisibleClass} == old(page.bodyClasses) - {KeyboardVisibleClass}
    ensures page.innerWidth == old(page.innerWidth) && page.innerHeight == old(page.innerHeight)
    ensures page.scrollY == old(page.scrollY) && page.pendingScroll == old(page.pendingScroll)
  {
    var appHeight := page.innerHeight;
    var isKeyboardVisible := DetectKeyboard(page);
    state := ViewportState(page.innerWidth < 768.0, page.innerWidth < 480.0, isKeyboardVisible,
                           page.innerWidth, page.innerHeight, appHeight);
  }

  /** A window that saw a truthy height keeps it across later resizes, whatever the new height. */
  method ResizeKeepsInitialHeight(page: Page, newHeight: real) returns (state: ViewportState)
    requires TruthyNumber(page.initialHeight)
    modifies page
    ensures page.initialHeight == old(page.initialHeight)
    ensures state.isKeyboardVisible <==> newHeight < old(page.initialHeight).value * KeyboardRatio
  {
    page.innerHeight := newHeight;
    state := HandleResize(page);
  }

  /**
   * `preventInputScroll`: marks the body as input-focused with the keyboard
   * up and schedules a window scroll that keeps the header and the input in
   * view, never above the top of the page.
   */
  method PreventInputScroll(page: Page, inputRect: Rect)
    modifies page
    ensures page.bodyClasses == old(page.bodyClasses) + {InputFocusedClass, KeyboardVisibleClass}
    ensures page.pendingScroll == Some(MaxOf(0.0, inputRect.top + old(page.scrollY) - FocusHeaderHeight - FocusPadding))
    ensures page.pendingScroll.value >= 0.0
    ensures page.scrollY == old(page.scrollY) && page.initialHeight == old(page.initialHeight)
    ensures page.innerWidth == old(page.innerWidth) && page.innerHeight == old(page.innerHeight)
  {
    var scrollY := page.scrollY;
    var inputTop := inputRect.top + scrollY;
    page.bodyClasses := page.bodyClasses + {InputFocusedClass};
    page.bodyClasses := page.bodyClasses + {KeyboardVisibleClass};
    var adjustedScroll := MaxOf(0.0, inputTop - FocusHeaderHeight - FocusPadding);
    page.pendingScroll := Some(adjustedScroll);
  }

  /** The focus handler's target is the DOM helper's adjusted position with its default header height and padding. */
  lemma FocusTargetIsAdjustedPosition(inputRect: Rect, scrollY: real)
    ensures MaxOf(0.0, inputRect.top + scrollY - FocusHeaderHeight - FocusPadding)
         == AdjustedScrollPosition(inputRect, scrollY, DefaultHeaderHeight, DefaultPadding)
  {
  }

  /** The 10 ms timer of `preventInputScroll` fires: the window scrolls to the scheduled position. */
  method ScrollTimerFires(page: Page)
    modifies page
    ensures old(page.pendingScroll).Some? ==> page.scrollY == old(page.pendingScroll).value && page.pendingScroll == None
    ensures old(page.pendingScroll).None? ==> page.scrollY == old(page.scrollY) && page.pendingScroll == None
    ensures page.bodyClasses == old(page.bodyClasses) && page.initialHeight == old(page.initialHeight)
    ensures page.innerWidth == old(page.innerWidth) && page.innerHeight == old(page.innerHeight)
  {
    if page.pendingScroll.Some? {
      page.scrollY := page.pendingScroll.value;
    }
    page.pendingScroll := None;
  }

  /** `handleInputBlur`: removes both focus classes and nothing else. */
  method HandleInputBlur(page: Page)
    modifies page
    ensures page.bodyClasses == old(page.bodyClasses) - {InputFocusedClass, KeyboardVisibleClass}
    ensures page.scrollY == old(page.scrollY) && page.pendingScroll == old(page.pendingScroll)
    ensures page.initialHeight == old(page.initialHeight)
    ensures page.innerWidth == old(page.innerWidth) && page.innerHeight == old(page.innerHeight)
  {
    page.bodyClasses := page.bodyClasses - {InputFocusedClass};
    page.bodyClasses := page.bodyClasses - {KeyboardVisibleClass};
  }

  /** Focus then blur: neither focus class remains, and any other class is as before. */
  method FocusThenBlur(page: Page, inputRect: Rect)
    modifies page
    ensures InputFocusedClass !in page.bodyClasses && KeyboardVisibleClass !in page.bodyClasses
    ensures page.bodyClasses == old(page.bodyClasses) - {InputFocusedClass, KeyboardVisibleClass}
  {
    PreventInputScroll(page, inputRect);
    HandleInputBlur(page);
  }
}
