/**
 * The chat scrolling hook: two flags derived from the distance between the
 * scroll position and the bottom of the chat container, the scroll-to-bottom
 * button, and the auto-scroll on new content.
 */
module Scrolling {

  /** The scroll button shows beyond this many pixels from the bottom. */
  const ScrolledUpDistance: real := 100.0
  /** New content scrolls the chat down only within this many pixels of the bottom. */
  const AutoScrollDistance: real := 50.0

  /** The chat container's scroll geometry. */
  class Container {
    var scrollHeight: real
    var scrollTop: real
    var clientHeight: real

    constructor (scrollHeight: real, scrollTop: real, clientHeight: real)
      requires scrollHeight >= 0.0 && clientHeight >= 0.0
      ensures Valid()
      ensures this.scrollHeight == scrollHeight && this.scrollTop == scrollTop && this.clientHeight == clientHeight
    {
      this.scrollHeight := scrollHeight;
      this.scrollTop := scrollTop;
      this.clientHeight := clientHeight;
    }

    /** Heights are never negative. */
    predicate Valid()
      reads this
    {
      scrollHeight >= 0.0 && clientHeight >= 0.0
    }

    /** How far the visible part ends above the bottom of the content. */
    function DistanceFromBottom(): real
      reads this
    {
      scrollHeight - scrollTop - clientHeight
    }

    /** The largest scroll position: the content's bottom at the view's bottom, or 0 for short content. */
    function MaxScrollTop(): (m: real)
      reads this
      ensures m >= 0.0
      ensures scrollHeight >= clientHeight ==> m + clientHeight == scrollHeight
    {
      if scrollHeight - clientHeight > 0.0 then scrollHeight - clientHeight else 0.0
    }

    /**
     * Setting `scrollTop` (or `scrollTo` with a `top`, once the smooth
     * animation is over): the browser clamps the position between 0 and the
     * largest one, and the content and the view keep their heights.
     */
    method ScrollTo(top: real)
      modifies this
      ensures scrollHeight == old(scrollHeight) && clientHeight == old(clientHeight)
      ensures 0.0 <= scrollTop <= MaxScrollTop()
      ensures scrollTop == if top < 0.0 then 0.0 else if top > MaxScrollTop() then MaxScrollTop() else top
    {
      var m := MaxScrollTop();
      scrollTop := if top < 0.0 then 0.0 else if top > m then m else top;
    }

    /** Scrolling to the content's height lands on the bottom: no distance is left unless the content is shorter than the view. */
    method ScrollToEnd()
      requires Valid()
      modifies this
      ensures Valid()
      ensures scrollHeight == old(scrollHeight) && clientHeight == old(clientHeight)
      ensures scrollTop == MaxScrollTop()
      ensures scrollHeight >= clientHeight ==> DistanceFromBottom() == 0.0
    {
      ScrollTo(scrollHeight);
    }
  }

  /** Scrolled up: more than 100 px from the bottom. */
  function IsScrolledUp(distance: real): bool
  {
    distance > ScrolledUpDistance
  }

  /** Follow new content: less than 50 px from the bottom. */
  function ShouldAutoScroll(distance: real): bool
  {
    distance < AutoScrollDistance
  }

  /** The two flags are never both set, and both are clear in the band from 50 to 100 px. */
  lemma FlagsExclusive(distance: real)
    ensures !(IsScrolledUp(distance) && ShouldAutoScroll(distance))
    ensures AutoScrollDistance <= distance <= ScrolledUpDistance <==> !IsScrolledUp(distance) && !ShouldAutoScroll(distance)
  {
  }

  class ScrollState {
    var isScrolledUp: bool
    var shouldAutoScroll: bool

    /** Not scrolled up, following new content. */
    constructor ()
      ensures !isScrolledUp && shouldAutoScroll
    {
      isScrolledUp := false;
      shouldAutoScroll := true;
    }

    /** The flags never contradict each other. */
    predicate Valid()
      reads this
    {
      !(isScrolledUp && shouldAutoScroll)
    }

    /** `handleScroll` (on scroll, touch move, touch end and at mount): both flags from the current distance. */
    method HandleScroll(container: Container)
      modifies this
      ensures Valid()
      ensures isScrolledUp == IsScrolledUp(container.DistanceFromBottom())
      ensures shouldAutoScroll == ShouldAutoScroll(container.DistanceFromBottom())
    {
      var distanceFromBottom := container.DistanceFromBottom();
      FlagsExclusive(distanceFromBottom);
      isScrolledUp := IsScrolledUp(distanceFromBottom);
      shouldAutoScroll := ShouldAutoScroll(distanceFromBottom);
    }

    /**
     * `scrollToBottom`: scrolls the container to its bottom, hides the button
     * and resumes following; a scroll event at the new position agrees.
     */
    method ScrollToBottom(container: Container)
      requires container.Valid()
      modifies this, container
      ensures Valid()
      ensures !isScrolledUp && shouldAutoScroll
      ensures container.scrollHeight == old(container.scrollHeight) && container.clientHeight == old(container.clientHeight)
      ensures container.scrollTop == container.MaxScrollTop()
      ensures container.scrollHeight >= container.clientHeight ==>
        !IsScrolledUp(container.DistanceFromBottom()) && ShouldAutoScroll(container.DistanceFromBottom())
    {
      container.ScrollToEnd();
      isScrolledUp := false;
      shouldAutoScroll := true;
    }

    /** The mutation observer: new content scrolls the container to its bottom exactly when following. */
    method OnMutation(container: Container)
      requires container.Valid()
      modifies container
      ensures container.scrollHeight == old(container.scrollHeight) && container.clientHeight == old(container.clientHeight)
      ensures container.scrollTop == if shouldAutoScroll then container.MaxScrollTop() else old(container.scrollTop)
      ensures shouldAutoScroll && container.scrollHeight >= container.clientHeight ==> container.DistanceFromBottom() == 0.0
    {
      if shouldAutoScroll {
        container.ScrollToEnd();
      }
    }
  }

  /** A user who scrolled up more than 100 px is not pulled down by new content. */
  method ScrolledUpStaysPut(state: ScrollState, container: Container)
    requires container.Valid() && container.DistanceFromBottom() > ScrolledUpDistance
    modifies state, container
    ensures state.isScrolledUp
    ensures container.scrollTop == old(container.scrollTop)
  {
    state.HandleScroll(container);
    state.OnMutation(container);
  }
}
