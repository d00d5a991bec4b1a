/** The scroll controller of `useChatScroll`: whether the chat view is scrolled to (near) its
    bottom, the instant and the animated jump to the bottom, and the pin that keeps the view
    at the bottom while new content arrives.

    The container element is an object whose `scrollTop` the controller assigns in place; it
    may be absent (`null`) before it is attached. `scrollTop` is real because the animation
    writes fractional offsets; the two heights are the element's integer measurements. */
module UseChatScroll {

  datatype Option<T> = None | Some(value: T)

  /** How close to the end of the content, in pixels, still counts as being at the bottom. */
  const BottomTolerance: int := 200

  /** Length of the smooth scroll, in milliseconds. */
  const Duration: real := 300.0

  /** The scrollable element: its vertical offset, the height of its whole content and the
      height of its visible area. */
  class ScrollContainer {
    var scrollTop: real
    var scrollHeight: int
    var clientHeight: int

    constructor (scrollTop: real, scrollHeight: int, clientHeight: int)
      ensures this.scrollTop == scrollTop && this.scrollHeight == scrollHeight
      ensures this.clientHeight == clientHeight
    {
      this.scrollTop := scrollTop;
      this.scrollHeight := scrollHeight;
      this.clientHeight := clientHeight;
    }
  }

  // ---------------------------------------------------------------------------------------
  // The animation curve

  /** What a smooth scroll fixes when it starts: where it starts, how far it goes, and when. */
  datatype Animation = Animation(startScrollTop: real, distance: real, startTime: real)

  /** The fraction of the animation done after `elapsed` milliseconds, capped at 1. */
  function Progress(elapsed: real): (p: real)
    ensures p <= 1.0
    ensures p == 1.0 <==> elapsed >= Duration
    ensures p < 1.0 ==> p * Duration == elapsed
    ensures 0.0 <= elapsed ==> 0.0 <= p
  {
    if elapsed / Duration < 1.0 then elapsed / Duration else 1.0
  }

  function Cube(x: real): real {
    x * x * x
  }

  /** Cubic ease-in-out: slow, fast, slow. It starts at 0 and ends at 1. */
  function EaseInOutCubic(p: real): (e: real)
    ensures p == 0.0 ==> e == 0.0
    ensures p == 1.0 ==> e == 1.0
  {
    if p < 0.5 then 4.0 * p * p * p else 1.0 - Cube(-2.0 * p + 2.0) / 2.0
  }

  lemma MulNonNegative(a: real, b: real)
    requires 0.0 <= a && 0.0 <= b
    ensures 0.0 <= a * b
  {
  }

  lemma MulMonotonic(a: real, b: real, c: real)
    requires 0.0 <= a && b <= c
    ensures a * b <= a * c
  {
    MulNonNegative(a, c - b);
  }

  /** Between 0 and `bound` (at most 1), the cube stays between 0 and the cube of `bound`. */
  lemma CubeBounds(x: real, bound: real)
    requires 0.0 <= x <= bound <= 1.0
    ensures 0.0 <= Cube(x) <= bound * bound * bound
  {
    MulNonNegative(x, x);
    MulNonNegative(x * x, x);
    MulMonotonic(x, x, bound);
    MulMonotonic(bound, x, bound);
    assert x * bound == bound * x;
    assert x * x <= bound * bound;
    MulMonotonic(x * x, x, bound);
    MulMonotonic(bound, x * x, bound * bound);
    assert (x * x) * bound == bound * (x * x);
  }

  /** On the animation's time interval the eased value stays between 0 and 1. */
  lemma EaseBounds(p: real)
    requires 0.0 <= p <= 1.0
    ensures 0.0 <= EaseInOutCubic(p) <= 1.0
  {
    if p < 0.5 {
      CubeBounds(p, 0.5);
      assert 4.0 * p * p * p == 4.0 * Cube(p);
    } else {
      CubeBounds(-2.0 * p + 2.0, 1.0);
    }
  }

  /** The offset a frame at `currentTime` assigns. */
  function FramePosition(a: Animation, currentTime: real): real {
    a.startScrollTop + a.distance * EaseInOutCubic(Progress(currentTime - a.startTime))
  }

  /** A frame at or after the end of the animation lands exactly on the target. */
  lemma FinalFrameReachesTarget(a: Animation, currentTime: real)
    requires currentTime - a.startTime >= Duration
    ensures Progress(currentTime - a.startTime) == 1.0
    ensures FramePosition(a, currentTime) == a.startScrollTop + a.distance
  {
  }

  /** A frame that is not before the start never leaves the range from start to target. */
  lemma FramePositionBetween(a: Animation, currentTime: real)
    requires currentTime >= a.startTime
    ensures a.distance >= 0.0 ==>
      a.startScrollTop <= FramePosition(a, currentTime) <= a.startScrollTop + a.distance
    ensures a.distance <= 0.0 ==>
      a.startScrollTop + a.distance <= FramePosition(a, currentTime) <= a.startScrollTop
  {
    var e := EaseInOutCubic(Progress(currentTime - a.startTime));
    EaseBounds(Progress(currentTime - a.startTime));
    if a.distance >= 0.0 {
      MulMonotonic(a.distance, 0.0, e);
      MulMonotonic(a.distance, e, 1.0);
    } else {
      MulMonotonic(-a.distance, 0.0, e);
      MulMonotonic(-a.distance, e, 1.0);
    }
  }

  // ---------------------------------------------------------------------------------------
  // The controller

  class ChatScroll {
    /** The element bound to the template ref, or null while it is not attached. */
    var container: ScrollContainer?
    var isAtBottom: bool
    var showScrollButton: bool

    /** The button is shown exactly when the view is not at the bottom. The constructor
        establishes it and every method keeps it. */
    ghost predicate Valid()
      reads this
    {
      showScrollButton == !isAtBottom
    }

    /** Initially the view counts as being at the bottom and the button is hidden. */
    constructor (container: ScrollContainer?)
      ensures Valid() && this.container == container
      ensures isAtBottom && !showScrollButton
    {
      this.container := container;
      isAtBottom := true;
      showScrollButton := false;
    }

    /** Recomputes both flags from the container's geometry; without a container it does
        nothing. It runs on every scroll event and after every re-render. */
    method CheckScrollPosition()
      modifies this`isAtBottom, this`showScrollButton
      ensures container != null ==>
        isAtBottom == (container.scrollTop + container.clientHeight as real
                         >= (container.scrollHeight - BottomTolerance) as real)
      ensures container != null ==> showScrollButton == !isAtBottom
      ensures container == null ==>
        isAtBottom == old(isAtBottom) && showScrollButton == old(showScrollButton)
      ensures old(Valid()) ==> Valid()
    {
      if container != null {
        isAtBottom := container.scrollTop + container.clientHeight as real
                        >= (container.scrollHeight - BottomTolerance) as real;
        showScrollButton := !isAtBottom;
      }
    }

    /** Scrolls to the bottom. With `immediate` the offset is set at once to the largest one
        that still shows a full viewport; otherwise nothing moves yet and the first frame of
        an animation from the current offset to that target is requested, started at `now`.
        Without a container it does nothing and requests no frame. */
    method ScrollToBottom(immediate: bool, now: real) returns (frame: Option<Animation>)
      modifies container
      ensures old(Valid()) ==> Valid()
      ensures container == null ==> frame == None
      ensures container != null ==>
        container.scrollHeight == old(container.scrollHeight) &&
        container.clientHeight == old(container.clientHeight)
      ensures container != null && immediate ==>
        frame == None &&
        container.scrollTop == (container.scrollHeight - container.clientHeight) as real
      ensures container != null && !immediate ==>
        container.scrollTop == old(container.scrollTop) &&
        frame == Some(Animation(container.scrollTop,
                                (container.scrollHeight - container.clientHeight) as real
                                  - container.scrollTop,
                                now)) &&
        frame.value.startScrollTop + frame.value.distance
          == (container.scrollHeight - container.clientHeight) as real
    {
      if container == null {
        return None;
      }
      var targetScrollTop := (container.scrollHeight - container.clientHeight) as real;
      if immediate {
        container.scrollTop := targetScrollTop;
        return None;
      }
      var startScrollTop := container.scrollTop;
      var distance := targetScrollTop - startScrollTop;
      frame := Some(Animation(startScrollTop, distance, now));
    }

    /** One animation frame at `currentTime`: if the container is still there, assigns the
        eased offset, and requests the next frame exactly while the animation is unfinished. */
    method Step(a: Animation, currentTime: real) returns (reschedule: bool)
      modifies container
      ensures old(Valid()) ==> Valid()
      ensures container != null ==>
        container.scrollTop == FramePosition(a, currentTime) &&
        container.scrollHeight == old(container.scrollHeight) &&
        container.clientHeight == old(container.clientHeight)
      ensures reschedule <==> container != null && Progress(currentTime - a.startTime) < 1.0
      ensures reschedule ==> currentTime - a.startTime < Duration
    {
      var elapsed := currentTime - a.startTime;
      var progress := Progress(elapsed);
      var eased := EaseInOutCubic(progress);
      reschedule := false;
      if container != null {
        container.scrollTop := a.startScrollTop + a.distance * eased;
        if progress < 1.0 {
          reschedule := true;
        }
      }
    }

    /** Keeps the view pinned while content arrives: only when it was at the bottom, and only
        with a container, the offset is set to the whole content height, read after the
        render flush. Otherwise nothing changes. */
    method PinToBottom()
      modifies container
      ensures old(Valid()) ==> Valid()
      ensures container != null ==>
        container.scrollHeight == old(container.scrollHeight) &&
        container.clientHeight == old(container.clientHeight)
      ensures container != null && isAtBottom ==>
        container.scrollTop == container.scrollHeight as real
      ensures container != null && !isAtBottom ==>
        container.scrollTop == old(container.scrollTop)
    {
      if isAtBottom {
        if container != null {
          container.scrollTop := container.scrollHeight as real;
        }
      }
    }
  }
}
