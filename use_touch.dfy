/** The swipe detector of src/hooks/use-touch/index.ts: a touch record
 *  updated in place by the start and move handlers, and classified by the
 *  end handler. Coordinates are integers here; they are only subtracted and
 *  compared. */
module Touch {
  import opened Wrappers

  datatype Swipe = Left | Right | Up | Down

  /** Which of the four swipe callbacks the caller supplied. */
  datatype Handlers = Handlers(left: bool, right: bool, up: bool, down: bool)

  const DefaultThreshold := 50

  function Abs(n: int): (r: nat)
    ensures r == n || r == -n
  {
    if n < 0 then -n else n
  }

  /** The swipe `handleTouchEnd` reports for a displacement, if any: the
   *  horizontal branch when the horizontal displacement is strictly larger,
   *  right tested before left and down before up. */
  function SwipeOf(dx: int, dy: int, threshold: int, h: Handlers): Option<Swipe> {
    if Abs(dx) > Abs(dy) then
      if dx > threshold && h.right then Some(Right)
      else if dx < -threshold && h.left then Some(Left)
      else None
    else
      if dy > threshold && h.down then Some(Down)
      else if dy < -threshold && h.up then Some(Up)
      else None
  }

  /** A horizontal swipe needs |dx| > |dy|; ties go to the vertical axis. */
  lemma SwipeAxis(dx: int, dy: int, threshold: int, h: Handlers)
    ensures SwipeOf(dx, dy, threshold, h) in {Some(Left), Some(Right)} ==> Abs(dx) > Abs(dy)
    ensures SwipeOf(dx, dy, threshold, h) in {Some(Up), Some(Down)} ==> Abs(dx) <= Abs(dy)
  {
  }

  /** Each swipe fires exactly when its strict threshold test passes, its
   *  callback is present and no earlier test in the same branch took it. */
  lemma SwipeThresholds(dx: int, dy: int, threshold: int, h: Handlers)
    ensures SwipeOf(dx, dy, threshold, h) == Some(Right) <==> Abs(dx) > Abs(dy) && dx > threshold && h.right
    ensures SwipeOf(dx, dy, threshold, h) == Some(Left) <==>
              Abs(dx) > Abs(dy) && dx < -threshold && h.left && !(dx > threshold && h.right)
    ensures SwipeOf(dx, dy, threshold, h) == Some(Down) <==> Abs(dx) <= Abs(dy) && dy > threshold && h.down
    ensures SwipeOf(dx, dy, threshold, h) == Some(Up) <==>
              Abs(dx) <= Abs(dy) && dy < -threshold && h.up && !(dy > threshold && h.down)
  {
  }

  /** With a non-negative threshold the earlier test never hides the later
   *  one, and a displacement within the threshold fires nothing. */
  lemma NonNegativeThreshold(dx: int, dy: int, threshold: int, h: Handlers)
    requires threshold >= 0
    ensures SwipeOf(dx, dy, threshold, h) == Some(Left) <==> Abs(dx) > Abs(dy) && dx < -threshold && h.left
    ensures SwipeOf(dx, dy, threshold, h) == Some(Up) <==> Abs(dx) <= Abs(dy) && dy < -threshold && h.up
    ensures Abs(dx) <= threshold && Abs(dy) <= threshold ==> SwipeOf(dx, dy, threshold, h) == None
  {
  }

  /** A negative threshold makes both horizontal tests pass; a missing
   *  right-swipe callback then lets the left one fire on a rightward move. */
  lemma NegativeThresholdEdge()
    ensures SwipeOf(10, 0, -20, Handlers(true, false, true, true)) == Some(Left)
  {
  }

  class Tracker {
    var startX: int
    var startY: int
    var endX: int
    var endY: int
    var deltaX: int
    var deltaY: int
    const threshold: int
    const handlers: Handlers

    /** `useTouch(options)`: all coordinates 0, threshold 50 unless given. */
    constructor (threshold: Option<int>, handlers: Handlers)
      ensures startX == 0 && startY == 0 && endX == 0 && endY == 0 && deltaX == 0 && deltaY == 0
      ensures this.threshold == threshold.GetOr(DefaultThreshold)
      ensures this.handlers == handlers
    {
      startX, startY, endX, endY, deltaX, deltaY := 0, 0, 0, 0, 0, 0;
      this.threshold := threshold.GetOr(DefaultThreshold);
      this.handlers := handlers;
    }

    /** The touch begins at (x, y) with no displacement. */
    method HandleTouchStart(x: int, y: int)
      modifies this
      ensures startX == x && startY == y && endX == x && endY == y
      ensures deltaX == 0 && deltaY == 0
    {
      startX := x;
      startY := y;
      endX := x;
      endY := y;
      deltaX := 0;
      deltaY := 0;
    }

    /** The touch moves to (x, y); the deltas are measured from the start. */
    method HandleTouchMove(x: int, y: int)
      modifies this
      ensures startX == old(startX) && startY == old(startY)
      ensures endX == x && endY == y
      ensures deltaX == x - startX && deltaY == y - startY
    {
      endX := x;
      endY := y;
      deltaX := endX - startX;
      deltaY := endY - startY;
    }

    /** The swipe callback (at most one) fired on release. */
    method HandleTouchEnd() returns (fired: Option<Swipe>)
      ensures fired == SwipeOf(deltaX, deltaY, threshold, handlers)
    {
      if Abs(deltaX) > Abs(deltaY) {
        if deltaX > threshold && handlers.right {
          fired := Some(Right);
        } else if deltaX < -threshold && handlers.left {
          fired := Some(Left);
        } else {
          fired := None;
        }
      } else {
        if deltaY > threshold && handlers.down {
          fired := Some(Down);
        } else if deltaY < -threshold && handlers.up {
          fired := Some(Up);
        } else {
          fired := None;
        }
      }
    }
  }

  /** A touch released where it started fires no swipe when the threshold is
   *  not negative. */
  method Tap(t: Tracker, x: int, y: int) returns (fired: Option<Swipe>)
    requires t.threshold >= 0
    modifies t
    ensures fired == None
  {
    t.HandleTouchStart(x, y);
    fired := t.HandleTouchEnd();
    NonNegativeThreshold(t.deltaX, t.deltaY, t.threshold, t.handlers);
  }

  /** Start, one move, release: the swipe is decided by the displacement
   *  between the two touch points. */
  method Gesture(t: Tracker, x0: int, y0: int, x1: int, y1: int) returns (fired: Option<Swipe>)
    modifies t
    ensures fired == SwipeOf(x1 - x0, y1 - y0, t.threshold, t.handlers)
  {
    t.HandleTouchStart(x0, y0);
    t.HandleTouchMove(x1, y1);
    fired := t.HandleTouchEnd();
  }
}
