/** The decision logic of `handleScroll` in src/hooks/use-scroll/index.ts:
 *  the scroll direction against the previous offset, the info handed to
 *  `onScroll`, and the reach-top and reach-bottom tests. The offsets and
 *  heights read from the window or the target element are parameters. */
module Scroll {
  import opened Wrappers

  datatype Direction = Down | Up

  datatype ScrollInfo = ScrollInfo(scrollX: int, scrollY: int, isScrolling: bool, direction: Option<Direction>)

  /** What one handled event reports: the info for `onScroll`, and whether
   *  `onReachTop` and `onReachBottom` are called. */
  datatype ScrollEvents = ScrollEvents(info: ScrollInfo, reachTop: bool, reachBottom: bool)

  const DefaultBottomOffset := 100

  /** The direction of a move from `last` to `y`; none when they are equal. */
  function DirectionOf(y: int, last: int): (d: Option<Direction>)
    ensures d == Some(Down) <==> y > last
    ensures d == Some(Up) <==> y < last
    ensures d == None <==> y == last
  {
    if y > last then Some(Down) else if y < last then Some(Up) else None
  }

  /** Moving back reverses the direction. */
  lemma DirectionReverses(a: int, b: int)
    ensures DirectionOf(a, b) == Some(Down) <==> DirectionOf(b, a) == Some(Up)
    ensures DirectionOf(a, b) == None <==> DirectionOf(b, a) == None
  {
  }

  /** The bottom is reached when the visible part ends within `offset` of
   *  the scrollable height. */
  predicate AtBottom(y: int, clientHeight: int, scrollHeight: int, offset: int) {
    y + clientHeight >= scrollHeight - offset
  }

  lemma AtBottomMonotone(y: int, y2: int, clientHeight: int, scrollHeight: int, offset: int)
    requires y <= y2 && AtBottom(y, clientHeight, scrollHeight, offset)
    ensures AtBottom(y2, clientHeight, scrollHeight, offset)
  {
  }

  class ScrollTracker {
    var lastScrollY: int
    var info: ScrollInfo
    const bottomOffset: int
    const hasReachTop: bool
    const hasReachBottom: bool

    /** `useScroll(options)`: at rest at the origin, bottom offset 100 unless
     *  given. */
    constructor (bottomOffset: Option<int>, hasReachTop: bool, hasReachBottom: bool)
      ensures lastScrollY == 0 && info == ScrollInfo(0, 0, false, None)
      ensures this.bottomOffset == bottomOffset.GetOr(DefaultBottomOffset)
      ensures this.hasReachTop == hasReachTop && this.hasReachBottom == hasReachBottom
    {
      lastScrollY := 0;
      info := ScrollInfo(0, 0, false, None);
      this.bottomOffset := bottomOffset.GetOr(DefaultBottomOffset);
      this.hasReachTop := hasReachTop;
      this.hasReachBottom := hasReachBottom;
    }

    /** One scroll event at offset (x, y). */
    method HandleScroll(x: int, y: int, clientHeight: int, scrollHeight: int) returns (events: ScrollEvents)
      modifies this
      ensures lastScrollY == y
      ensures info == ScrollInfo(x, y, true, DirectionOf(y, old(lastScrollY)))
      ensures events.info == info
      ensures events.reachTop <==> y == 0 && hasReachTop
      ensures events.reachBottom <==> AtBottom(y, clientHeight, scrollHeight, bottomOffset) && hasReachBottom
    {
      var direction: Option<Direction> := None;
      if y > lastScrollY {
        direction := Some(Down);
      } else if y < lastScrollY {
        direction := Some(Up);
      }
      var current := ScrollInfo(x, y, true, direction);
      info := current;
      lastScrollY := y;
      var top := y == 0 && hasReachTop;
      var bottom := y + clientHeight >= scrollHeight - bottomOffset && hasReachBottom;
      events := ScrollEvents(current, top, bottom);
    }
  }

  /** Two events at the same vertical offset: the second has no direction. */
  method ScrollInPlace(t: ScrollTracker, x: int, y: int, clientHeight: int, scrollHeight: int)
    returns (second: ScrollEvents)
    modifies t
    ensures second.info.direction == None
  {
    var first := t.HandleScroll(x, y, clientHeight, scrollHeight);
    second := t.HandleScroll(x, y, clientHeight, scrollHeight);
  }
}
