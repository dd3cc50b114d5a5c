/**
 * ScrollableContainer of lumina/widgets/scrollable.py: a plain container
 * whose children are stacked with a gap of 8 and shifted by the scroll
 * offsets, with a vertical and a horizontal scrollbar that appear when the
 * content outgrows the viewport, wheel scrolling, thumb dragging, and event
 * dispatch to the children the viewport shows. The viewport is float('inf')
 * after calculate_size with an unbounded offer, so it is an Extent; layout
 * always leaves it finite. Painting is not modelled.
 */
module Scrolling {
  import opened Options
  import opened Geometry
  import opened Events
  import opened Layouts
  import opened Tree
  import opened Cards

  /** The distance one wheel notch scrolls. */
  const WheelStep: real := 30.0

  /** The shortest thumb. */
  const MinThumb: real := 20.0

  /** max(0, content − viewport): how far the content can scroll; nothing against an unbounded viewport. */
  function MaxScroll(content: real, viewport: Extent): (m: real)
    ensures m >= 0.0
    ensures viewport.Below(content) ==> m == content - viewport.value
    ensures !viewport.Below(content) ==> m == 0.0
  {
    if viewport.Unbounded? then 0.0 else Max(0.0, content - viewport.value)
  }

  /** max(0, min(v, limit)): the scroll clamp of the wheel and the drag. */
  function ClampScroll(v: real, limit: real): (r: real)
    ensures limit >= 0.0 ==> 0.0 <= r <= limit
    ensures 0.0 <= v <= limit ==> r == v
    ensures v < 0.0 ==> r == 0.0
    ensures limit >= 0.0 && v > limit ==> r == limit
  {
    Max(0.0, Min(v, limit))
  }

  /** Clamping an already clamped offset changes nothing. */
  lemma ClampIdempotent(v: real, limit: real)
    requires limit >= 0.0
    ensures ClampScroll(ClampScroll(v, limit), limit) == ClampScroll(v, limit)
  {
  }

  /** The offset after a wheel event of the given notches (positive scrolls up). */
  function WheelScroll(scroll: real, notches: int, limit: real): (r: real)
    ensures limit >= 0.0 ==> 0.0 <= r <= limit
  {
    ClampScroll(scroll - notches as real * WheelStep, limit)
  }

  /** Content 500 high in a viewport 200 high scrolls over [0, 300]. */
  lemma ScrollRangeExample(scroll: real, notches: int)
    ensures MaxScroll(500.0, Finite(200.0)) == 300.0
    ensures 0.0 <= WheelScroll(scroll, notches, MaxScroll(500.0, Finite(200.0))) <= 300.0
  {
  }

  /** Scrolling back by the same notches undoes a wheel step that stayed inside the range. */
  lemma WheelRoundTrip(scroll: real, notches: int, limit: real)
    requires 0.0 <= scroll <= limit
    requires 0.0 <= scroll - notches as real * WheelStep <= limit
    ensures WheelScroll(WheelScroll(scroll, notches, limit), -notches, limit) == scroll
  {
    var mid := scroll - notches as real * WheelStep;
    assert WheelScroll(scroll, notches, limit) == mid;
    assert (-notches) as real * WheelStep == -(notches as real * WheelStep);
  }

  /** viewport / content, the share of the content the viewport shows (0 for an empty content). */
  function ThumbRatio(viewport: real, content: real): (r: real)
    ensures 0.0 <= viewport < content ==> 0.0 <= r < 1.0
  {
    if content == 0.0 then 0.0 else ShareBelowOne(viewport, content); viewport / content
  }

  lemma ShareBelowOne(v: real, c: real)
    requires c != 0.0
    ensures 0.0 <= v < c ==> 0.0 <= v / c < 1.0
  {
    if 0.0 <= v < c {
      MulStrictMonotone(v, c, 1.0 / c);
      assert v / c == v * (1.0 / c) && c * (1.0 / c) == 1.0;
    }
  }

  /** The thumb's length along its axis: max(20, viewport · viewport / content). */
  function ThumbLength(viewport: real, content: real): (t: real)
    requires content > viewport
    ensures t >= MinThumb
    ensures 0.0 <= viewport ==> t <= Max(MinThumb, viewport)
  {
    var r := ThumbRatio(viewport, content);
    ScaledByShare(viewport, r);
    Max(MinThumb, viewport * r)
  }

  /** A non-negative length scaled by a share below 1 does not grow. */
  lemma ScaledByShare(v: real, r: real)
    ensures 0.0 <= v && 0.0 <= r < 1.0 ==> v * r <= v
  {
    if 0.0 < v && 0.0 <= r < 1.0 {
      MulMonotone(r, 1.0, v);
    }
  }

  /**
   * Where the thumb starts: the track start plus the scrolled share of the
   * track the thumb can travel.
   */
  function ThumbStart(start: real, scroll: real, viewport: real, content: real, thumb: real): real
    requires content > viewport
  {
    start + scroll / (content - viewport) * (viewport - thumb)
  }

  /** Scroll 0 puts the thumb at the track's start, the largest scroll at its end. */
  lemma ThumbAtEnds(start: real, viewport: real, content: real, thumb: real)
    requires content > viewport
    ensures ThumbStart(start, 0.0, viewport, content, thumb) == start
    ensures ThumbStart(start, content - viewport, viewport, content, thumb) == start + viewport - thumb
  {
    assert (content - viewport) / (content - viewport) == 1.0;
  }

  /** A scroll inside its range keeps a thumb no longer than the viewport inside the track. */
  lemma ThumbWithinTrack(start: real, scroll: real, viewport: real, content: real, thumb: real)
    requires content > viewport && thumb <= viewport
    requires 0.0 <= scroll <= content - viewport
    ensures start <= ThumbStart(start, scroll, viewport, content, thumb) <= start + viewport - thumb
  {
    var f := scroll / (content - viewport);
    assert 0.0 <= f <= 1.0 by {
      MulMonotone(scroll, content - viewport, 1.0 / (content - viewport));
    }
    MulMonotone(0.0, f, viewport - thumb + 1.0);
    if viewport - thumb > 0.0 {
      MulMonotone(f, 1.0, viewport - thumb);
      MulMonotone(0.0, f, viewport - thumb);
    }
  }

  /** A larger scroll never moves the thumb back. */
  lemma ThumbMonotone(start: real, s1: real, s2: real, viewport: real, content: real, thumb: real)
    requires content > viewport && thumb <= viewport && s1 <= s2
    ensures ThumbStart(start, s1, viewport, content, thumb) <= ThumbStart(start, s2, viewport, content, thumb)
  {
    var d := content - viewport;
    MulMonotone(s1, s2, 1.0 / d);
    assert s1 / d <= s2 / d;
    if viewport - thumb > 0.0 {
      MulMonotone(s1 / d, s2 / d, viewport - thumb);
    }
  }

  /** The scroll a drag sets before clamping: the start scroll plus the pointer's share of the range times the largest scroll. */
  function DragTarget(startScroll: real, delta: real, range: real, maxScroll: real): real
    requires range > 0.0
  {
    startScroll + delta / range * maxScroll
  }

  /**
   * Dragging the thumb moves it with the pointer: while the drag stays
   * unclamped, the thumb of the new scroll is exactly delta away from the
   * thumb of the start scroll, since the drag's range is the viewport less
   * the thumb and its largest scroll is the content less the viewport.
   */
  lemma DragMovesThumb(start: real, startScroll: real, delta: real, viewport: real, content: real, thumb: real)
    requires content > viewport && thumb < viewport
    ensures var s := DragTarget(startScroll, delta, viewport - thumb, content - viewport);
      ThumbStart(start, s, viewport, content, thumb) == ThumbStart(start, startScroll, viewport, content, thumb) + delta
  {
    var m := content - viewport;
    var range := viewport - thumb;
    var s := DragTarget(startScroll, delta, range, m);
    assert s / m == startScroll / m + delta / range by {
      assert (delta / range * m) / m == delta / range;
    }
    assert (startScroll / m + delta / range) * range == startScroll / m * range + delta;
  }

  /** The vertical track: right of the viewport, the viewport's height. */
  function VBarRect(rect: Rect, vw: real, vh: real, barWidth: real): Rect {
    Rect(rect.x + vw, rect.y, barWidth, vh)
  }

  /** The vertical thumb: inset 2 in the track, at ThumbStart along it. */
  function VThumbRect(rect: Rect, vw: real, vh: real, ch: real, scrollY: real, barWidth: real): Rect
    requires ch > vh
  {
    var t := ThumbLength(vh, ch);
    Rect(rect.x + vw + 2.0, ThumbStart(rect.y, scrollY, vh, ch, t), barWidth - 4.0, t)
  }

  /** The horizontal track: below the viewport, the viewport's width. */
  function HBarRect(rect: Rect, vw: real, vh: real, barWidth: real): Rect {
    Rect(rect.x, rect.y + vh, vw, barWidth)
  }

  /** The horizontal thumb: inset 2 in the track, at ThumbStart along it. */
  function HThumbRect(rect: Rect, vw: real, vh: real, cw: real, scrollX: real, barWidth: real): Rect
    requires cw > vw
  {
    var t := ThumbLength(vw, cw);
    Rect(ThumbStart(rect.x, scrollX, vw, cw, t), rect.y + vh + 2.0, t, barWidth - 4.0)
  }

  /** The four rects _update_scrollbar_rects computes: track and thumb of each axis, None when it does not scroll. */
  datatype Bars = Bars(vBar: Option<Rect>, vThumb: Option<Rect>, hBar: Option<Rect>, hThumb: Option<Rect>)

  function ScrollBars(rect: Rect, vw: real, vh: real, cw: real, ch: real, scrollX: real, scrollY: real,
                      vertical: bool, horizontal: bool, barWidth: real): (b: Bars)
    ensures b.vBar.Some? <==> vertical && ch > vh
    ensures b.vThumb.Some? <==> vertical && ch > vh
    ensures b.hBar.Some? <==> horizontal && cw > vw
    ensures b.hThumb.Some? <==> horizontal && cw > vw
  {
    Bars(
      if vertical && ch > vh then Some(VBarRect(rect, vw, vh, barWidth)) else None,
      if vertical && ch > vh then Some(VThumbRect(rect, vw, vh, ch, scrollY, barWidth)) else None,
      if horizontal && cw > vw then Some(HBarRect(rect, vw, vh, barWidth)) else None,
      if horizontal && cw > vw then Some(HThumbRect(rect, vw, vh, cw, scrollX, barWidth)) else None)
  }

  /**
   * In a viewport at least 20 high, a vertical thumb of an in-range scroll
   * lies inside its track, at least MinThumb long.
   */
  lemma VThumbInsideBar(rect: Rect, vw: real, vh: real, ch: real, scrollY: real, barWidth: real)
    requires MinThumb <= vh < ch && 0.0 <= scrollY <= ch - vh
    ensures var bar := VBarRect(rect, vw, vh, barWidth);
      var thumb := VThumbRect(rect, vw, vh, ch, scrollY, barWidth);
      && bar.y <= thumb.y && thumb.y + thumb.height <= bar.y + bar.height
      && thumb.x == bar.x + 2.0 && thumb.x + thumb.width + 2.0 == bar.x + bar.width
      && MinThumb <= thumb.height <= vh
  {
    var t := ThumbLength(vh, ch);
    ThumbWithinTrack(rect.y, scrollY, vh, ch, t);
  }

  /** In a viewport at least 20 wide, a horizontal thumb of an in-range scroll lies inside its track. */
  lemma HThumbInsideBar(rect: Rect, vw: real, vh: real, cw: real, scrollX: real, barWidth: real)
    requires MinThumb <= vw < cw && 0.0 <= scrollX <= cw - vw
    ensures var bar := HBarRect(rect, vw, vh, barWidth);
      var thumb := HThumbRect(rect, vw, vh, cw, scrollX, barWidth);
      && bar.x <= thumb.x && thumb.x + thumb.width <= bar.x + bar.width
      && thumb.y == bar.y + 2.0 && thumb.y + thumb.height + 2.0 == bar.y + bar.height
      && MinThumb <= thumb.width <= vw
  {
    var t := ThumbLength(vw, cw);
    ThumbWithinTrack(rect.x, scrollX, vw, cw, t);
  }

  /**
   * The viewport layout settles on: the vertical bar takes its width off
   * when the content is taller than the rect, then the horizontal bar takes
   * its height off when the content is wider than what is left.
   */
  function LaidViewport(w: real, h: real, cw: real, ch: real, vertical: bool, horizontal: bool, barWidth: real): (v: (real, real))
    ensures v.0 == (if vertical && ch > h then w - barWidth else w)
    ensures v.1 == (if horizontal && cw > v.0 then h - barWidth else h)
  {
    var vw := if vertical && ch > h then w - barWidth else w;
    (vw, if horizontal && cw > vw then h - barWidth else h)
  }

  /**
   * The vertical decision is taken before the horizontal bar shortens the
   * viewport, but the bars are drawn from the final viewport: content just
   * shorter than the rect and wider than it gets a vertical bar that starts
   * at the rect's right edge, outside the rect, with no width taken off for it.
   */
  lemma VerticalBarPastRightEdge(rect: Rect, cw: real, ch: real, barWidth: real)
    requires barWidth > 0.0 && rect.height - barWidth < ch <= rect.height && cw > rect.width
    ensures var v := LaidViewport(rect.width, rect.height, cw, ch, true, true, barWidth);
      && v == (rect.width, rect.height - barWidth)
      && ScrollBars(rect, v.0, v.1, cw, ch, 0.0, 0.0, true, true, barWidth).vBar
         == Some(Rect(rect.x + rect.width, rect.y, barWidth, rect.height - barWidth))
  {
  }

  /**
   * pygame.Rect.colliderect for rects of non-negative size: the open areas
   * overlap; a rect with no width or no height collides with nothing.
   */
  predicate CollideRect(a: Rect, b: Rect) {
    && a.width != 0.0 && a.height != 0.0 && b.width != 0.0 && b.height != 0.0
    && a.x < b.x + b.width && b.x < a.x + a.width
    && a.y < b.y + b.height && b.y < a.y + a.height
  }

  /** Two rects that overlap share a point inside both. */
  lemma CollideRectSharesPoint(a: Rect, b: Rect)
    requires a.width > 0.0 && a.height > 0.0 && b.width > 0.0 && b.height > 0.0
    requires CollideRect(a, b)
    ensures var px := Max(a.x, b.x);
      var py := Max(a.y, b.y);
      a.CollidePoint(px, py) && b.CollidePoint(px, py)
  {
  }

  /** A child offered an event by the scroll view: visible, and overlapping the viewport. */
  predicate Shown(c: Widget, viewport: Rect)
    reads c`visible, c`rect
  {
    c.visible && CollideRect(viewport, c.rect)
  }

  /**
   * index is the first child, in order, that is shown and consumes the event,
   * or -1 when none does.
   */
  predicate FirstShownTaker(cs: seq<Widget>, index: int, viewport: Rect, ev: Event, accepts: Accepts)
    reads cs`visible, cs`rect
  {
    && -1 <= index < |cs|
    && (index >= 0 ==> Shown(cs[index], viewport) && accepts(cs[index], ev))
    && (forall k :: 0 <= k < |cs| && (index < 0 || k < index) ==> !(Shown(cs[k], viewport) && accepts(cs[k], ev)))
  }

  /** The dispatch loop at the end of handle_event. */
  method OfferShown(cs: seq<Widget>, viewport: Rect, ev: Event, accepts: Accepts) returns (index: int)
    ensures FirstShownTaker(cs, index, viewport, ev, accepts)
  {
    for i := 0 to |cs|
      invariant forall k :: 0 <= k < i ==> !(Shown(cs[k], viewport) && accepts(cs[k], ev))
    {
      if cs[i].visible && CollideRect(viewport, cs[i].rect) && accepts(cs[i], ev) {
        return i;
      }
    }
    return -1;
  }

  /** The content's measured extent: the widest child, and every height plus a gap of 8 after each. */
  method MeasureContent(cs: seq<Widget>, offer: real, measure: Measure) returns (maxW: real, totalH: real)
    ensures var s := Measured(cs, Finite(offer), Unbounded, measure);
      maxW == MaxW(s) && totalH == SumH(s) + ChildGap * |s| as real
  {
    ghost var all := Measured(cs, Finite(offer), Unbounded, measure);
    maxW := 0.0;
    totalH := 0.0;
    for i := 0 to |cs|
      invariant maxW == MaxW(all[..i]) && totalH == SumH(all[..i]) + ChildGap * i as real
    {
      var size := measure(cs[i], Finite(offer), Unbounded);
      PrefixStep(all, i);
      maxW := Max(maxW, size.0);
      totalH := totalH + size.1 + ChildGap;
    }
    assert all[..|cs|] == all;
  }

  /** The content extent measured at the viewport width is the stack's extent with a gap after every child, the last included. */
  lemma ContentIsStackExtent(s: seq<Size>)
    ensures SumH(s) + ChildGap * |s| as real == AlongH(s, |s|, ChildGap)
  {
    assert s[..|s|] == s;
  }

  /** What a handled event does, decided from the state before it. */
  datatype Action = Wheel | GrabV | GrabH | Release | DragV | DragH | Pass

  /** pygame.Rect truthiness: a rect with both sides non-zero. */
  predicate Truthy(r: Option<Rect>) {
    r.Some? && r.value.width != 0.0 && r.value.height != 0.0
  }

  function ActionFor(ev: Event, pointerInside: bool, vertical: bool, vThumb: Option<Rect>, hThumb: Option<Rect>,
                     draggingV: bool, draggingH: bool): Action
  {
    if ev.MouseWheel? then
      (if pointerInside && vertical then Wheel else Pass)
    else if ev.IsLeftDown() then
      (if Truthy(vThumb) && vThumb.value.CollidePoint(ev.x, ev.y) then GrabV
       else if Truthy(hThumb) && hThumb.value.CollidePoint(ev.x, ev.y) then GrabH
       else Pass)
    else if ev.IsLeftUp() then Release
    else if ev.MouseMotion? then
      (if draggingV then DragV else if draggingH then DragH else Pass)
    else Pass
  }

  /** The drag range of an axis: the viewport less the thumb, or less 20 without a truthy thumb. */
  function DragRange(viewport: real, thumb: Option<Rect>, vertical: bool): real
  {
    viewport - (if Truthy(thumb) then (if vertical then thumb.value.height else thumb.value.width) else MinThumb)
  }

  class ScrollView {
    /** The Container part: the view's widget and its children. */
    const box: Container
    const horizontal: bool
    const vertical: bool
    /** scrollbar_width */
    const barWidth: real
    var scrollX: real
    var scrollY: real
    var contentW: real
    var contentH: real
    var viewportW: Extent
    var viewportH: Extent
    var vBar: Option<Rect>
    var vThumb: Option<Rect>
    var hBar: Option<Rect>
    var hThumb: Option<Rect>
    var draggingV: bool
    var draggingH: bool
    var dragStartX: real
    var dragStartY: real
    /** The scroll on the dragged axis when the drag began; one field for both axes. */
    var dragStartScroll: real
    /** Calls of invalidate(). */
    var invalidations: nat

    predicate Valid()
      reads box`children
    {
      box.Valid() && box.kind == Plain
    }

    /** Both viewport sides are finite, as layout leaves them. */
    predicate ViewportKnown()
      reads this`viewportW, this`viewportH
    {
      viewportW.Finite? && viewportH.Finite?
    }

    /** The scrollbar fields hold what _update_scrollbar_rects computes from the rest of the state. */
    predicate BarsMatch()
      reads this`vBar, this`vThumb, this`hBar, this`hThumb, this`viewportW, this`viewportH
      reads this`contentW, this`contentH, this`scrollX, this`scrollY, box.widget`rect
      requires ViewportKnown()
    {
      Bars(vBar, vThumb, hBar, hThumb)
        == ScrollBars(box.widget.rect, viewportW.value, viewportH.value, contentW, contentH, scrollX, scrollY,
                      vertical, horizontal, barWidth)
    }

    /** The drag fields, together. */
    function DragState(): (bool, bool, real, real, real)
      reads this`draggingV, this`draggingH, this`dragStartX, this`dragStartY, this`dragStartScroll
    {
      (draggingV, draggingH, dragStartX, dragStartY, dragStartScroll)
    }

    /** The measured content and viewport, together. */
    function Extents(): (real, real, Extent, Extent)
      reads this`contentW, this`contentH, this`viewportW, this`viewportH
    {
      (contentW, contentH, viewportW, viewportH)
    }

    /**
     * The content and viewport layout(rect) settles on: the content measured
     * at the rect's width, the viewport the rect less the bars it needs.
     */
    predicate MeasuredAt(rect: Rect, measure: Measure)
      reads this`contentW, this`contentH, this`viewportW, this`viewportH, box`children
    {
      var s := Measured(box.children, Finite(rect.width), Unbounded, measure);
      var v := LaidViewport(rect.width, rect.height, contentW, contentH, vertical, horizontal, barWidth);
      && contentW == MaxW(s) && contentH == SumH(s) + ChildGap * |s| as real
      && viewportW == Finite(v.0) && viewportH == Finite(v.1)
    }

    /**
     * Each child where layout(rect) puts it: stacked with the gap of 8 from
     * the padded corner shifted by the scroll, measured at the viewport width
     * and no wider than it less the padding.
     */
    predicate PlacedAt(rect: Rect, measure: Measure)
      reads this`viewportW, this`scrollX, this`scrollY, box`children, box.children`rect
    {
      && viewportW.Finite?
      && forall i :: 0 <= i < |box.children| ==>
           box.children[i].rect == ScrollChildRects(box.children, rect, box.widget.padding, viewportW.value, scrollX, scrollY, measure)[i]
    }

    /** The state layout(rect) leaves. */
    predicate LaidOut(rect: Rect, measure: Measure)
      reads this`contentW, this`contentH, this`viewportW, this`viewportH, this`scrollX, this`scrollY
      reads this`vBar, this`vThumb, this`hBar, this`hThumb, box`children, box.widget`rect, box.children`rect
    {
      && box.widget.rect == rect
      && MeasuredAt(rect, measure)
      && ViewportKnown() && BarsMatch()
      && PlacedAt(rect, measure)
    }

    /** ScrollableContainer.__init__: nothing scrolled, measured or dragged yet. */
    constructor(children: seq<Widget>, horizontal: bool, vertical: bool, barWidth: real,
                padding: Option<Padding>, visible: bool)
      requires Unique(children)
      ensures Valid() && fresh(box) && fresh(box.widget)
      ensures box.children == children && box.widget.padding == (if padding.Some? then padding.value else DefaultPadding())
      ensures box.widget.visible == visible && box.widget.parent == null && box.widget.window == null
      ensures this.horizontal == horizontal && this.vertical == vertical && this.barWidth == barWidth
      ensures scrollX == 0.0 && scrollY == 0.0
      ensures Extents() == (0.0, 0.0, Finite(0.0), Finite(0.0))
      ensures vBar == None && vThumb == None && hBar == None && hThumb == None
      ensures DragState() == (false, false, 0.0, 0.0, 0.0) && invalidations == 0
    {
      var w := new Widget(padding, visible);
      box := new Container(w, children, Plain);
      this.horizontal := horizontal;
      this.vertical := vertical;
      this.barWidth := barWidth;
      scrollX, scrollY := 0.0, 0.0;
      contentW, contentH := 0.0, 0.0;
      viewportW, viewportH := Finite(0.0), Finite(0.0);
      vBar, vThumb, hBar, hThumb := None, None, None, None;
      draggingV, draggingH := false, false;
      dragStartX, dragStartY, dragStartScroll := 0.0, 0.0, 0.0;
      invalidations := 0;
    }

    /**
     * calculate_size: the content is the container's size; the viewport is
     * the offer less a bar's width for each bar the content needs against
     * the offer; the view asks for all it is offered.
     */
    method CalculateSize(aw: Extent, ah: Extent, measure: Measure) returns (size: (Extent, Extent))
      requires Valid()
      modifies this`contentW, this`contentH, this`viewportW, this`viewportH
      ensures size == (aw, ah)
      ensures var inner := SizeFor(Plain, box.children, aw, ah, box.widget.padding, measure);
        && contentW == inner.0 && contentH == inner.1
        && viewportW == (if vertical && ah.Below(contentH) then aw.Minus(barWidth) else aw)
        && viewportH == (if horizontal && aw.Below(contentW) then ah.Minus(barWidth) else ah)
    {
      var inner := box.CalculateSize(aw, ah, measure);
      contentW, contentH := inner.0, inner.1;
      viewportW, viewportH := aw, ah;
      if vertical && ah.Below(contentH) {
        viewportW := viewportW.Minus(barWidth);
      }
      if horizontal && aw.Below(contentW) {
        viewportH := viewportH.Minus(barWidth);
      }
      size := (aw, ah);
    }

    /** _update_scrollbar_rects: the bars recomputed, nothing else touched. */
    method UpdateScrollbars()
      requires ViewportKnown()
      modifies this`vBar, this`vThumb, this`hBar, this`hThumb
      ensures BarsMatch()
    {
      var rect := box.widget.rect;
      var vw, vh := viewportW.value, viewportH.value;
      if vertical && contentH > vh {
        vBar := Some(VBarRect(rect, vw, vh, barWidth));
        vThumb := Some(VThumbRect(rect, vw, vh, contentH, scrollY, barWidth));
      } else {
        vBar, vThumb := None, None;
      }
      if horizontal && contentW > vw {
        hBar := Some(HBarRect(rect, vw, vh, barWidth));
        hThumb := Some(HThumbRect(rect, vw, vh, contentW, scrollX, barWidth));
      } else {
        hBar, hThumb := None, None;
      }
    }

    /**
     * The container's own layout, run first; the child rects it sets are
     * all placed again afterwards, so only the view's rect is kept here.
     */
    method LayoutBox(rect: Rect, measure: Measure)
      requires Valid()
      modifies box.widget`rect, box.children`rect
      ensures box.widget.rect == rect
    {
      box.Layout(rect, measure);
    }

    /** The measuring half of layout: the content at the rect's width, then the viewport. */
    method MeasureView(rect: Rect, measure: Measure)
      modifies this`contentW, this`contentH, this`viewportW, this`viewportH
      ensures MeasuredAt(rect, measure) && ViewportKnown()
    {
      var cw, ch := MeasureContent(box.children, rect.width, measure);
      contentW, contentH := cw, ch;
      var v := LaidViewport(rect.width, rect.height, cw, ch, vertical, horizontal, barWidth);
      viewportW, viewportH := Finite(v.0), Finite(v.1);
    }

    /** The placing half of layout: each child at its scrolled place in the stack. */
    method PlaceChildren(rect: Rect, measure: Measure)
      requires Valid() && viewportW.Finite?
      modifies box.children`rect
      ensures PlacedAt(rect, measure)
    {
      var cs := box.children;
      var pad := box.widget.padding;
      var vw := viewportW.value;
      var x := rect.x + pad.left - scrollX;
      var top := rect.y + pad.top - scrollY;
      var maxWidth := vw - pad.left - pad.right;
      StackPlace(cs, x, top, vw, maxWidth, ChildGap, measure);
      ScrollChildRectsAre(cs, rect, pad, vw, scrollX, scrollY, x, top, maxWidth, measure);
    }

    /**
     * layout: the container's own layout first, then the content measured,
     * the viewport settled, the children re-placed with the scroll offsets,
     * and the bars updated.
     */
    method Layout(rect: Rect, measure: Measure)
      requires Valid()
      modifies this`contentW, this`contentH, this`viewportW, this`viewportH
      modifies this`vBar, this`vThumb, this`hBar, this`hThumb
      modifies box.widget`rect, box.children`rect
      ensures LaidOut(rect, measure)
    {
      LayoutBox(rect, measure);
      MeasureView(rect, measure);
      PlaceChildren(rect, measure);
      UpdateScrollbars();
    }

    /** Nothing but the drag fields changed: scroll, extents, bars, invalidations and the view's rect kept. */
    twostate predicate KeptView()
      reads this, box, box.widget, box.children
    {
      && unchanged(this`scrollX, this`scrollY, this`contentW, this`contentH, this`viewportW, this`viewportH)
      && unchanged(this`vBar, this`vThumb, this`hBar, this`hThumb, this`invalidations)
      && unchanged(box.widget`rect)
    }

    /** The wheel's outcome: scroll_y stepped and clamped, the bars redone, one invalidation, nothing else changed. */
    twostate predicate Wheeled(notches: int)
      reads this, box, box.widget, box.children
    {
      && ViewportKnown()
      && scrollY == WheelScroll(old(scrollY), notches, MaxScroll(contentH, viewportH))
      && 0.0 <= scrollY <= MaxScroll(contentH, viewportH)
      && scrollX == old(scrollX) && Extents() == old(Extents()) && DragState() == old(DragState())
      && BarsMatch() && invalidations == old(invalidations) + 1
      && unchanged(box.widget`rect)
    }

    /**
     * The outcome of a motion during a vertical drag: with a positive range,
     * scroll_y set from the pointer's travel since the press and clamped, the
     * view laid out again in its rect, one invalidation; with no positive
     * range, nothing changed.
     */
    twostate predicate DraggedVertically(pointerY: real, measure: Measure)
      requires old(ViewportKnown())
      reads this, box, box.widget, box.children
    {
      var range := DragRange(old(viewportH.value), old(vThumb), true);
      var limit := MaxScroll(old(contentH), old(viewportH));
      && (range > 0.0 ==>
            && scrollY == ClampScroll(DragTarget(old(dragStartScroll), pointerY - old(dragStartY), range, limit), limit)
            && 0.0 <= scrollY <= limit
            && LaidOut(old(box.widget.rect), measure) && invalidations == old(invalidations) + 1)
      && (range <= 0.0 ==> unchanged(this) && unchanged(box.widget`rect))
    }

    /** The outcome of a motion during a horizontal drag: the vertical rule on the other axis. */
    twostate predicate DraggedHorizontally(pointerX: real, measure: Measure)
      requires old(ViewportKnown())
      reads this, box, box.widget, box.children
    {
      var range := DragRange(old(viewportW.value), old(hThumb), false);
      var limit := MaxScroll(old(contentW), old(viewportW));
      && (range > 0.0 ==>
            && scrollX == ClampScroll(DragTarget(old(dragStartScroll), pointerX - old(dragStartX), range, limit), limit)
            && 0.0 <= scrollX <= limit
            && LaidOut(old(box.widget.rect), measure) && invalidations == old(invalidations) + 1)
      && (range <= 0.0 ==> unchanged(this) && unchanged(box.widget`rect))
    }

    /** The wheel step: scroll_y moved 30 a notch and clamped, the bars updated, one invalidation. */
    method WheelStep(notches: int)
      requires ViewportKnown()
      modifies this`scrollY, this`vBar, this`vThumb, this`hBar, this`hThumb, this`invalidations
      ensures Wheeled(notches)
    {
      scrollY := WheelScroll(scrollY, notches, MaxScroll(contentH, viewportH));
      UpdateScrollbars();
      invalidations := invalidations + 1;
    }

    /** A left press on the vertical thumb: the drag starts from the pointer's y and the current scroll_y. */
    method StartDragVertical(pointerY: real)
      modifies this`draggingV, this`dragStartY, this`dragStartScroll
      ensures DragState() == (true, old(draggingH), old(dragStartX), pointerY, old(scrollY))
      ensures KeptView()
    {
      draggingV := true;
      dragStartY := pointerY;
      dragStartScroll := scrollY;
    }

    /** A left press on the horizontal thumb: the drag starts from the pointer's x and the current scroll_x. */
    method StartDragHorizontal(pointerX: real)
      modifies this`draggingH, this`dragStartX, this`dragStartScroll
      ensures DragState() == (old(draggingV), true, pointerX, old(dragStartY), old(scrollX))
      ensures KeptView()
    {
      draggingH := true;
      dragStartX := pointerX;
      dragStartScroll := scrollX;
    }

    /**
     * A motion during a vertical drag. The invalidation is counted before the
     * layout rather than after it; nothing in the model observes the order.
     */
    method DragVertical(pointerY: real, measure: Measure)
      requires Valid() && ViewportKnown()
      modifies this`scrollY, this`contentW, this`contentH, this`viewportW, this`viewportH
      modifies this`vBar, this`vThumb, this`hBar, this`hThumb, this`invalidations
      modifies box.widget`rect, box.children`rect
      ensures DraggedVertically(pointerY, measure) && ViewportKnown()
      ensures old(DragRange(viewportH.value, vThumb, true)) <= 0.0 ==> unchanged(box.children`rect)
    {
      var range := DragRange(viewportH.value, vThumb, true);
      var rect := box.widget.rect;
      if range > 0.0 {
        var limit := MaxScroll(contentH, viewportH);
        scrollY := ClampScroll(DragTarget(dragStartScroll, pointerY - dragStartY, range, limit), limit);
        invalidations := invalidations + 1;
        Layout(rect, measure);
      }
    }

    /** A motion during a horizontal drag: the vertical rule on the other axis. */
    method DragHorizontal(pointerX: real, measure: Measure)
      requires Valid() && ViewportKnown()
      modifies this`scrollX, this`contentW, this`contentH, this`viewportW, this`viewportH
      modifies this`vBar, this`vThumb, this`hBar, this`hThumb, this`invalidations
      modifies box.widget`rect, box.children`rect
      ensures DraggedHorizontally(pointerX, measure) && ViewportKnown()
      ensures old(DragRange(viewportW.value, hThumb, false)) <= 0.0 ==> unchanged(box.children`rect)
    {
      var range := DragRange(viewportW.value, hThumb, false);
      var rect := box.widget.rect;
      if range > 0.0 {
        var limit := MaxScroll(contentW, viewportW);
        scrollX := ClampScroll(DragTarget(dragStartScroll, pointerX - dragStartX, range, limit), limit);
        invalidations := invalidations + 1;
        Layout(rect, measure);
      }
    }

    /** A left release: both drags end, the recorded start values stay. */
    method EndDrags()
      modifies this`draggingV, this`draggingH
      ensures DragState() == (false, false, old(dragStartX), old(dragStartY), old(dragStartScroll))
      ensures KeptView()
    {
      draggingV, draggingH := false, false;
    }

    /** The children the viewport shows, offered the event in order; nothing of the view changes. */
    method OfferToShown(ev: Event, accepts: Accepts) returns (consumed: bool, index: int)
      requires ViewportKnown()
      ensures (consumed <==> index >= 0)
      ensures FirstShownTaker(box.children, index, ViewportRect(box.widget.rect, viewportW.value, viewportH.value), ev, accepts)
    {
      index := OfferShown(box.children, ViewportRect(box.widget.rect, viewportW.value, viewportH.value), ev, accepts);
      consumed := index >= 0;
    }

    /**
     * handle_event, with the pointer position pygame.mouse.get_pos() gives
     * as (mouseX, mouseY):
     *   - a wheel event over the view, when it scrolls vertically, moves
     *     scroll_y by 30 a notch, clamped to its range, updates the bars,
     *     invalidates and is consumed;
     *   - a left press on a truthy thumb starts that axis's drag and is consumed;
     *   - a left release ends both drags and goes on to the children;
     *   - a motion while dragging moves the scroll by the pointer's share of
     *     the range when the range is positive, lays the view out again,
     *     invalidates, and is consumed even when the range is not positive;
     *   - everything else goes to the children the viewport shows, in order.
     */
    method HandleEvent(ev: Event, mouseX: real, mouseY: real, measure: Measure, accepts: Accepts)
      returns (consumed: bool, index: int)
      requires Valid() && ViewportKnown()
      modifies this, box.widget`rect, box.children`rect
      ensures ViewportKnown()
      ensures var act := old(ActionFor(ev, box.widget.ContainsPoint(mouseX, mouseY), vertical, vThumb, hThumb, draggingV, draggingH));
        var shown := ViewportRect(box.widget.rect, viewportW.value, viewportH.value);
        match act
        case Wheel => consumed && index == -1 && Wheeled(ev.notches) && unchanged(box.children`rect)
        case GrabV =>
          && consumed && index == -1 && KeptView() && unchanged(box.children`rect)
          && DragState() == (true, old(draggingH), old(dragStartX), ev.y, old(scrollY))
        case GrabH =>
          && consumed && index == -1 && KeptView() && unchanged(box.children`rect)
          && DragState() == (old(draggingV), true, ev.x, old(dragStartY), old(scrollX))
        case DragV =>
          && consumed && index == -1 && DraggedVertically(ev.y, measure)
          && (old(DragRange(viewportH.value, vThumb, true)) <= 0.0 ==> unchanged(box.children`rect))
        case DragH =>
          && consumed && index == -1 && DraggedHorizontally(ev.x, measure)
          && (old(DragRange(viewportW.value, hThumb, false)) <= 0.0 ==> unchanged(box.children`rect))
        case Release =>
          && DragState() == (false, false, old(dragStartX), old(dragStartY), old(dragStartScroll))
          && KeptView() && unchanged(box.children`rect)
          && (consumed <==> index >= 0) && FirstShownTaker(box.children, index, shown, ev, accepts)
        case Pass =>
          && unchanged(this) && unchanged(box.widget`rect) && unchanged(box.children`rect)
          && (consumed <==> index >= 0) && FirstShownTaker(box.children, index, shown, ev, accepts)
    {
      var act := ActionFor(ev, box.widget.ContainsPoint(mouseX, mouseY), vertical, vThumb, hThumb, draggingV, draggingH);
      match act
      case Wheel =>
        WheelStep(ev.notches);
        return true, -1;
      case GrabV =>
        StartDragVertical(ev.y);
        return true, -1;
      case GrabH =>
        StartDragHorizontal(ev.x);
        return true, -1;
      case DragV =>
        DragVertical(ev.y, measure);
        return true, -1;
      case DragH =>
        DragHorizontal(ev.x, measure);
        return true, -1;
      case Release =>
        EndDrags();
        consumed, index := OfferToShown(ev, accepts);
      case Pass =>
        consumed, index := OfferToShown(ev, accepts);
    }
  }

  /** _is_child_visible's viewport rect: the view's corner and the viewport's size. */
  function ViewportRect(rect: Rect, vw: real, vh: real): (r: Rect)
    ensures r.x == rect.x && r.y == rect.y && r.width == vw && r.height == vh
  {
    Rect(rect.x, rect.y, vw, vh)
  }

  /** Where layout puts each child of a scroll view. */
  function ScrollChildRects(cs: seq<Widget>, rect: Rect, pad: Padding, vw: real, scrollX: real, scrollY: real,
                            measure: Measure): (r: seq<Rect>)
    ensures |r| == |cs|
  {
    StackedRects(Measured(cs, Finite(vw), Unbounded, measure),
                 rect.x + pad.left - scrollX, rect.y + pad.top - scrollY, vw - pad.left - pad.right, ChildGap)
  }

  /** ScrollChildRects with its corner and width named. */
  lemma ScrollChildRectsAre(cs: seq<Widget>, rect: Rect, pad: Padding, vw: real, scrollX: real, scrollY: real,
                            x: real, top: real, maxWidth: real, measure: Measure)
    requires x == rect.x + pad.left - scrollX && top == rect.y + pad.top - scrollY && maxWidth == vw - pad.left - pad.right
    ensures ScrollChildRects(cs, rect, pad, vw, scrollX, scrollY, measure)
         == StackedRects(Measured(cs, Finite(vw), Unbounded, measure), x, top, maxWidth, ChildGap)
  {
  }

  /**
   * Scrolling shifts every child by the scroll and nothing else: the rects
   * at scroll (sx, sy) are the rects at (0, 0) moved up by sy and left by sx.
   */
  lemma ScrollShiftsChildren(cs: seq<Widget>, rect: Rect, pad: Padding, vw: real, scrollX: real, scrollY: real,
                             measure: Measure, i: nat)
    requires i < |cs|
    ensures var moved := ScrollChildRects(cs, rect, pad, vw, scrollX, scrollY, measure)[i];
      var still := ScrollChildRects(cs, rect, pad, vw, 0.0, 0.0, measure)[i];
      moved == Rect(still.x - scrollX, still.y - scrollY, still.width, still.height)
  {
  }
}
