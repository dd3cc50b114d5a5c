/**
 * Card and Modal of lumina/widgets/card.py. A card is a padded container
 * (padding 16 unless one is given) with an optional title band, hover and
 * click handling. A modal centres a fixed-size dialog in the rect it is
 * given, stacks its content inside it, closes on the backdrop, on the close
 * button or on Escape, and consumes every event. Painting and the hover and
 * open animations are not modelled; the title font's line height is the
 * parameter fontHeight.
 */
module Cards {
  import opened Options
  import opened Geometry
  import opened Events
  import opened Layouts
  import opened Tree

  /** Python truthiness of the title: set and not empty. */
  predicate HasTitle(title: Option<string>) {
    title.Some? && title.value != ""
  }

  /** The title band: the font's line height plus 8 under a title, nothing without one. */
  function TitleHeight(title: Option<string>, fontHeight: real): real {
    if HasTitle(title) then fontHeight + 8.0 else 0.0
  }

  /** The spacing Card, Modal and the scroll view leave between stacked children. */
  const ChildGap: real := 8.0

  /** Card.layout's content area: the rect less the padding and the title band above it. */
  function CardContent(rect: Rect, pad: Padding, titleH: real): (c: Rect)
    ensures c.x == rect.x + pad.left && c.y == rect.y + pad.top + titleH
    ensures c.x + c.width == rect.x + rect.width - pad.right
    ensures c.y + c.height == rect.y + rect.height - pad.bottom
  {
    Rect(rect.x + pad.left, rect.y + pad.top + titleH,
         rect.width - pad.left - pad.right, rect.height - pad.top - pad.bottom - titleH)
  }

  /**
   * The rect each child gets from Card.layout and Modal.layout: measured
   * against (area width, inf), stacked from the area's top-left corner with
   * the gap of 8, no wider than the area.
   */
  function AreaChildRects(cs: seq<Widget>, area: Rect, measure: Measure): (r: seq<Rect>)
    ensures |r| == |cs|
  {
    StackedRects(Measured(cs, Finite(area.width), Unbounded, measure), area.x, area.y, area.width, ChildGap)
  }

  /**
   * Card.calculate_size stacks the children without a gap, while
   * Card.layout puts 8 between them: given exactly its calculated height, a
   * card whose children answer the same under both offers has its last child
   * end 8·(n − 1) below the bottom of its content area.
   */
  lemma CardLayoutOverrunsSize(s: seq<Size>, rect: Rect, pad: Padding, titleH: real)
    requires s != [] && rect.height == PlainSize(s, pad).1 + titleH
    ensures var c := CardContent(rect, pad, titleH);
      var r := StackedRects(s, c.x, c.y, c.width, ChildGap);
      r[|s| - 1].y + r[|s| - 1].height == c.y + c.height + ChildGap * Gaps(|s|)
  {
    AlongHLast(s, ChildGap);
  }

  /** The card's own padding: the one given, else Padding.all(16). */
  function CardPadding(padding: Option<Padding>): (p: Padding)
    ensures padding.None? ==> p.Horizontal() == 32.0 && p.Vertical() == 32.0
    ensures padding.Some? ==> p == padding.value
  {
    if padding.Some? then padding.value else PaddingAll(16.0)
  }

  class Card {
    /** The Container part: the card's widget and its children. */
    const box: Container
    const title: Option<string>
    const hoverable: bool
    const clickable: bool
    /** Whether on_click is set. */
    const hasOnClick: bool
    /** _is_hovered */
    var hovered: bool
    /** Calls of on_click. */
    var clickCalls: nat
    /** Calls of invalidate() made by the hover rule. */
    var invalidations: nat

    predicate Valid()
      reads box`children
    {
      box.Valid() && box.kind == Plain
    }

    /** Card.__init__: a plain container, not hovered, nothing called yet. */
    constructor(title: Option<string>, children: seq<Widget>, hoverable: bool, clickable: bool, hasOnClick: bool,
                padding: Option<Padding>, visible: bool)
      requires Unique(children)
      ensures Valid() && fresh(box) && fresh(box.widget)
      ensures box.children == children && box.widget.padding == CardPadding(padding)
      ensures box.widget.visible == visible && box.widget.parent == null && box.widget.window == null
      ensures this.title == title && this.hoverable == hoverable && this.clickable == clickable
      ensures this.hasOnClick == hasOnClick
      ensures !hovered && clickCalls == 0 && invalidations == 0
    {
      var w := new Widget(Some(CardPadding(padding)), visible);
      box := new Container(w, children, Plain);
      this.title := title;
      this.hoverable := hoverable;
      this.clickable := clickable;
      this.hasOnClick := hasOnClick;
      hovered := false;
      clickCalls := 0;
      invalidations := 0;
    }

    /** calculate_size: the container's size with the title band added to the height. */
    method CalculateSize(aw: Extent, ah: Extent, fontHeight: real, measure: Measure) returns (size: Size)
      requires Valid()
      ensures var inner := SizeFor(Plain, box.children, aw, ah, box.widget.padding, measure);
        size == (inner.0, inner.1 + TitleHeight(title, fontHeight))
    {
      size := box.CalculateSize(aw, ah, measure);
      if HasTitle(title) {
        size := (size.0, size.1 + fontHeight + 8.0);
      }
    }

    /**
     * layout: the card takes rect; its children, if any, are stacked in the
     * content area below the title band.
     */
    method Layout(rect: Rect, fontHeight: real, measure: Measure)
      requires Valid()
      modifies box.widget`rect, box.children`rect
      ensures box.widget.rect == rect
      ensures var area := CardContent(rect, box.widget.padding, TitleHeight(title, fontHeight));
        forall i :: 0 <= i < |box.children| ==> box.children[i].rect == AreaChildRects(box.children, area, measure)[i]
    {
      box.widget.Layout(rect);
      if box.children == [] {
        return;
      }
      var area := CardContent(rect, box.widget.padding, TitleHeight(title, fontHeight));
      StackPlace(box.children, area.x, area.y, area.width, area.width, ChildGap, measure);
    }

    /**
     * handle_event: a motion updates the hover flag and invalidates a
     * hoverable card when it changes; a left press inside a clickable card
     * calls on_click and is consumed; every other event, motions included,
     * goes to the children as in Container.handle_event.
     */
    method HandleEvent(ev: Event, accepts: Accepts) returns (consumed: bool, index: int)
      requires Valid()
      modifies this`hovered, this`clickCalls, this`invalidations
      ensures ev.MouseMotion? ==>
        && hovered == box.widget.ContainsPoint(ev.x, ev.y)
        && invalidations == old(invalidations) + (if old(hovered) != hovered && hoverable then 1 else 0)
      ensures !ev.MouseMotion? ==> hovered == old(hovered) && invalidations == old(invalidations)
      ensures var clicked := ev.IsLeftDown() && box.widget.ContainsPoint(ev.x, ev.y) && clickable;
        && clickCalls == old(clickCalls) + (if clicked && hasOnClick then 1 else 0)
        && (clicked ==> consumed && index == -1)
        && (!clicked ==> (consumed <==> index >= 0) && Topmost(box.children, index, PointOf(ev), ev, accepts))
    {
      if ev.MouseMotion? {
        var was := hovered;
        hovered := box.widget.ContainsPoint(ev.x, ev.y);
        if was != hovered && hoverable {
          invalidations := invalidations + 1;
        }
      } else if ev.IsLeftDown() {
        if box.widget.ContainsPoint(ev.x, ev.y) && clickable {
          if hasOnClick {
            clickCalls := clickCalls + 1;
          }
          return true, -1;
        }
      }
      consumed, index := box.HandleEvent(ev, accepts);
    }
  }

  /** Where Modal centres its dialog in the rect it was given. */
  function DialogBox(rect: Rect, w: real, h: real): (b: Rect)
    ensures b.width == w && b.height == h
    ensures b.x - rect.x == (rect.x + rect.width) - (b.x + b.width)
    ensures b.y - rect.y == (rect.y + rect.height) - (b.y + b.height)
  {
    Rect(rect.x + (rect.width - w) / 2.0, rect.y + (rect.height - h) / 2.0, w, h)
  }

  /** The area the content is stacked in: 24 in from the sides and the bottom, below a 60-high title bar. */
  function DialogContent(b: Rect): (c: Rect)
    ensures c.x == b.x + 24.0 && c.y == b.y + 60.0
    ensures c.x + c.width + 24.0 == b.x + b.width && c.y + c.height + 24.0 == b.y + b.height
  {
    Rect(b.x + 24.0, b.y + 60.0, b.width - 48.0, b.height - 84.0)
  }

  /** The close button: 32 square, 8 below the dialog's top, its right edge 8 in from the dialog's. */
  function CloseButton(b: Rect): (c: Rect)
    ensures c.width == 32.0 && c.height == 32.0
    ensures c.x + c.width + 8.0 == b.x + b.width && c.y == b.y + 8.0
  {
    Rect(b.x + b.width - 40.0, b.y + 8.0, 32.0, 32.0)
  }

  /**
   * The events that close a closable modal: a left press outside the
   * dialog or on its close button, and the Escape key.
   */
  predicate ClosesOn(ev: Event, rect: Rect, w: real, h: real, closable: bool) {
    && closable
    && ((ev.IsLeftDown() && (var b := DialogBox(rect, w, h);
                             !b.CollidePoint(ev.x, ev.y) || CloseButton(b).CollidePoint(ev.x, ev.y)))
        || (ev.KeyDown? && ev.key == Escape))
  }

  /**
   * A press in the content area never closes the modal: the area lies inside
   * the dialog and starts below the close button. The dialog must be big
   * enough for the area to exist (48 wide, 84 high).
   */
  lemma ContentPressKeepsOpen(rect: Rect, w: real, h: real, closable: bool, px: real, py: real)
    requires w >= 48.0 && h >= 84.0
    requires DialogContent(DialogBox(rect, w, h)).CollidePoint(px, py)
    ensures !ClosesOn(MouseDown(1, px, py), rect, w, h, closable)
  {
  }

  /** A closable modal closes on a press outside its dialog, wherever that is; a modal that is not closable never closes. */
  lemma BackdropPressCloses(rect: Rect, w: real, h: real, closable: bool, ev: Event)
    requires ev.IsLeftDown() && !DialogBox(rect, w, h).CollidePoint(ev.x, ev.y)
    ensures ClosesOn(ev, rect, w, h, closable) <==> closable
  {
  }

  /**
   * index is the first child, in order, that consumes the event, or -1
   * when none does: every child before it (every child, for -1) declines.
   */
  predicate FirstTaker(cs: seq<Widget>, index: int, ev: Event, accepts: Accepts) {
    && -1 <= index < |cs|
    && (index >= 0 ==> accepts(cs[index], ev))
    && (forall k :: 0 <= k < |cs| && (index < 0 || k < index) ==> !accepts(cs[k], ev))
  }

  /** Modal's dispatch loop: the content in order, to the first that consumes the event. */
  method OfferInOrder(cs: seq<Widget>, ev: Event, accepts: Accepts) returns (index: int)
    ensures FirstTaker(cs, index, ev, accepts)
  {
    for i := 0 to |cs|
      invariant forall k :: 0 <= k < i ==> !accepts(cs[k], ev)
    {
      if accepts(cs[i], ev) {
        return i;
      }
    }
    return -1;
  }

  class Modal {
    const widget: Widget
    const title: string
    const content: seq<Widget>
    /** modal_width and modal_height */
    const dialogW: real
    const dialogH: real
    const closable: bool
    /** Whether on_close is set. */
    const hasOnClose: bool
    /** _is_opening */
    var opening: bool
    /** Calls of on_close. */
    var closeCalls: nat

    predicate Valid() {
      widget !in content && Unique(content)
    }

    /**
     * Modal.__init__: opening, and each content widget mounted with the
     * modal as parent and the modal's window, which is still None.
     */
    constructor(title: string, content: seq<Widget>, width: real, height: real, closable: bool, hasOnClose: bool,
                padding: Option<Padding>, visible: bool, j: Journal)
      requires Unique(content)
      modifies content`parent, content`window, content`mounted, j
      ensures Valid() && fresh(widget)
      ensures this.title == title && this.content == content && dialogW == width && dialogH == height
      ensures this.closable == closable && this.hasOnClose == hasOnClose
      ensures opening && closeCalls == 0
      ensures widget.parent == null && widget.window == null && widget.visible == visible
      ensures forall i :: 0 <= i < |content| ==>
        content[i].parent == widget && content[i].window == null && content[i].mounted
      ensures j.notices == old(j.notices) + MountNotices(content, widget)
    {
      widget := new Widget(padding, visible);
      this.title := title;
      this.content := content;
      dialogW := width;
      dialogH := height;
      this.closable := closable;
      this.hasOnClose := hasOnClose;
      opening := true;
      closeCalls := 0;
      new;
      MountAll(content, widget, null, j);
    }

    /** calculate_size: the modal takes all it is offered, unbounded included. */
    function CalculateSize(aw: Extent, ah: Extent): (size: (Extent, Extent))
      ensures size == (aw, ah)
    {
      (aw, ah)
    }

    /** layout: the modal takes rect; the content is stacked in the centred dialog's content area. */
    method Layout(rect: Rect, measure: Measure)
      requires Valid()
      modifies widget`rect, content`rect
      ensures widget.rect == rect
      ensures var area := DialogContent(DialogBox(rect, dialogW, dialogH));
        forall i :: 0 <= i < |content| ==> content[i].rect == AreaChildRects(content, area, measure)[i]
    {
      widget.Layout(rect);
      var area := DialogContent(DialogBox(rect, dialogW, dialogH));
      StackPlace(content, area.x, area.y, area.width, area.width, ChildGap, measure);
    }

    /** close: no longer opening, and on_close called when set. */
    method Close()
      modifies this`opening, this`closeCalls
      ensures !opening && closeCalls == old(closeCalls) + (if hasOnClose then 1 else 0)
    {
      opening := false;
      if hasOnClose {
        closeCalls := closeCalls + 1;
      }
    }

    /**
     * handle_event: a closing event closes the modal; any other event is
     * offered to the content in order. Either way the modal consumes it.
     */
    method HandleEvent(ev: Event, accepts: Accepts) returns (consumed: bool, index: int)
      modifies this`opening, this`closeCalls
      ensures consumed
      ensures ClosesOn(ev, widget.rect, dialogW, dialogH, closable) ==>
        !opening && closeCalls == old(closeCalls) + (if hasOnClose then 1 else 0) && index == -1
      ensures !ClosesOn(ev, widget.rect, dialogW, dialogH, closable) ==>
        opening == old(opening) && closeCalls == old(closeCalls) && FirstTaker(content, index, ev, accepts)
    {
      if ev.IsLeftDown() {
        var b := DialogBox(widget.rect, dialogW, dialogH);
        if !b.CollidePoint(ev.x, ev.y) && closable {
          Close();
          return true, -1;
        }
        if closable && CloseButton(b).CollidePoint(ev.x, ev.y) {
          Close();
          return true, -1;
        }
      } else if ev.KeyDown? {
        if ev.key == Escape && closable {
          Close();
          return true, -1;
        }
      }
      index := OfferInOrder(content, ev, accepts);
      consumed := true;
    }
  }
}
