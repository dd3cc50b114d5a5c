/**
 * The widget tree of lumina/core/widget.py, lumina/widgets/container.py
 * and lumina/core/window.py. Widget and Window refer to each other, so
 * they share this module.
 *
 * A widget's subclass behaviour is outside this module: what a child
 * answers to calculate_size is the parameter measure, and whether it
 * consumes an event is the parameter accepts. Every listener call is
 * appended to a Journal, so the order of calls across widgets is visible.
 * The clock is the parameter now.
 */
module Tree {
  import opened Options
  import opened Geometry
  import opened Events
  import opened Layouts

  /** lumina.core.types.EventType */
  datatype EventType =
    | ClickType | HoverType | FocusType | BlurType | KeyDownType | KeyUpType
    | ChangeType | SubmitType | MountType | UnmountType

  /** A registered listener; whether calling it raises is a property of the listener. */
  datatype Handler = Handler(id: nat, raises: bool)

  /** One listener call, with the emitting widget's links as the listener saw them. */
  datatype Notice = Notice(source: Widget, handler: Handler, eventType: EventType, mountedThen: bool, parentThen: Widget?)

  /** Every listener call made so far, in order. */
  class Journal {
    var notices: seq<Notice>

    constructor()
      ensures notices == []
    {
      notices := [];
    }
  }

  /** The calls of the listeners hs, in order. */
  function Notices(w: Widget, hs: seq<Handler>, t: EventType, mountedThen: bool, parentThen: Widget?): (r: seq<Notice>)
    ensures |r| == |hs|
    ensures forall i :: 0 <= i < |hs| ==> r[i] == Notice(w, hs[i], t, mountedThen, parentThen)
  {
    seq(|hs|, i requires 0 <= i < |hs| => Notice(w, hs[i], t, mountedThen, parentThen))
  }

  /** No widget appears twice. */
  predicate Unique(ws: seq<Widget>) {
    forall i, j :: 0 <= i < j < |ws| ==> ws[i] != ws[j]
  }

  /** Appending keeps a list duplicate-free exactly when the new element is not already in it. */
  lemma UniqueAppend(ws: seq<Widget>, w: Widget)
    ensures Unique(ws + [w]) <==> Unique(ws) && w !in ws
  {
    if Unique(ws + [w]) {
      assert forall i, j :: 0 <= i < j < |ws| ==> ws[i] == (ws + [w])[i] && ws[j] == (ws + [w])[j];
      forall k | 0 <= k < |ws|
        ensures ws[k] != w
      {
        assert (ws + [w])[k] == ws[k] && (ws + [w])[|ws|] == w;
      }
    }
  }

  /** The index of the first occurrence of x. */
  function FirstIndex<T(==)>(s: seq<T>, x: T): (k: nat)
    requires x in s
    ensures k < |s| && s[k] == x && x !in s[..k]
  {
    if s[0] == x then 0 else 1 + FirstIndex(s[1..], x)
  }

  /** list.remove(x): drops the first occurrence only. */
  function RemoveFirst<T(==)>(s: seq<T>, x: T): (r: seq<T>)
    requires x in s
    ensures |r| == |s| - 1
    ensures r == s[..FirstIndex(s, x)] + s[FirstIndex(s, x) + 1..]
    ensures multiset(r) + multiset{x} == multiset(s)
  {
    var k := FirstIndex(s, x);
    assert s == s[..k] + [s[k]] + s[k + 1..];
    s[..k] + s[k + 1..]
  }

  /** Removing what was just appended restores the list when it was not there before. */
  lemma RemoveAppended<T>(s: seq<T>, x: T)
    requires x !in s
    ensures RemoveFirst(s + [x], x) == s
  {
    assert FirstIndex(s + [x], x) == |s|;
    assert (s + [x])[..|s|] == s;
  }

  /** A listener registered twice: removing it after the second add drops the first registration. */
  lemma RemoveAppendedDuplicate<T>(s: seq<T>, x: T)
    requires x in s
    ensures RemoveFirst(s + [x], x) == RemoveFirst(s, x) + [x]
  {
    var k := FirstIndex(s, x);
    assert (s + [x])[..k + 1] == s[..k + 1];
    assert FirstIndex(s + [x], x) == k;
    assert (s + [x])[..k] == s[..k];
    assert (s + [x])[k + 1..] == s[k + 1..] + [x];
  }

  /** What add_event_listener returns: calling it removes that handler from that type's list. */
  datatype Remover = Remover(eventType: EventType, handler: Handler)

  /** The base widget state. */
  class Widget {
    var parent: Widget?
    var window: Window?
    var mounted: bool
    var handlers: map<EventType, seq<Handler>>
    var rect: Rect
    var visible: bool
    const padding: Padding
    /** Whether a rendered-surface cache (_rendered_text, _last_text, _cached_surface, _button_surface) is held. */
    var cached: bool

    /** Widget.__init__: unlinked, no listeners, a zero rect; no padding means Padding(). */
    constructor(padding: Option<Padding>, visible: bool)
      ensures parent == null && window == null && !mounted && handlers == map[]
      ensures rect == Rect(0.0, 0.0, 0.0, 0.0) && this.visible == visible && !cached
      ensures this.padding == if padding.Some? then padding.value else DefaultPadding()
    {
      parent := null;
      window := null;
      mounted := false;
      handlers := map[];
      rect := Rect(0.0, 0.0, 0.0, 0.0);
      this.visible := visible;
      this.padding := if padding.Some? then padding.value else DefaultPadding();
      cached := false;
    }

    /** The listeners of one type, in registration order. */
    function HandlersFor(t: EventType): seq<Handler>
      reads this`handlers
    {
      if t in handlers then handlers[t] else []
    }

    /**
     * _emit_event: every listener of the type is called once, in order; a
     * listener that raises is reported and the loop goes on, so the calls
     * after it still happen.
     */
    method Emit(t: EventType, j: Journal)
      modifies j
      ensures j.notices == old(j.notices) + Notices(this, HandlersFor(t), t, mounted, parent)
      ensures |j.notices| == |old(j.notices)| + |HandlersFor(t)|
    {
      var hs := HandlersFor(t);
      var i := 0;
      while i < |hs|
        invariant 0 <= i <= |hs|
        invariant j.notices == old(j.notices) + Notices(this, hs[..i], t, mounted, parent)
      {
        j.notices := j.notices + [Notice(this, hs[i], t, mounted, parent)];
        assert Notices(this, hs[..i + 1], t, mounted, parent) == Notices(this, hs[..i], t, mounted, parent) + [Notice(this, hs[i], t, mounted, parent)];
        i := i + 1;
      }
      assert hs[..i] == hs;
    }

    /** add_event_listener: appends to that type's list; the other lists are untouched. */
    method AddEventListener(t: EventType, h: Handler) returns (remove: Remover)
      modifies this`handlers
      ensures handlers == old(handlers)[t := old(HandlersFor(t)) + [h]]
      ensures HandlersFor(t) == old(HandlersFor(t)) + [h]
      ensures forall u :: u != t ==> HandlersFor(u) == old(HandlersFor(u))
      ensures remove == Remover(t, h)
    {
      handlers := handlers[t := HandlersFor(t) + [h]];
      remove := Remover(t, h);
    }

    /**
     * Calling the remover: the first registration of the handler is removed
     * from its type's list; ok is false where list.remove raises ValueError
     * because the handler is no longer registered.
     */
    method CallRemover(r: Remover) returns (ok: bool)
      modifies this`handlers
      ensures ok <==> !(r.eventType in old(handlers) && r.handler !in old(handlers)[r.eventType])
      ensures r.eventType in old(handlers) && r.handler in old(handlers)[r.eventType] ==>
        handlers == old(handlers)[r.eventType := RemoveFirst(old(handlers)[r.eventType], r.handler)]
      ensures !(r.eventType in old(handlers) && r.handler in old(handlers)[r.eventType]) ==> handlers == old(handlers)
    {
      ok := true;
      if r.eventType in handlers {
        if r.handler in handlers[r.eventType] {
          handlers := handlers[r.eventType := RemoveFirst(handlers[r.eventType], r.handler)];
        } else {
          ok := false;
        }
      }
    }

    /**
     * mount: links are set first (the window given, else the parent's),
     * then the MOUNT listeners run and see them.
     */
    method Mount(p: Widget?, w: Window?, j: Journal)
      modifies this`parent, this`window, this`mounted, j
      ensures parent == p && mounted
      ensures window == (if w != null then w else if p != null then old(p.window) else null)
      ensures j.notices == old(j.notices) + Notices(this, HandlersFor(MountType), MountType, true, p)
    {
      var win := if w != null then w else if p != null then p.window else null;
      parent := p;
      window := win;
      mounted := true;
      Emit(MountType, j);
    }

    /** unmount: the UNMOUNT listeners run while the links are still set; then every link is cleared. */
    method Unmount(j: Journal)
      modifies this`parent, this`window, this`mounted, j
      ensures parent == null && window == null && !mounted
      ensures j.notices == old(j.notices) + Notices(this, HandlersFor(UnmountType), UnmountType, old(mounted), old(parent))
    {
      Emit(UnmountType, j);
      mounted := false;
      parent := null;
      window := null;
    }

    /** Widget.layout: the rect becomes exactly the one given. */
    method Layout(r: Rect)
      modifies this`rect
      ensures rect == r
    {
      rect := r;
    }

    /** The window this widget is attached to, as a frame. */
    function Host(): set<Window>
      reads this`window
    {
      if window == null then {} else {window}
    }

    /** invalidate: forwarded to the window when there is one, otherwise nothing happens. */
    method Invalidate(now: real)
      modifies Host()`needsRedraw, Host()`lastInvalidate
      ensures window != null ==> window.Redrawn(old(window.needsRedraw), old(window.lastInvalidate), now)
    {
      if window != null {
        window.Invalidate(now);
      }
    }

    /** contains_point: the rect's inclusive containment. */
    predicate ContainsPoint(x: real, y: real)
      reads this`rect
    {
      rect.Contains(x, y)
    }
  }

  /** The smallest gap between two invalidations that both count: 1/120 s. */
  const Throttle: real := 1.0 / 120.0

  /** The (dirty flag, last time) after invalidate at now. */
  function InvalidateStep(needsRedraw: bool, last: real, now: real): (r: (bool, real))
    ensures now - last > Throttle ==> r == (true, now)
    ensures now - last <= Throttle ==> r == (needsRedraw, last)
  {
    if now - last > Throttle then (true, now) else (needsRedraw, last)
  }

  /** Any number of invalidations at the same instant act like one. */
  lemma InvalidateSameInstant(needsRedraw: bool, last: real, now: real)
    ensures var r := InvalidateStep(needsRedraw, last, now); InvalidateStep(r.0, r.1, now) == r
  {
  }

  /** After an invalidation counts, later ones within 1/120 s change nothing. */
  lemma InvalidateThrottled(needsRedraw: bool, last: real, t1: real, t2: real)
    requires t1 - last > Throttle && t2 - t1 <= Throttle
    ensures var r := InvalidateStep(needsRedraw, last, t1); InvalidateStep(r.0, r.1, t2) == r
  {
  }

  /** What a child's calculate_size answers when offered (available width, available height). */
  type Measure = (Widget, Extent, Extent) -> Size

  /** Whether a child's handle_event consumes an event it is offered. */
  type Accepts = (Widget, Event) -> bool

  /** Every child measured with the same offer. */
  function Measured(cs: seq<Widget>, aw: Extent, ah: Extent, measure: Measure): (s: seq<Size>)
    ensures |s| == |cs|
    ensures forall i :: 0 <= i < |cs| ==> s[i] == measure(cs[i], aw, ah)
  {
    seq(|cs|, i requires 0 <= i < |cs| => measure(cs[i], aw, ah))
  }

  /**
   * Children measured one after the other, each offered the height left
   * after used and the heights of the children before it.
   */
  function Stacking(cs: seq<Widget>, aw: Extent, ah: Extent, used: real, measure: Measure): (s: seq<Size>)
    ensures |s| == |cs|
  {
    if cs == [] then []
    else
      var p := Stacking(cs[..|cs| - 1], aw, ah, used, measure);
      p + [measure(cs[|cs| - 1], aw, ah.Minus(used + SumH(p)))]
  }

  /** Extending the children by one extends the stacked measurements by that child's. */
  lemma StackingStep(cs: seq<Widget>, i: nat, aw: Extent, ah: Extent, used: real, measure: Measure)
    requires i < |cs|
    ensures Stacking(cs[..i + 1], aw, ah, used, measure)
         == Stacking(cs[..i], aw, ah, used, measure) + [measure(cs[i], aw, ah.Minus(used + SumH(Stacking(cs[..i], aw, ah, used, measure))))]
  {
    assert cs[..i + 1][..i] == cs[..i];
  }

  /** Each stacked measurement is the child's answer to the height its predecessors leave. */
  lemma StackingAt(cs: seq<Widget>, i: nat, aw: Extent, ah: Extent, used: real, measure: Measure, all: seq<Size>, taken: real)
    requires i < |cs| && all == Stacking(cs, aw, ah, used, measure)
    requires taken == used + SumH(all[..i])
    ensures all[i] == measure(cs[i], aw, ah.Minus(taken))
  {
    StackingPrefix(cs, i + 1, aw, ah, used, measure);
    StackingPrefix(cs, i, aw, ah, used, measure);
    StackingStep(cs, i, aw, ah, used, measure);
    assert all[i] == all[..i + 1][i];
  }

  /** Extending a prefix by one size extends its maxima and sums by that size. */
  lemma PrefixStep(s: seq<Size>, i: nat)
    requires i < |s|
    ensures MaxW(s[..i + 1]) == Max(MaxW(s[..i]), s[i].0) && MaxH(s[..i + 1]) == Max(MaxH(s[..i]), s[i].1)
    ensures SumH(s[..i + 1]) == SumH(s[..i]) + s[i].1
  {
    assert s[..i + 1][..i] == s[..i];
  }

  /** Row knows center and end; anything else, stretch included, starts at the left. */
  function RowAlign(align: string): (a: Align)
    ensures a != Stretch
  {
    var p := ParseAlign(align);
    if p == Stretch then Start else p
  }

  /** The layout rule of each container class; the spacing and align values are the constructor's. */
  datatype BoxKind =
    | Plain
    | RowBox(spacing: real, align: string)
    | ColumnBox(spacing: real, align: string)
    | StackBox

  /** calculate_size of each container class, from the children's answers. */
  function SizeFor(kind: BoxKind, cs: seq<Widget>, aw: Extent, ah: Extent, pad: Padding, measure: Measure): Size {
    match kind
    case Plain => PlainSizeFor(cs, aw.Minus(pad.left + pad.right), ah, pad.top + pad.bottom, pad, measure)
    case RowBox(spacing, _) => RowSize(Measured(cs, Unbounded, ah, measure), pad, spacing)
    case ColumnBox(spacing, _) => ColumnSize(Measured(cs, aw, Unbounded, measure), pad, spacing)
    case StackBox => StackSize(Measured(cs, aw, ah, measure), pad)
  }

  /** Container.calculate_size given the width offered to the children and the height the padding uses. */
  function PlainSizeFor(cs: seq<Widget>, offerW: Extent, ah: Extent, used: real, pad: Padding, measure: Measure): Size {
    PlainSize(Stacking(cs, offerW, ah, used, measure), pad)
  }

  /** A container of any class without children measures as its padding. */
  lemma SizeForEmpty(kind: BoxKind, aw: Extent, ah: Extent, pad: Padding, measure: Measure)
    ensures SizeFor(kind, [], aw, ah, pad, measure) == (pad.left + pad.right, pad.top + pad.bottom)
  {
  }

  /** The rect each child receives from layout(rect) of each container class. */
  function ChildRects(kind: BoxKind, cs: seq<Widget>, rect: Rect, pad: Padding, measure: Measure): (r: seq<Rect>)
    ensures |r| == |cs|
  {
    var content := rect.width - pad.left - pad.right;
    match kind
    case Plain => StackedRects(Measured(cs, Finite(content), Unbounded, measure), rect.x + pad.left, rect.y + pad.top, content, 0.0)
    case RowBox(spacing, align) => RowRects(Measured(cs, Unbounded, Finite(rect.height), measure), rect, pad, spacing, RowAlign(align))
    case ColumnBox(spacing, align) => ColumnRects(Measured(cs, Finite(content), Unbounded, measure), rect, pad, spacing, ParseAlign(align))
    case StackBox => seq(|cs|, _ => ContentRect(rect, pad))
  }

  /**
   * A Container, Row, Column or Stack: its own widget state and its
   * children, which are base widgets.
   */
  class Container {
    const widget: Widget
    var children: seq<Widget>
    const kind: BoxKind

    /** The container is not its own child and holds each child once. */
    predicate Valid()
      reads this`children
    {
      widget !in children && Unique(children)
    }

    /** Container.__init__ with the children list (None meaning none). */
    constructor(widget: Widget, children: seq<Widget>, kind: BoxKind)
      requires widget !in children && Unique(children)
      ensures Valid()
      ensures this.widget == widget && this.children == children && this.kind == kind
    {
      this.widget := widget;
      this.children := children;
      this.kind := kind;
    }

    /** Container.mount: the container first, then each child with the container as parent and its window. */
    method Mount(p: Widget?, w: Window?, j: Journal)
      requires Valid()
      modifies widget`parent, widget`window, widget`mounted, children`parent, children`window, children`mounted, j
      ensures widget.parent == p && widget.mounted
      ensures widget.window == (if w != null then w else if p != null then old(p.window) else null)
      ensures forall i :: 0 <= i < |children| ==>
        children[i].parent == widget && children[i].window == widget.window && children[i].mounted
      ensures j.notices == old(j.notices) + Notices(widget, widget.HandlersFor(MountType), MountType, true, p)
                                          + MountNotices(children, widget)
    {
      widget.Mount(p, w, j);
      MountAll(children, widget, widget.window, j);
    }

    /** Container.unmount: every child first, in order, then the container. */
    method Unmount(j: Journal)
      requires Valid()
      modifies widget`parent, widget`window, widget`mounted, children`parent, children`window, children`mounted, j
      ensures widget.parent == null && widget.window == null && !widget.mounted
      ensures forall i :: 0 <= i < |children| ==>
        children[i].parent == null && children[i].window == null && !children[i].mounted
      ensures j.notices == old(j.notices + UnmountNotices(children))
                           + Notices(widget, widget.HandlersFor(UnmountType), UnmountType, old(widget.mounted), old(widget.parent))
    {
      UnmountAll(children, j);
      widget.Unmount(j);
    }

    /**
     * add_child: always appended, a child already present included (it is
     * then mounted a second time); mounted, and the window invalidated, only
     * when the container is mounted. The container stays Valid exactly when
     * the child is new. A mounted container added to itself mounts itself
     * again from its own child loop without end: raised is Python's
     * RecursionError, and beyond the appended list nothing is promised then.
     */
    method AddChild(child: Widget, j: Journal, now: real) returns (raised: bool)
      modifies this`children, child`parent, child`window, child`mounted, j
      modifies widget.Host()`needsRedraw, widget.Host()`lastInvalidate
      ensures children == old(children) + [child]
      ensures Valid() <==> old(Valid()) && child != widget && child !in old(children)
      ensures raised <==> child == widget && old(widget.mounted)
      ensures widget.mounted && !raised ==>
        && child != widget
        && child.parent == widget && child.window == widget.window && child.mounted
        && j.notices == old(j.notices) + Notices(child, child.HandlersFor(MountType), MountType, true, widget)
        && (widget.window != null ==>
              widget.window.Redrawn(old(widget.window.needsRedraw), old(widget.window.lastInvalidate), now))
      ensures !old(widget.mounted) ==> !raised && unchanged(child, j) && unchanged(widget.Host())
    {
      UniqueAppend(children, child);
      children := children + [child];
      raised := child == widget && widget.mounted;
      if widget.mounted && !raised {
        child.Mount(widget, widget.window, j);
        widget.Invalidate(now);
      }
    }

    /** remove_child: a child is unmounted, its first occurrence removed, and the window invalidated; anything else is ignored. */
    method RemoveChild(child: Widget, j: Journal, now: real)
      requires Valid()
      modifies this`children, child`parent, child`window, child`mounted, j
      modifies widget.Host()`needsRedraw, widget.Host()`lastInvalidate
      ensures Valid()
      ensures child !in old(children) ==> children == old(children) && unchanged(child, j) && unchanged(widget.Host())
      ensures child in old(children) ==>
        && children == RemoveFirst(old(children), child) && child !in children
        && child.parent == null && child.window == null && !child.mounted
        && j.notices == old(j.notices) + Notices(child, child.HandlersFor(UnmountType), UnmountType, old(child.mounted), old(child.parent))
        && (widget.window != null ==>
              widget.window.Redrawn(old(widget.window.needsRedraw), old(widget.window.lastInvalidate), now))
    {
      if child in children {
        child.Unmount(j);
        children := RemoveFirst(children, child);
        widget.Invalidate(now);
      }
    }

    /** calculate_size, following the loop of each container class. */
    method CalculateSize(aw: Extent, ah: Extent, measure: Measure) returns (size: Size)
      ensures size == SizeFor(kind, children, aw, ah, widget.padding, measure)
    {
      var pad := widget.padding;
      if children == [] {
        SizeForEmpty(kind, aw, ah, pad, measure);
        return (pad.left + pad.right, pad.top + pad.bottom);
      }
      match kind
      case Plain =>
        size := PlainCalculate(children, aw, ah, pad, measure);
      case RowBox(spacing, _) =>
        size := RowCalculate(children, ah, pad, spacing, measure);
      case ColumnBox(spacing, _) =>
        size := ColumnCalculate(children, aw, pad, spacing, measure);
      case StackBox =>
        size := StackCalculate(children, aw, ah, pad, measure);
    }

    /** layout: the container's rect, then each child's rect by its class's rule. */
    method Layout(rect: Rect, measure: Measure)
      requires Valid()
      modifies widget`rect, children`rect
      ensures widget.rect == rect
      ensures forall i :: 0 <= i < |children| ==> children[i].rect == ChildRects(kind, children, rect, widget.padding, measure)[i]
    {
      var pad := widget.padding;
      widget.Layout(rect);
      PlainLayout(children, rect, pad, measure);
      match kind
      case Plain =>
      case RowBox(spacing, align) =>
        if children != [] {
          RowLayout(children, rect, pad, spacing, align, measure);
        }
      case ColumnBox(spacing, align) =>
        ColumnLayout(children, rect, pad, spacing, align, measure);
      case StackBox =>
        StackLayout(children, ContentRect(rect, pad));
    }

    /**
     * handle_event: visible children from the last to the first; a pointer
     * event only to those containing its position; true at the first that
     * consumes it. index is that child, or -1.
     */
    method HandleEvent(ev: Event, accepts: Accepts) returns (consumed: bool, index: int)
      ensures consumed <==> index >= 0
      ensures Topmost(children, index, PointOf(ev), ev, accepts)
    {
      index := FindTaker(children, PointOf(ev), ev, accepts);
      consumed := index >= 0;
    }
  }

  /** The position a pointer event carries, used to filter the children offered it. */
  function PointOf(ev: Event): (at: Option<(real, real)>)
    ensures at.Some? <==> ev.IsPointer()
  {
    if ev.IsPointer() then Some((ev.x, ev.y)) else None
  }

  /** The mount loop of Container.mount and Window.mount_children: every child linked to parent p and window w. */
  method MountAll(cs: seq<Widget>, p: Widget?, w: Window?, j: Journal)
    requires p == null || p !in cs
    modifies cs`parent, cs`window, cs`mounted, j
    ensures forall i :: 0 <= i < |cs| ==>
      cs[i].parent == p && cs[i].window == (if w != null then w else if p != null then p.window else null) && cs[i].mounted
    ensures j.notices == old(j.notices + MountNotices(cs, p))
  {
    var win := if w != null then w else if p != null then p.window else null;
    for i := 0 to |cs|
      invariant forall k :: 0 <= k < i ==> cs[k].parent == p && cs[k].window == win && cs[k].mounted
      invariant j.notices == old(j.notices + MountNotices(cs[..i], p))
    {
      cs[i].Mount(p, w, j);
      assert cs[..i + 1][..i] == cs[..i];
    }
    assert cs[..|cs|] == cs;
  }

  /** The unmount loop of Container.unmount and Window.unmount_children: every child unlinked, in order. */
  method UnmountAll(cs: seq<Widget>, j: Journal)
    requires Unique(cs)
    modifies cs`parent, cs`window, cs`mounted, j
    ensures forall i :: 0 <= i < |cs| ==> cs[i].parent == null && cs[i].window == null && !cs[i].mounted
    ensures j.notices == old(j.notices + UnmountNotices(cs))
  {
    for i := 0 to |cs|
      invariant forall k :: 0 <= k < i ==> cs[k].parent == null && cs[k].window == null && !cs[k].mounted
      invariant forall k :: i <= k < |cs| ==> cs[k].parent == old(cs[k].parent) && cs[k].mounted == old(cs[k].mounted)
      invariant j.notices == old(j.notices) + old(UnmountNotices(cs[..i]))
    {
      cs[i].Unmount(j);
      assert cs[..i + 1][..i] == cs[..i];
    }
    assert cs[..|cs|] == cs;
  }

  /** Stack.layout's loop: every child receives the same content rect. */
  method StackLayout(cs: seq<Widget>, content: Rect)
    modifies cs`rect
    ensures forall i :: 0 <= i < |cs| ==> cs[i].rect == content
  {
    for i := 0 to |cs|
      invariant forall k :: 0 <= k < i ==> cs[k].rect == content
    {
      cs[i].Layout(content);
    }
  }

  /** The MOUNT listener calls of the children, in order, each with parent as its parent. */
  function MountNotices(cs: seq<Widget>, parent: Widget?): seq<Notice>
    reads cs`handlers
  {
    if cs == [] then []
    else MountNotices(cs[..|cs| - 1], parent)
         + Notices(cs[|cs| - 1], cs[|cs| - 1].HandlersFor(MountType), MountType, true, parent)
  }

  /** The UNMOUNT listener calls of the children, in order, each seeing its links before its unmount. */
  function UnmountNotices(cs: seq<Widget>): seq<Notice>
    reads cs`handlers, cs`mounted, cs`parent
  {
    if cs == [] then []
    else UnmountNotices(cs[..|cs| - 1])
         + Notices(cs[|cs| - 1], cs[|cs| - 1].HandlersFor(UnmountType), UnmountType, cs[|cs| - 1].mounted, cs[|cs| - 1].parent)
  }

  /** A child is offered an event when it is visible and, for a pointer event, contains the point. */
  predicate Offered(c: Widget, at: Option<(real, real)>)
    reads c`visible, c`rect
  {
    c.visible && (at.None? || c.ContainsPoint(at.value.0, at.value.1))
  }

  /**
   * index is the last child that is offered the event and consumes it, or
   * -1 when none does: every child after index declines or is not offered.
   */
  predicate Topmost(cs: seq<Widget>, index: int, at: Option<(real, real)>, ev: Event, accepts: Accepts)
    reads cs`visible, cs`rect
  {
    && -1 <= index < |cs|
    && (index >= 0 ==> Offered(cs[index], at) && accepts(cs[index], ev))
    && (forall k :: index < k < |cs| ==> !(Offered(cs[k], at) && accepts(cs[k], ev)))
  }

  /** The reversed dispatch loop shared by Container.handle_event and Window.handle_event. */
  method FindTaker(cs: seq<Widget>, at: Option<(real, real)>, ev: Event, accepts: Accepts) returns (index: int)
    ensures Topmost(cs, index, at, ev, accepts)
  {
    index := |cs| - 1;
    while index >= 0
      invariant -1 <= index < |cs|
      invariant forall k :: index < k < |cs| ==> !(Offered(cs[k], at) && accepts(cs[k], ev))
    {
      if Offered(cs[index], at) && accepts(cs[index], ev) {
        return;
      }
      index := index - 1;
    }
  }

  /** The topmost child is unique: two answers that both satisfy Topmost are the same index. */
  lemma TopmostUnique(cs: seq<Widget>, i: int, j: int, at: Option<(real, real)>, ev: Event, accepts: Accepts)
    requires Topmost(cs, i, at, ev, accepts) && Topmost(cs, j, at, ev, accepts)
    ensures i == j
  {
  }

  /** Container.calculate_size: the widest child and the stacked heights, inside the padding. */
  method PlainCalculate(cs: seq<Widget>, aw: Extent, ah: Extent, pad: Padding, measure: Measure) returns (size: Size)
    requires cs != []
    ensures size == SizeFor(Plain, cs, aw, ah, pad, measure)
  {
    var offerW := aw.Minus(pad.left + pad.right);
    var used := pad.top + pad.bottom;
    var maxW, totalH := PlainTotals(cs, offerW, ah, used, measure);
    size := (maxW + pad.left + pad.right, totalH);
    SizeForPlain(cs, aw, ah, pad, offerW, used, measure, size);
  }

  /** Container.calculate_size's rule, with the offered width and the padding height named. */
  lemma SizeForPlain(cs: seq<Widget>, aw: Extent, ah: Extent, pad: Padding, offerW: Extent, used: real, measure: Measure, size: Size)
    requires offerW == aw.Minus(pad.left + pad.right) && used == pad.top + pad.bottom
    requires size == PlainSizeFor(cs, offerW, ah, used, pad, measure)
    ensures SizeFor(Plain, cs, aw, ah, pad, measure) == size
  {
  }

  /** Container.calculate_size's loop: each child offered the height its predecessors leave. */
  method PlainTotals(cs: seq<Widget>, aw: Extent, ah: Extent, used: real, measure: Measure) returns (maxW: real, totalH: real)
    ensures maxW == MaxW(Stacking(cs, aw, ah, used, measure))
    ensures totalH == used + SumH(Stacking(cs, aw, ah, used, measure))
  {
    ghost var all := Stacking(cs, aw, ah, used, measure);
    maxW := 0.0;
    totalH := used;
    for i := 0 to |cs|
      invariant maxW == MaxW(all[..i]) && totalH == used + SumH(all[..i])
    {
      var size := measure(cs[i], aw, ah.Minus(totalH));
      StackingAt(cs, i, aw, ah, used, measure, all, totalH);
      PrefixStep(all, i);
      maxW := Max(maxW, size.0);
      totalH := totalH + size.1;
    }
    assert all[..|cs|] == all;
  }

  /** Row.calculate_size's loop: a spacing after every child but the last. */
  method RowCalculate(cs: seq<Widget>, ah: Extent, pad: Padding, spacing: real, measure: Measure) returns (size: Size)
    requires cs != []
    ensures size == RowSize(Measured(cs, Unbounded, ah, measure), pad, spacing)
  {
    ghost var all := Measured(cs, Unbounded, ah, measure);
    var totalW := pad.left + pad.right;
    var maxH := 0.0;
    for i := 0 to |cs|
      invariant totalW == pad.left + pad.right + AlongW(all, i, spacing) - (if i == |cs| then spacing else 0.0)
      invariant maxH == MaxH(all[..i])
    {
      var size := measure(cs[i], Unbounded, ah);
      AlongWStep(all, i, spacing);
      totalW := totalW + size.0;
      if i < |cs| - 1 {
        totalW := totalW + spacing;
      }
      assert all[..i + 1][..i] == all[..i];
      maxH := Max(maxH, size.1);
    }
    AlongWLast(all, spacing);
    AlongWStep(all, |cs| - 1, spacing);
    assert all[..|cs|] == all;
    assert maxH == MaxH(all);
    assert totalW == pad.left + pad.right + AlongW(all, |cs|, spacing) - spacing;
    assert AlongW(all, |cs|, spacing) - spacing == SumW(all) + spacing * Gaps(|all|);
    size := (totalW, maxH + pad.top + pad.bottom);
    assert size.0 == RowSize(all, pad, spacing).0;
    assert size.1 == RowSize(all, pad, spacing).1;
  }

  /** Column.calculate_size's loop: the Row loop on the other axis. */
  method ColumnCalculate(cs: seq<Widget>, aw: Extent, pad: Padding, spacing: real, measure: Measure) returns (size: Size)
    requires cs != []
    ensures size == ColumnSize(Measured(cs, aw, Unbounded, measure), pad, spacing)
  {
    ghost var all := Measured(cs, aw, Unbounded, measure);
    var maxW := 0.0;
    var totalH := pad.top + pad.bottom;
    for i := 0 to |cs|
      invariant totalH == pad.top + pad.bottom + AlongH(all, i, spacing) - (if i == |cs| then spacing else 0.0)
      invariant maxW == MaxW(all[..i])
    {
      var size := measure(cs[i], aw, Unbounded);
      AlongHStep(all, i, spacing);
      maxW := Max(maxW, size.0);
      totalH := totalH + size.1;
      if i < |cs| - 1 {
        totalH := totalH + spacing;
      }
      assert all[..i + 1][..i] == all[..i];
    }
    AlongHLast(all, spacing);
    AlongHStep(all, |cs| - 1, spacing);
    assert all[..|cs|] == all;
    assert maxW == MaxW(all);
    assert totalH == pad.top + pad.bottom + AlongH(all, |cs|, spacing) - spacing;
    assert AlongH(all, |cs|, spacing) - spacing == SumH(all) + spacing * Gaps(|all|);
    size := (maxW + pad.left + pad.right, totalH);
    assert size.0 == ColumnSize(all, pad, spacing).0;
    assert size.1 == ColumnSize(all, pad, spacing).1;
  }

  /** Stack.calculate_size's loop: running maxima on both axes. */
  method StackCalculate(cs: seq<Widget>, aw: Extent, ah: Extent, pad: Padding, measure: Measure) returns (size: Size)
    requires cs != []
    ensures size == StackSize(Measured(cs, aw, ah, measure), pad)
  {
    ghost var all := Measured(cs, aw, ah, measure);
    var maxW := 0.0;
    var maxH := 0.0;
    for i := 0 to |cs|
      invariant maxW == MaxW(all[..i]) && maxH == MaxH(all[..i])
    {
      var size := measure(cs[i], aw, ah);
      maxW := Max(maxW, size.0);
      maxH := Max(maxH, size.1);
      assert all[..i + 1][..i] == all[..i];
    }
    assert all[..|cs|] == all;
    size := (maxW + pad.left + pad.right, maxH + pad.top + pad.bottom);
  }

  /** Container.layout's loop: children stacked down from the top padding, clamped to the content width. */
  method PlainLayout(cs: seq<Widget>, rect: Rect, pad: Padding, measure: Measure)
    requires Unique(cs)
    modifies cs`rect
    ensures forall i :: 0 <= i < |cs| ==> cs[i].rect == ChildRects(Plain, cs, rect, pad, measure)[i]
  {
    var content := rect.width - pad.left - pad.right;
    StackPlace(cs, rect.x + pad.left, rect.y + pad.top, content, content, 0.0, measure);
    ChildRectsPlain(cs, rect, pad, content, measure);
  }

  /**
   * The placement loop of Container.layout (gap 0), Card.layout, Modal.layout
   * and ScrollableContainer.layout (gap 8): each child measured against
   * (offer, inf), placed at x and the running y, no wider than maxWidth;
   * y then moves down by the child's height and the gap.
   */
  method StackPlace(cs: seq<Widget>, x: real, top: real, offer: real, maxWidth: real, gap: real, measure: Measure)
    requires Unique(cs)
    modifies cs`rect
    ensures forall i :: 0 <= i < |cs| ==>
      cs[i].rect == StackedRects(Measured(cs, Finite(offer), Unbounded, measure), x, top, maxWidth, gap)[i]
  {
    ghost var all := Measured(cs, Finite(offer), Unbounded, measure);
    ghost var want := StackedRects(all, x, top, maxWidth, gap);
    var y := top;
    for i := 0 to |cs|
      invariant y == top + AlongH(all, i, gap)
      invariant forall k :: 0 <= k < i ==> cs[k].rect == want[k]
    {
      var size := measure(cs[i], Finite(offer), Unbounded);
      assert want[i] == Rect(x, y, Min(size.0, maxWidth), size.1);
      cs[i].Layout(Rect(x, y, Min(size.0, maxWidth), size.1));
      AlongHStep(all, i, gap);
      y := y + size.1 + gap;
    }
  }

  /** Container.layout's rule is StackedRects of the children's answers to the content width. */
  lemma ChildRectsPlain(cs: seq<Widget>, rect: Rect, pad: Padding, content: real, measure: Measure)
    requires content == rect.width - pad.left - pad.right
    ensures ChildRects(Plain, cs, rect, pad, measure)
         == StackedRects(Measured(cs, Finite(content), Unbounded, measure), rect.x + pad.left, rect.y + pad.top, content, 0.0)
  {
  }

  /** Row.layout's loops: every child measured first, then placed from the aligned start. */
  method RowLayout(cs: seq<Widget>, rect: Rect, pad: Padding, spacing: real, alignName: string, measure: Measure)
    requires cs != [] && Unique(cs)
    modifies cs`rect
    ensures forall i :: 0 <= i < |cs| ==> cs[i].rect == ChildRects(RowBox(spacing, alignName), cs, rect, pad, measure)[i]
  {
    var align := RowAlign(alignName);
    var sizes, total := RowMeasure(cs, rect.height, spacing, measure);
    ghost var want := RowRects(sizes, rect, pad, spacing, align);
    assert want == ChildRects(RowBox(spacing, alignName), cs, rect, pad, measure);
    var x := RowStart(total, rect, pad, align);
    for i := 0 to |cs|
      invariant i < |cs| ==> x == RowStart(total, rect, pad, align) + AlongW(sizes, i, spacing)
      invariant forall k :: 0 <= k < i ==> cs[k].rect == want[k]
    {
      assert want[i] == Rect(x, rect.y + pad.top, sizes[i].0, sizes[i].1);
      cs[i].Layout(Rect(x, rect.y + pad.top, sizes[i].0, sizes[i].1));
      AlongWStep(sizes, i, spacing);
      x := x + sizes[i].0;
      if i < |cs| - 1 {
        x := x + spacing;
      }
    }
  }

  /** Row.layout's first loop: the sizes and the total width with the spacings between them. */
  method RowMeasure(cs: seq<Widget>, height: real, spacing: real, measure: Measure) returns (sizes: seq<Size>, total: real)
    requires cs != []
    ensures sizes == Measured(cs, Unbounded, Finite(height), measure)
    ensures total == RowTotal(sizes, spacing)
  {
    ghost var all := Measured(cs, Unbounded, Finite(height), measure);
    sizes := [];
    total := 0.0;
    for i := 0 to |cs|
      invariant sizes == all[..i]
      invariant total == AlongW(all, i, spacing) - (if i == |cs| then spacing else 0.0)
    {
      var size := measure(cs[i], Unbounded, Finite(height));
      AlongWStep(all, i, spacing);
      total := total + size.0;
      if i < |cs| - 1 {
        total := total + spacing;
      }
      sizes := sizes + [size];
    }
    assert all[..|cs|] == all;
    AlongWLast(all, spacing);
    AlongWStep(all, |cs| - 1, spacing);
  }

  /** Column.layout's loop: children down from the top padding, x and width by align. */
  method ColumnLayout(cs: seq<Widget>, rect: Rect, pad: Padding, spacing: real, alignName: string, measure: Measure)
    requires Unique(cs)
    modifies cs`rect
    ensures forall i :: 0 <= i < |cs| ==> cs[i].rect == ChildRects(ColumnBox(spacing, alignName), cs, rect, pad, measure)[i]
  {
    var content := rect.width - pad.left - pad.right;
    var align := ParseAlign(alignName);
    ColumnPlace(cs, rect, pad, spacing, align, content, measure);
    ChildRectsColumn(cs, rect, pad, spacing, alignName, content, measure);
  }

  /** Column.layout's rule is ColumnRects of the children's answers to the content width. */
  lemma ChildRectsColumn(cs: seq<Widget>, rect: Rect, pad: Padding, spacing: real, alignName: string, content: real, measure: Measure)
    requires content == rect.width - pad.left - pad.right
    ensures ChildRects(ColumnBox(spacing, alignName), cs, rect, pad, measure)
         == ColumnRects(Measured(cs, Finite(content), Unbounded, measure), rect, pad, spacing, ParseAlign(alignName))
  {
  }

  /** The placement loop of Column.layout. */
  method ColumnPlace(cs: seq<Widget>, rect: Rect, pad: Padding, spacing: real, align: Align, content: real, measure: Measure)
    requires Unique(cs)
    modifies cs`rect
    ensures forall i :: 0 <= i < |cs| ==>
      cs[i].rect == ColumnRects(Measured(cs, Finite(content), Unbounded, measure), rect, pad, spacing, align)[i]
  {
    ghost var all := Measured(cs, Finite(content), Unbounded, measure);
    ghost var want := ColumnRects(all, rect, pad, spacing, align);
    var top := rect.y + pad.top;
    var y := top;
    for i := 0 to |cs|
      invariant i < |cs| ==> y == top + AlongH(all, i, spacing)
      invariant forall k :: 0 <= k < i ==> cs[k].rect == want[k]
    {
      var size := measure(cs[i], Finite(content), Unbounded);
      ColumnRectsAt(all, rect, pad, spacing, align, i);
      cs[i].Layout(ColumnChild(size, y, rect, pad, align));
      AlongHStep(all, i, spacing);
      y := y + size.1;
      if i < |cs| - 1 {
        y := y + spacing;
      }
    }
  }

  lemma ColumnRectsAt(s: seq<Size>, rect: Rect, pad: Padding, spacing: real, align: Align, i: nat)
    requires i < |s|
    ensures ColumnRects(s, rect, pad, spacing, align)[i] == ColumnChild(s[i], rect.y + pad.top + AlongH(s, i, spacing), rect, pad, align)
  {
  }

  /** The measurements of a prefix of the children are a prefix of the measurements. */
  lemma {:induction false} StackingPrefix(cs: seq<Widget>, i: nat, aw: Extent, ah: Extent, used: real, measure: Measure)
    requires i <= |cs|
    ensures Stacking(cs[..i], aw, ah, used, measure) == Stacking(cs, aw, ah, used, measure)[..i]
    decreases |cs|
  {
    if i == |cs| {
      assert cs[..i] == cs;
    } else {
      var init := cs[..|cs| - 1];
      var whole := Stacking(cs, aw, ah, used, measure);
      StackingPrefix(init, i, aw, ah, used, measure);
      assert init[..i] == cs[..i];
      assert whole[..|cs| - 1] == Stacking(init, aw, ah, used, measure);
      assert whole[..|cs| - 1][..i] == whole[..i];
    }
  }

  /** Window.layout's placement: top-level children stacked from y = 0 at x = 0, at their measured size. */
  function WindowRects(s: seq<Size>): (r: seq<Rect>)
    ensures |r| == |s|
    ensures forall i :: 0 <= i < |s| ==> r[i] == Rect(0.0, AlongH(s, i, 0.0), s[i].0, s[i].1)
  {
    seq(|s|, i requires 0 <= i < |s| => Rect(0.0, AlongH(s, i, 0.0), s[i].0, s[i].1))
  }

  /** Top-level children touch: each starts where the one above it ends. */
  lemma WindowRectsAdjacent(s: seq<Size>, i: nat)
    requires i + 1 < |s|
    ensures WindowRects(s)[i + 1].y == WindowRects(s)[i].y + WindowRects(s)[i].height
  {
    AlongHStep(s, i, 0.0);
  }

  /** Window.layout's loop: each child measured with the height left and placed below the ones before it. */
  method WindowPlace(cs: seq<Widget>, w: real, h: real, measure: Measure)
    requires Unique(cs)
    modifies cs`rect
    ensures forall i :: 0 <= i < |cs| ==> cs[i].rect == WindowRects(Stacking(cs, Finite(w), Finite(h), 0.0, measure))[i]
  {
    ghost var all := Stacking(cs, Finite(w), Finite(h), 0.0, measure);
    ghost var want := WindowRects(all);
    var y := 0.0;
    for i := 0 to |cs|
      invariant y == AlongH(all, i, 0.0)
      invariant forall k :: 0 <= k < i ==> cs[k].rect == want[k]
    {
      var size := measure(cs[i], Finite(w), Finite(h - y));
      WindowStep(cs, i, w, h, measure, all, y);
      assert forall k :: 0 <= k < i ==> cs[k] != cs[i];
      cs[i].Layout(Rect(0.0, y, size.0, size.1));
      y := y + size.1;
    }
  }

  /** One step of Window.layout's loop: the child at y gets its stacked rect, and y moves past it. */
  lemma {:induction false} WindowStep(cs: seq<Widget>, i: nat, w: real, h: real, measure: Measure, all: seq<Size>, y: real)
    requires i < |cs| && all == Stacking(cs, Finite(w), Finite(h), 0.0, measure)
    requires y == AlongH(all, i, 0.0)
    ensures var size := measure(cs[i], Finite(w), Finite(h - y));
      && Rect(0.0, y, size.0, size.1) == WindowRects(all)[i]
      && y + size.1 == AlongH(all, i + 1, 0.0)
  {
    assert y == SumH(all[..i]);
    StackingAt(cs, i, Finite(w), Finite(h), 0.0, measure, all, y);
    assert all[i] == measure(cs[i], Finite(w), Finite(h - y));
    AlongHStep(all, i, 0.0);
  }

  /** The visible children, in order. */
  function VisibleOf(cs: seq<Widget>): (r: seq<Widget>)
    reads cs`visible
    ensures |r| <= |cs|
    ensures forall i :: 0 <= i < |r| ==> r[i] in cs && r[i].visible
    ensures forall i :: 0 <= i < |cs| && cs[i].visible ==> cs[i] in r
  {
    if cs == [] then []
    else
      var last := cs[|cs| - 1];
      VisibleOf(cs[..|cs| - 1]) + (if last.visible then [last] else [])
  }

  /** One widget is drawn iff it is visible. */
  lemma VisibleOfSingle(w: Widget)
    ensures VisibleOf([w]) == if w.visible then [w] else []
  {
    assert [w][..0] == [];
  }

  /** VisibleOf keeps order: the visible children of a + b are those of a, then those of b. */
  lemma {:induction false} VisibleOfAppend(a: seq<Widget>, b: seq<Widget>)
    ensures VisibleOf(a + b) == VisibleOf(a) + VisibleOf(b)
  {
    if b == [] {
      assert a + b == a;
    } else {
      var init := b[..|b| - 1];
      assert (a + b)[..|a + b| - 1] == a + init;
      assert (a + b)[|a + b| - 1] == b[|b| - 1];
      VisibleOfAppend(a, init);
    }
  }

  /** The windows some of the widgets are attached to. */
  function HostsOf(cs: seq<Widget>): set<Window>
    reads cs`window
  {
    set c | c in cs && c.window != null :: c.window
  }

  /**
   * clear_recursive over a list of widgets: each cache dropped, then the
   * widget's window invalidated; a window several widgets share is
   * invalidated several times at the same instant, which acts as once.
   */
  method ClearCaches(cs: seq<Widget>, now: real)
    modifies cs`cached, HostsOf(cs)`needsRedraw, HostsOf(cs)`lastInvalidate
    ensures forall i :: 0 <= i < |cs| ==> !cs[i].cached
    ensures forall h :: h in HostsOf(cs) ==> h.Redrawn(old(h.needsRedraw), old(h.lastInvalidate), now)
  {
    ghost var hosts := HostsOf(cs);
    for i := 0 to |cs|
      invariant forall k :: 0 <= k < i ==> !cs[k].cached
      invariant forall h :: h in hosts ==>
        var state := (h.needsRedraw, h.lastInvalidate);
        state == old((h.needsRedraw, h.lastInvalidate)) || state == InvalidateStep(old(h.needsRedraw), old(h.lastInvalidate), now)
      invariant forall k :: 0 <= k < i && cs[k].window != null ==>
        var h := cs[k].window;
        (h.needsRedraw, h.lastInvalidate) == InvalidateStep(old(h.needsRedraw), old(h.lastInvalidate), now)
    {
      var c := cs[i];
      c.cached := false;
      var host := c.window;
      if host != null {
        InvalidateSameInstant(old(host.needsRedraw), old(host.lastInvalidate), now);
      }
      c.Invalidate(now);
    }
  }

  /** Every widget takes a hover test. */
  function AcceptAll(c: Widget, ev: Event): bool {
    true
  }

  /** The application window: the scheduler of redraws and the router of events to top-level children. */
  class Window {
    var width: int
    var height: int
    const resizable: bool
    const minWidth: int
    const minHeight: int
    var children: seq<Widget>
    var running: bool
    var needsRedraw: bool
    var lastInvalidate: real
    /** Whether pygame.display.set_mode has given the window a surface. */
    var hasSurface: bool
    var mouseX: real
    var mouseY: real
    /** _focused_widget: initialised to None and assigned nowhere else. */
    var focused: Widget?
    var hovered: Widget?
    var theme: nat
    const hasOnClose: bool
    /** Calls of on_close. */
    var closeCalls: nat
    /** The children each rendered frame drew, in order. */
    var frames: seq<seq<Widget>>
    /** Key events handed to the focused widget. */
    var keyDeliveries: seq<(Widget, Event)>

    /** Each top-level child is held once. */
    predicate Valid()
      reads this`children
    {
      Unique(children)
    }

    /**
     * Window.__init__ (defaults 800 × 600, resizable, minimum 400 × 300; no
     * theme means the default light theme, here 0): not running, dirty,
     * the mouse at the origin, nothing focused or hovered.
     */
    constructor(width: int, height: int, resizable: bool, minWidth: int, minHeight: int,
                theme: Option<nat>, children: seq<Widget>, hasOnClose: bool)
      requires Unique(children)
      ensures Valid()
      ensures this.width == width && this.height == height && this.resizable == resizable
      ensures this.minWidth == minWidth && this.minHeight == minHeight && this.children == children
      ensures this.theme == (if theme.Some? then theme.value else 0) && this.hasOnClose == hasOnClose
      ensures !running && needsRedraw && lastInvalidate == 0.0 && !hasSurface
      ensures mouseX == 0.0 && mouseY == 0.0 && focused == null && hovered == null
      ensures closeCalls == 0 && frames == [] && keyDeliveries == []
    {
      this.width := width;
      this.height := height;
      this.resizable := resizable;
      this.minWidth := minWidth;
      this.minHeight := minHeight;
      this.theme := if theme.Some? then theme.value else 0;
      this.children := children;
      this.hasOnClose := hasOnClose;
      running := false;
      needsRedraw := true;
      lastInvalidate := 0.0;
      hasSurface := false;
      mouseX := 0.0;
      mouseY := 0.0;
      focused := null;
      hovered := null;
      closeCalls := 0;
      frames := [];
      keyDeliveries := [];
    }

    /** The dirty flag and last time are those invalidate at now leaves behind from the given ones. */
    predicate Redrawn(oldNeeds: bool, oldLast: real, now: real)
      reads this`needsRedraw, this`lastInvalidate
    {
      (needsRedraw, lastInvalidate) == InvalidateStep(oldNeeds, oldLast, now)
    }

    /** invalidate, throttled to one per 1/120 s. */
    method Invalidate(now: real)
      modifies this`needsRedraw, this`lastInvalidate
      ensures Redrawn(old(needsRedraw), old(lastInvalidate), now)
    {
      if now - lastInvalidate > Throttle {
        needsRedraw := true;
        lastInvalidate := now;
      }
    }

    /** mount_children: each child mounted with no parent and this window. */
    method MountChildren(j: Journal)
      requires Valid()
      modifies children`parent, children`window, children`mounted, j
      ensures forall i :: 0 <= i < |children| ==>
        children[i].parent == null && children[i].window == this && children[i].mounted
      ensures j.notices == old(j.notices + MountNotices(children, null))
    {
      MountAll(children, null, this, j);
    }

    /** unmount_children: each child unmounted, in order. */
    method UnmountChildren(j: Journal)
      requires Valid()
      modifies children`parent, children`window, children`mounted, j
      ensures forall i :: 0 <= i < |children| ==>
        children[i].parent == null && children[i].window == null && !children[i].mounted
      ensures j.notices == old(j.notices + UnmountNotices(children))
    {
      UnmountAll(children, j);
    }

    /**
     * add_child: always appended, a child already present included (it is
     * then mounted a second time); mounted and the window invalidated only
     * while running. The window stays Valid exactly when the child is new.
     */
    method AddChild(child: Widget, j: Journal, now: real)
      modifies this`children, child`parent, child`window, child`mounted, j, this`needsRedraw, this`lastInvalidate
      ensures children == old(children) + [child]
      ensures Valid() <==> old(Valid()) && child !in old(children)
      ensures running ==>
        && child.parent == null && child.window == this && child.mounted
        && j.notices == old(j.notices) + Notices(child, child.HandlersFor(MountType), MountType, true, null)
        && Redrawn(old(needsRedraw), old(lastInvalidate), now)
      ensures !running ==> unchanged(child, j) && needsRedraw == old(needsRedraw) && lastInvalidate == old(lastInvalidate)
    {
      UniqueAppend(children, child);
      children := children + [child];
      ghost var valid := Valid();
      if running {
        child.Mount(null, this, j);
        Invalidate(now);
        assert Valid() == valid;
      }
    }

    /** remove_child: a child is unmounted, removed and the window invalidated; anything else is ignored. */
    method RemoveChild(child: Widget, j: Journal, now: real)
      requires Valid()
      modifies this`children, child`parent, child`window, child`mounted, j, this`needsRedraw, this`lastInvalidate
      ensures Valid()
      ensures child !in old(children) ==>
        children == old(children) && unchanged(child, j) && needsRedraw == old(needsRedraw) && lastInvalidate == old(lastInvalidate)
      ensures child in old(children) ==>
        && children == RemoveFirst(old(children), child) && child !in children
        && child.parent == null && child.window == null && !child.mounted
        && j.notices == old(j.notices) + Notices(child, child.HandlersFor(UnmountType), UnmountType, old(child.mounted), old(child.parent))
        && Redrawn(old(needsRedraw), old(lastInvalidate), now)
    {
      if child in children {
        child.Unmount(j);
        children := RemoveFirst(children, child);
        Invalidate(now);
      }
    }

    /** The measurements layout takes: each child offered the window width and the height left below the ones above. */
    function Measurements(measure: Measure): seq<Size>
      reads this`children, this`width, this`height
    {
      Stacking(children, Finite(width as real), Finite(height as real), 0.0, measure)
    }

    /** layout: top-level children stacked from the top-left corner. */
    method Layout(measure: Measure)
      requires Valid()
      modifies children`rect
      ensures forall i :: 0 <= i < |children| ==> children[i].rect == WindowRects(Measurements(measure))[i]
    {
      if children == [] {
        return;
      }
      WindowPlace(children, width as real, height as real, measure);
    }

    /** render: nothing without a surface or when clean; otherwise the visible children are drawn in order and the flag cleared. */
    method Render()
      modifies this`needsRedraw, this`frames
      ensures !hasSurface || !old(needsRedraw) ==> needsRedraw == old(needsRedraw) && frames == old(frames)
      ensures hasSurface && old(needsRedraw) ==> !needsRedraw && frames == old(frames) + [VisibleOf(children)]
    {
      if !hasSurface || !needsRedraw {
        return;
      }
      var drawn: seq<Widget> := [];
      for i := 0 to |children|
        invariant drawn == VisibleOf(children[..i])
      {
        if children[i].visible {
          drawn := drawn + [children[i]];
        }
        assert children[..i + 1][..i] == children[..i];
      }
      assert children[..|children|] == children;
      frames := frames + [drawn];
      needsRedraw := false;
    }

    /** _update_hover_state: the last visible child under the mouse, or none. */
    method UpdateHover()
      modifies this`hovered
      ensures exists i :: Topmost(children, i, Some((mouseX, mouseY)), OtherEvent, AcceptAll)
                          && hovered == (if i >= 0 then children[i] else null)
    {
      var i := FindTaker(children, Some((mouseX, mouseY)), OtherEvent, AcceptAll);
      var next := if i >= 0 then children[i] else null;
      if next != hovered {
        hovered := next;
      }
      assert Topmost(children, i, Some((mouseX, mouseY)), OtherEvent, AcceptAll) && hovered == (if i >= 0 then children[i] else null);
    }

    /** The VIDEORESIZE branch: a resizable window takes the requested size, no smaller than its minimum, then lays out and invalidates. */
    method Resize(w: int, h: int, now: real, measure: Measure)
      requires Valid()
      modifies this`width, this`height, this`hasSurface, children`rect, this`needsRedraw, this`lastInvalidate
      ensures !resizable ==> unchanged(this) && unchanged(children)
      ensures resizable ==>
        && width == (if w >= minWidth then w else minWidth)
        && height == (if h >= minHeight then h else minHeight)
        && hasSurface
        && (forall i :: 0 <= i < |children| ==> children[i].rect == WindowRects(Measurements(measure))[i])
        && Redrawn(old(needsRedraw), old(lastInvalidate), now)
    {
      if resizable {
        width := if w >= minWidth then w else minWidth;
        height := if h >= minHeight then h else minHeight;
        hasSurface := true;
        Layout(measure);
        Invalidate(now);
      }
    }

    /**
     * handle_event. index is the top-level child that consumed a mouse
     * button event, -1 otherwise; button events are routed by the stored
     * mouse position, not the event's own.
     */
    method HandleEvent(ev: Event, now: real, measure: Measure, accepts: Accepts) returns (index: int)
      requires Valid()
      modifies this`running, this`closeCalls, this`width, this`height, this`hasSurface, children`rect
      modifies this`needsRedraw, this`lastInvalidate, this`mouseX, this`mouseY, this`hovered, this`keyDeliveries
      ensures !ev.MouseDown? && !ev.MouseUp? ==> index == -1
      ensures ev.Quit? ==>
        !running && closeCalls == old(closeCalls) + (if hasOnClose then 1 else 0)
      ensures ev.VideoResize? && resizable ==>
        && width == (if ev.w >= minWidth then ev.w else minWidth)
        && height == (if ev.h >= minHeight then ev.h else minHeight)
        && (forall i :: 0 <= i < |children| ==> children[i].rect == WindowRects(Measurements(measure))[i])
        && Redrawn(old(needsRedraw), old(lastInvalidate), now)
      ensures ev.MouseMotion? ==>
        && mouseX == ev.x && mouseY == ev.y
        && exists i :: Topmost(children, i, Some((ev.x, ev.y)), OtherEvent, AcceptAll)
                       && hovered == (if i >= 0 then children[i] else null)
      ensures ev.MouseDown? || ev.MouseUp? ==>
        Topmost(children, index, Some((mouseX, mouseY)), ev, accepts) && mouseX == old(mouseX) && mouseY == old(mouseY)
      ensures ev.IsKey() ==>
        keyDeliveries == old(keyDeliveries) + (if focused != null then [(focused, ev)] else [])
      ensures !ev.IsKey() ==> keyDeliveries == old(keyDeliveries)
      ensures !ev.Quit? ==> running == old(running) && closeCalls == old(closeCalls)
      ensures !(ev.VideoResize? && resizable) ==>
        width == old(width) && height == old(height) && needsRedraw == old(needsRedraw) && lastInvalidate == old(lastInvalidate)
        && unchanged(children`rect)
      ensures !ev.MouseMotion? ==> mouseX == old(mouseX) && mouseY == old(mouseY) && hovered == old(hovered)
    {
      index := -1;
      match ev
      case Quit =>
        running := false;
        if hasOnClose {
          closeCalls := closeCalls + 1;
        }
      case VideoResize(w, h) =>
        Resize(w, h, now, measure);
      case MouseMotion(x, y) =>
        mouseX, mouseY := x, y;
        UpdateHover();
      case MouseDown(_, _, _) =>
        index := FindTaker(children, Some((mouseX, mouseY)), ev, accepts);
      case MouseUp(_, _, _) =>
        index := FindTaker(children, Some((mouseX, mouseY)), ev, accepts);
      case KeyDown(_, _, _) =>
        if focused != null {
          keyDeliveries := keyDeliveries + [(focused, ev)];
        }
      case KeyUp(_) =>
        if focused != null {
          keyDeliveries := keyDeliveries + [(focused, ev)];
        }
      case _ =>
    }

    /**
     * _clear_all_caches over the top-level children: every cache dropped
     * and every child's window invalidated at now.
     */
    method ClearAllCaches(now: real)
      modifies children`cached, HostsOf(children)`needsRedraw, HostsOf(children)`lastInvalidate
      ensures forall i :: 0 <= i < |children| ==> !children[i].cached
      ensures forall h :: h in HostsOf(children) ==> h.Redrawn(old(h.needsRedraw), old(h.lastInvalidate), now)
      ensures this in HostsOf(children) ==> Redrawn(old(needsRedraw), old(lastInvalidate), now)
      ensures this !in HostsOf(children) ==> needsRedraw == old(needsRedraw) && lastInvalidate == old(lastInvalidate)
    {
      ClearCaches(children, now);
    }

    /** The middle of set_theme: every cache cleared, then this window invalidated. */
    method ForceRedraw(now: real)
      modifies children`cached, HostsOf(children)`needsRedraw, HostsOf(children)`lastInvalidate
      modifies this`needsRedraw, this`lastInvalidate
      ensures forall i :: 0 <= i < |children| ==> !children[i].cached
      ensures Redrawn(old(needsRedraw), old(lastInvalidate), now)
    {
      ClearAllCaches(now);
      InvalidateSameInstant(old(needsRedraw), old(lastInvalidate), now);
      Invalidate(now);
    }

    /** set_theme: the theme replaced, caches cleared, the window invalidated and laid out again. */
    method SetTheme(t: nat, now: real, measure: Measure)
      requires Valid()
      modifies this`theme, children`cached, HostsOf(children)`needsRedraw, HostsOf(children)`lastInvalidate
      modifies this`needsRedraw, this`lastInvalidate, children`rect
      ensures theme == t
      ensures forall i :: 0 <= i < |children| ==> !children[i].cached
      ensures forall i :: 0 <= i < |children| ==> children[i].rect == WindowRects(Measurements(measure))[i]
      ensures Redrawn(old(needsRedraw), old(lastInvalidate), now)
    {
      theme := t;
      ForceRedraw(now);
      Layout(measure);
    }
  }
}
