/**
 * The two push buttons: Button (lumina/widgets/button.py) and ModernButton
 * (lumina/widgets/modern_button.py). Both follow one press/release rule,
 * stated once as PressRelease. Text measurement is a parameter; the
 * on_click callback, the CLICK listeners and redraw requests are counted
 * on the widget.
 */
module Buttons {
  import opened Options
  import opened Geometry
  import opened Graphics
  import opened Events
  import opened Styles

  /** contains_point(*event.pos) for an event that has a position. */
  predicate Inside(rect: Rect, ev: Event) {
    ev.IsPointer() && rect.Contains(ev.x, ev.y)
  }

  /** What one event does to a button's pressed flag. */
  datatype Press = Press(pressed: bool, consumed: bool, clicked: bool, redraw: bool)

  /**
   * The shared left-button rule: a press inside arms the button and is
   * consumed; a release always disarms it, and clicks (consumed) only when
   * the button was armed and the release is inside; an armed release
   * outside only redraws. Every other event leaves the button alone.
   */
  function PressRelease(pressed: bool, ev: Event, inside: bool): (r: Press)
    ensures r.clicked ==> pressed && inside && ev.IsLeftUp()
    ensures r.consumed <==> (ev.IsLeftDown() && inside) || r.clicked
    ensures ev.IsLeftDown() ==> r.pressed == (pressed || inside) && r.redraw == inside
    ensures ev.IsLeftUp() ==> !r.pressed && (r.clicked <==> pressed && inside) && r.redraw == pressed
    ensures !ev.IsLeftDown() && !ev.IsLeftUp() ==> r == Press(pressed, false, false, false)
  {
    if ev.IsLeftDown() then
      if inside then Press(true, true, false, true) else Press(pressed, false, false, false)
    else if ev.IsLeftUp() then
      if pressed && inside then Press(false, true, true, true)
      else Press(false, false, false, pressed)
    else Press(pressed, false, false, false)
  }

  /** Clicks produced by feeding events to an enabled button that starts with the given flag. */
  function Clicks(pressed: bool, rect: Rect, events: seq<Event>): nat
    decreases |events|
  {
    if events == [] then 0
    else
      var r := PressRelease(pressed, events[0], Inside(rect, events[0]));
      (if r.clicked then 1 else 0) + Clicks(r.pressed, rect, events[1..])
  }

  /** Left presses that land on the button. */
  function PressesInside(rect: Rect, events: seq<Event>): nat {
    if events == [] then 0
    else (if events[0].IsLeftDown() && Inside(rect, events[0]) then 1 else 0) + PressesInside(rect, events[1..])
  }

  /**
   * Every click is paid for by its own press on the button: over any run of
   * events there are no more clicks than presses inside (plus one when the
   * run starts already armed).
   */
  lemma {:induction false} ClicksNeedPresses(pressed: bool, rect: Rect, events: seq<Event>)
    ensures Clicks(pressed, rect, events) <= PressesInside(rect, events) + (if pressed then 1 else 0)
    decreases |events|
  {
    if events != [] {
      var r := PressRelease(pressed, events[0], Inside(rect, events[0]));
      ClicksNeedPresses(r.pressed, rect, events[1..]);
    }
  }

  /** A release without a press never clicks, wherever it lands. */
  lemma ReleaseAloneNeverClicks(rect: Rect, x: real, y: real)
    ensures Clicks(false, rect, [MouseUp(1, x, y)]) == 0
  {
    assert [MouseUp(1, x, y)][1..] == [];
  }

  /** A press and a release on the button is one click. */
  lemma PressReleaseInsideClicksOnce(rect: Rect, x: real, y: real)
    requires rect.Contains(x, y)
    ensures Clicks(false, rect, [MouseDown(1, x, y), MouseUp(1, x, y)]) == 1
  {
    var evs := [MouseDown(1, x, y), MouseUp(1, x, y)];
    assert Inside(rect, evs[0]) && Inside(rect, evs[1]);
    assert evs[1..] == [MouseUp(1, x, y)];
    assert evs[1..][1..] == [];
    assert Clicks(true, rect, evs[1..]) == 1 + Clicks(false, rect, []);
    assert PressRelease(false, evs[0], true).pressed;
  }

  // ----- Button -----

  /** Button's default padding. */
  function ButtonPadding(): (p: Padding)
    ensures p.top == p.bottom == 12.0 && p.left == p.right == 24.0
  {
    PaddingSymmetric(12.0, 24.0)
  }

  /** Button.calculate_size: text plus padding, at least 80 by 36. */
  function ButtonSize(textW: real, textH: real, padding: Padding): (size: (real, real))
    ensures size.0 >= 80.0 && size.1 >= 36.0
    ensures size.0 >= textW + padding.Horizontal() && size.1 >= textH + padding.Vertical()
    ensures size.0 == 80.0 || size.0 == textW + padding.Horizontal()
    ensures size.1 == 36.0 || size.1 == textH + padding.Vertical()
  {
    (Max(textW + padding.left + padding.right, 80.0), Max(textH + padding.top + padding.bottom, 36.0))
  }

  /** The variant names _apply_variant_style knows, and every other name. */
  datatype Variant = Primary | Secondary | TextOnly | OtherVariant

  function ParseVariant(variant: string): (v: Variant)
    ensures v == Primary <==> variant == "primary"
    ensures v == Secondary <==> variant == "secondary"
    ensures v == TextOnly <==> variant == "text"
  {
    if variant == "primary" then Primary
    else if variant == "secondary" then Secondary
    else if variant == "text" then TextOnly
    else OtherVariant
  }

  /**
   * Button._apply_variant_style: primary and secondary round the corners
   * to 8, primary also sets weight "600", secondary a 2-pixel border; all
   * three known variants show a pointer. Any other variant leaves the style.
   */
  function VariantStyle(style: Attrs, v: Variant): (r: Attrs)
    ensures r.Keys == style.Keys + (if v != OtherVariant then {Cursor} else {})
                                 + (if v in {Primary, Secondary} then {BorderRadius} else {})
                                 + (if v == Primary then {FontWeight} else {})
                                 + (if v == Secondary then {BorderWidth} else {})
    ensures v != OtherVariant ==> r[Cursor] == Text("pointer")
    ensures v in {Primary, Secondary} ==> r[BorderRadius] == Num(8.0)
    ensures v == Primary ==> r[FontWeight] == Text("600")
    ensures v == Secondary ==> r[BorderWidth] == Num(2.0)
    ensures forall k :: k in style && k != Cursor && k != BorderRadius && k != FontWeight && k != BorderWidth
              ==> r[k] == style[k]
    ensures v !in {Primary, Secondary} ==> forall k :: k in style && k != Cursor ==> r[k] == style[k]
    ensures v == OtherVariant ==> r == style
  {
    match v
    case Primary => style[BorderRadius := Num(8.0)][FontWeight := Text("600")][Cursor := Text("pointer")]
    case Secondary => style[BorderRadius := Num(8.0)][BorderWidth := Num(2.0)][Cursor := Text("pointer")]
    case TextOnly => style[Cursor := Text("pointer")]
    case OtherVariant => style
  }

  /** Only a primary button renders its label bold; the default style is not bold. */
  lemma OnlyPrimaryTurnsBold(v: Variant)
    ensures IsBold(VariantStyle(DefaultStyle(), v)[FontWeight]) <==> v == Primary
  {
    WeightFlags();
    if v != Primary {
      assert FontWeight in DefaultStyle();
      assert VariantStyle(DefaultStyle(), v)[FontWeight] == DefaultStyle()[FontWeight];
      FontFlags();
    }
  }

  /** Applying the variant twice is the same as once. */
  lemma VariantStyleIdempotent(style: Attrs, v: Variant)
    ensures VariantStyle(VariantStyle(style, v), v) == VariantStyle(style, v)
  {
    var once := VariantStyle(style, v);
    if v != OtherVariant {
      AssignSame(once, Cursor, Text("pointer"));
    }
    if v in {Primary, Secondary} {
      AssignSame(once, BorderRadius, Num(8.0));
    }
    if v == Primary {
      AssignSame(once, FontWeight, Text("600"));
    }
    if v == Secondary {
      AssignSame(once, BorderWidth, Num(2.0));
    }
  }

  /** A blended channel lies between its two inputs. */
  lemma BlendBetween(b: real, o: real, alpha: real)
    requires 0.0 <= alpha <= 1.0
    ensures Min(b, o) <= b * (1.0 - alpha) + o * alpha <= Max(b, o)
  {
    assert b * (1.0 - alpha) + o * alpha == b + (o - b) * alpha;
    var d := if o >= b then o - b else b - o;
    NonNegativeProduct(d, alpha);
    NonNegativeProduct(d, 1.0 - alpha);
    assert d * alpha + d * (1.0 - alpha) == d;
  }

  lemma NonNegativeProduct(x: real, y: real)
    requires x >= 0.0 && y >= 0.0
    ensures x * y >= 0.0
  {
  }

  /** int(b*(1-a) + o*a) for one channel. */
  function BlendChannel(b: Channel, o: Channel, alpha: real): int {
    Trunc(b as real * (1.0 - alpha) + o as real * alpha)
  }

  /**
   * Button._apply_overlay: each channel is int(base*(1-a) + overlay*a) and
   * the result is pygame.Color(r, g, b), so alpha is 255 whatever the
   * inputs had; None where pygame.Color would raise.
   */
  function ApplyOverlay(base: Color, overlay: Color, alpha: real): (c: Option<Color>)
    ensures c.Some? ==> c.value.a == 255
    ensures c.Some? <==> (0 <= BlendChannel(base.r, overlay.r, alpha) < 256
                          && 0 <= BlendChannel(base.g, overlay.g, alpha) < 256
                          && 0 <= BlendChannel(base.b, overlay.b, alpha) < 256)
  {
    MakeColor(BlendChannel(base.r, overlay.r, alpha), BlendChannel(base.g, overlay.g, alpha),
              BlendChannel(base.b, overlay.b, alpha), 255)
  }

  lemma BlendChannelBounds(b: Channel, o: Channel, alpha: real)
    requires 0.0 <= alpha <= 1.0
    ensures Min(b as real, o as real) <= BlendChannel(b, o, alpha) as real <= Max(b as real, o as real)
  {
    var x := b as real * (1.0 - alpha) + o as real * alpha;
    BlendBetween(b as real, o as real, alpha);
    var lo := if b <= o then b else o;
    assert Min(b as real, o as real) == lo as real;
    assert x >= 0.0;
    assert BlendChannel(b, o, alpha) == x.Floor;
    assert lo <= x.Floor;
  }

  /** For alpha in [0, 1] the overlay never fails, and each channel stays between base and overlay. */
  lemma ApplyOverlayDefined(base: Color, overlay: Color, alpha: real)
    requires 0.0 <= alpha <= 1.0
    ensures ApplyOverlay(base, overlay, alpha).Some?
    ensures var c := ApplyOverlay(base, overlay, alpha).value;
      Min(base.r as real, overlay.r as real) <= c.r as real <= Max(base.r as real, overlay.r as real)
      && Min(base.g as real, overlay.g as real) <= c.g as real <= Max(base.g as real, overlay.g as real)
      && Min(base.b as real, overlay.b as real) <= c.b as real <= Max(base.b as real, overlay.b as real)
  {
    BlendChannelBounds(base.r, overlay.r, alpha);
    BlendChannelBounds(base.g, overlay.g, alpha);
    BlendChannelBounds(base.b, overlay.b, alpha);
  }

  /** Alpha 0 gives back the base channels, alpha 1 the overlay's, both opaque. */
  lemma ApplyOverlayEnds(base: Color, overlay: Color)
    ensures ApplyOverlay(base, overlay, 0.0) == Some(Color(base.r, base.g, base.b, 255))
    ensures ApplyOverlay(base, overlay, 1.0) == Some(Color(overlay.r, overlay.g, overlay.b, 255))
  {
    assert BlendChannel(base.r, overlay.r, 0.0) == base.r;
    assert BlendChannel(base.g, overlay.g, 0.0) == base.g;
    assert BlendChannel(base.b, overlay.b, 0.0) == base.b;
    assert BlendChannel(base.r, overlay.r, 1.0) == overlay.r;
    assert BlendChannel(base.g, overlay.g, 1.0) == overlay.g;
    assert BlendChannel(base.b, overlay.b, 1.0) == overlay.b;
  }

  class Button {
    var pressed: bool
    var hovered: bool
    var rect: Rect
    var style: Attrs
    const padding: Padding
    const variant: string
    const disabled: bool
    const hasOnClick: bool
    /** Calls of on_click. */
    var clickCalls: nat
    /** CLICK events emitted to the listeners. */
    var clickEvents: nat
    /** Calls of invalidate(). */
    var invalidations: nat

    /** __init__: default padding unless one is given, then the variant's style. */
    constructor(variant: string, disabled: bool, hasOnClick: bool, padding: Option<Padding>, style: Attrs)
      ensures !pressed && !hovered && rect == Rect(0.0, 0.0, 0.0, 0.0)
      ensures this.padding == (if padding.Some? then padding.value else ButtonPadding())
      ensures this.style == VariantStyle(style, ParseVariant(variant))
      ensures this.variant == variant && this.disabled == disabled && this.hasOnClick == hasOnClick
      ensures clickCalls == 0 && clickEvents == 0 && invalidations == 0
    {
      pressed := false;
      hovered := false;
      rect := Rect(0.0, 0.0, 0.0, 0.0);
      this.padding := if padding.Some? then padding.value else ButtonPadding();
      this.style := VariantStyle(style, ParseVariant(variant));
      this.variant := variant;
      this.disabled := disabled;
      this.hasOnClick := hasOnClick;
      clickCalls := 0;
      clickEvents := 0;
      invalidations := 0;
    }

    /** calculate_size with the rendered text's size as parameters. */
    function CalculateSize(textW: real, textH: real): (real, real)
      reads this
    {
      ButtonSize(textW, textH, padding)
    }

    /** handle_event: a disabled button ignores everything; otherwise PressRelease. */
    method HandleEvent(ev: Event) returns (consumed: bool)
      modifies this`pressed, this`clickCalls, this`clickEvents, this`invalidations
      ensures disabled ==> !consumed && unchanged(this)
      ensures !disabled ==>
        var r := PressRelease(old(pressed), ev, Inside(rect, ev));
        && pressed == r.pressed && consumed == r.consumed
        && clickCalls == old(clickCalls) + (if r.clicked && hasOnClick then 1 else 0)
        && clickEvents == old(clickEvents) + (if r.clicked then 1 else 0)
        && invalidations == old(invalidations) + (if r.redraw then 1 else 0)
    {
      if disabled {
        return false;
      }
      consumed := false;
      if ev.IsLeftDown() {
        if rect.Contains(ev.x, ev.y) {
          pressed := true;
          invalidations := invalidations + 1;
          consumed := true;
        }
      } else if ev.IsLeftUp() {
        var wasPressed := pressed;
        pressed := false;
        if wasPressed && rect.Contains(ev.x, ev.y) {
          if hasOnClick {
            clickCalls := clickCalls + 1;
          }
          clickEvents := clickEvents + 1;
          invalidations := invalidations + 1;
          consumed := true;
        } else if wasPressed {
          invalidations := invalidations + 1;
        }
      }
    }

    /** The hover refresh at the end of render: hovered iff the mouse is on an enabled button. */
    method UpdateHover(mouseX: real, mouseY: real)
      modifies this`hovered, this`invalidations
      ensures hovered == (rect.Contains(mouseX, mouseY) && !disabled)
      ensures invalidations == old(invalidations) + (if hovered != old(hovered) then 1 else 0)
    {
      var was := hovered;
      hovered := rect.Contains(mouseX, mouseY) && !disabled;
      if was != hovered {
        invalidations := invalidations + 1;
      }
    }
  }

  // ----- ModernButton -----

  /** The size name, with every unknown name treated as medium. */
  datatype SizeClass = Small | Medium | Large

  function ClassOf(size: string): (c: SizeClass)
    ensures c == Small <==> size == "small"
    ensures c == Large <==> size == "large"
  {
    if size == "small" then Small else if size == "large" then Large else Medium
  }

  /** The default padding per size class. */
  function ModernPadding(c: SizeClass): (p: Padding)
    ensures p.top == p.bottom && p.left == p.right == 2.0 * p.top
    ensures c == Small ==> p.top == 8.0
    ensures c == Medium ==> p.top == 12.0
    ensures c == Large ==> p.top == 16.0
  {
    match c
    case Small => PaddingSymmetric(8.0, 16.0)
    case Medium => PaddingSymmetric(12.0, 24.0)
    case Large => PaddingSymmetric(16.0, 32.0)
  }

  /** The minimum (width, height) per size class. */
  function MinSize(c: SizeClass): (m: (real, real))
    ensures c == Small ==> m == (60.0, 32.0)
    ensures c == Medium ==> m == (80.0, 40.0)
    ensures c == Large ==> m == (100.0, 48.0)
  {
    match c
    case Small => (60.0, 32.0)
    case Medium => (80.0, 40.0)
    case Large => (100.0, 48.0)
  }

  /** (font_size, border_radius) per size class. */
  function SizeFont(c: SizeClass): (f: (real, real))
    ensures c == Small ==> f == (14.0, 6.0)
    ensures c == Medium ==> f == (16.0, 8.0)
    ensures c == Large ==> f == (18.0, 10.0)
  {
    match c
    case Small => (14.0, 6.0)
    case Medium => (16.0, 8.0)
    case Large => (18.0, 10.0)
  }

  /** The padding, minimum size and font of any size name are those of its class, so unknown names read as medium. */
  lemma UnknownSizeIsMedium(size: string)
    requires size != "small" && size != "medium" && size != "large"
    ensures ModernPadding(ClassOf(size)) == ModernPadding(ClassOf("medium"))
    ensures MinSize(ClassOf(size)) == MinSize(ClassOf("medium"))
    ensures SizeFont(ClassOf(size)) == SizeFont(ClassOf("medium"))
  {
  }

  /** A set icon (Python truthiness: not None and not empty). */
  predicate HasIcon(icon: Option<string>) {
    icon.Some? && icon.value != ""
  }

  /**
   * ModernButton.calculate_size: the text widened by 20 + 8 for an icon,
   * at least 20 high, plus padding, and at least the class minimum.
   */
  function ModernSize(textW: real, textH: real, icon: Option<string>, padding: Padding, size: string): (s: (real, real))
    ensures s.0 >= MinSize(ClassOf(size)).0 && s.1 >= MinSize(ClassOf(size)).1
    ensures s.0 >= textW + (if HasIcon(icon) then 28.0 else 0.0) + padding.Horizontal()
    ensures s.1 >= textH + padding.Vertical() && s.1 >= 20.0 + padding.Vertical()
    ensures s.0 == MinSize(ClassOf(size)).0 || s.0 == textW + (if HasIcon(icon) then 28.0 else 0.0) + padding.Horizontal()
    ensures s.1 == MinSize(ClassOf(size)).1 || s.1 == Max(textH, 20.0) + padding.Vertical()
  {
    var iconWidth := if HasIcon(icon) then 20.0 else 0.0;
    var iconSpacing := if HasIcon(icon) then 8.0 else 0.0;
    var contentW := textW + iconWidth + iconSpacing;
    var contentH := Max(textH, 20.0);
    var m := MinSize(ClassOf(size));
    (Max(contentW + padding.left + padding.right, m.0), Max(contentH + padding.top + padding.bottom, m.1))
  }

  /**
   * _apply_size_style: the class's font size and corner radius, weight
   * "600", and a pointer cursor unless disabled.
   */
  function SizeStyle(style: Attrs, size: string, disabled: bool): (r: Attrs)
    ensures r.Keys == style.Keys + {FontSize, BorderRadius, FontWeight, Cursor}
    ensures r[FontSize] == Num(SizeFont(ClassOf(size)).0)
    ensures r[BorderRadius] == Num(SizeFont(ClassOf(size)).1)
    ensures IsBold(r[FontWeight])
    ensures r[Cursor] == (if disabled then Text("default") else Text("pointer"))
    ensures forall k :: k in style && k !in {FontSize, BorderRadius, FontWeight, Cursor} ==> r[k] == style[k]
  {
    WeightFlags();
    var f := SizeFont(ClassOf(size));
    style[FontSize := Num(f.0)][BorderRadius := Num(f.1)][FontWeight := Text("600")]
         [Cursor := if disabled then Text("default") else Text("pointer")]
  }

  class ModernButton {
    var pressed: bool
    var hovered: bool
    var hoverProgress: real
    var pressProgress: real
    var rect: Rect
    var style: Attrs
    const padding: Padding
    const size: string
    const icon: Option<string>
    const disabled: bool
    const hasOnClick: bool
    var clickCalls: nat
    var clickEvents: nat
    var invalidations: nat

    /** Both progress values are always exactly 0 or 1. */
    predicate Valid()
      reads this
    {
      (hoverProgress == 0.0 || hoverProgress == 1.0) && (pressProgress == 0.0 || pressProgress == 1.0)
    }

    /** __init__: size-class padding unless one is given, then the size style. */
    constructor(size: string, icon: Option<string>, disabled: bool, hasOnClick: bool, padding: Option<Padding>, style: Attrs)
      ensures Valid()
      ensures !pressed && !hovered && hoverProgress == 0.0 && pressProgress == 0.0
      ensures rect == Rect(0.0, 0.0, 0.0, 0.0)
      ensures this.padding == (if padding.Some? then padding.value else ModernPadding(ClassOf(size)))
      ensures this.style == SizeStyle(style, size, disabled)
      ensures this.size == size && this.icon == icon && this.disabled == disabled && this.hasOnClick == hasOnClick
      ensures clickCalls == 0 && clickEvents == 0 && invalidations == 0
    {
      pressed := false;
      hovered := false;
      hoverProgress := 0.0;
      pressProgress := 0.0;
      rect := Rect(0.0, 0.0, 0.0, 0.0);
      this.padding := if padding.Some? then padding.value else ModernPadding(ClassOf(size));
      this.style := SizeStyle(style, size, disabled);
      this.size := size;
      this.icon := icon;
      this.disabled := disabled;
      this.hasOnClick := hasOnClick;
      clickCalls := 0;
      clickEvents := 0;
      invalidations := 0;
    }

    function CalculateSize(textW: real, textH: real): (real, real)
      reads this
    {
      ModernSize(textW, textH, icon, padding, size)
    }

    /**
     * handle_event: disabled ignores everything; motion tracks hover and
     * is never consumed; left press and release follow PressRelease.
     */
    method HandleEvent(ev: Event) returns (consumed: bool)
      modifies this`pressed, this`hovered, this`clickCalls, this`clickEvents, this`invalidations
      ensures disabled ==> !consumed && unchanged(this)
      ensures !disabled && ev.MouseMotion? ==>
        && !consumed && hovered == rect.Contains(ev.x, ev.y) && pressed == old(pressed)
        && clickCalls == old(clickCalls) && clickEvents == old(clickEvents)
        && invalidations == old(invalidations) + (if hovered != old(hovered) then 1 else 0)
      ensures !disabled && !ev.MouseMotion? ==>
        var r := PressRelease(old(pressed), ev, Inside(rect, ev));
        && hovered == old(hovered) && pressed == r.pressed && consumed == r.consumed
        && clickCalls == old(clickCalls) + (if r.clicked && hasOnClick then 1 else 0)
        && clickEvents == old(clickEvents) + (if r.clicked then 1 else 0)
        && invalidations == old(invalidations) + (if r.redraw then 1 else 0)
    {
      if disabled {
        return false;
      }
      consumed := false;
      if ev.MouseMotion? {
        var was := hovered;
        hovered := rect.Contains(ev.x, ev.y);
        if was != hovered {
          invalidations := invalidations + 1;
        }
      } else if ev.IsLeftDown() {
        if rect.Contains(ev.x, ev.y) {
          pressed := true;
          invalidations := invalidations + 1;
          consumed := true;
        }
      } else if ev.IsLeftUp() {
        var wasPressed := pressed;
        pressed := false;
        if wasPressed && rect.Contains(ev.x, ev.y) {
          if hasOnClick {
            clickCalls := clickCalls + 1;
          }
          clickEvents := clickEvents + 1;
          invalidations := invalidations + 1;
          consumed := true;
        } else if wasPressed {
          invalidations := invalidations + 1;
        }
      }
    }

    /**
     * _update_animations: both progress values snap to their targets (1
     * when hovered/pressed on an enabled button, else 0); a redraw is
     * requested only if one of them changed.
     */
    method UpdateAnimations()
      modifies this`hoverProgress, this`pressProgress, this`invalidations
      ensures Valid()
      ensures hoverProgress == (if hovered && !disabled then 1.0 else 0.0)
      ensures pressProgress == (if pressed && !disabled then 1.0 else 0.0)
      ensures invalidations == old(invalidations)
        + (if old(hoverProgress) != hoverProgress || old(pressProgress) != pressProgress then 1 else 0)
    {
      var oldHover := hoverProgress;
      var oldPress := pressProgress;
      hoverProgress := if hovered && !disabled then 1.0 else 0.0;
      pressProgress := if pressed && !disabled then 1.0 else 0.0;
      if oldHover != hoverProgress || oldPress != pressProgress {
        invalidations := invalidations + 1;
      }
    }
  }

  /**
   * Two animation updates with nothing changed in between: the first
   * requests at most one redraw (mid is the count after it), the second
   * requests none.
   */
  method UpdateAnimationsSettles(b: ModernButton) returns (mid: nat)
    modifies b
    ensures mid <= old(b.invalidations) + 1
    ensures b.invalidations == mid
  {
    b.UpdateAnimations();
    mid := b.invalidations;
    b.UpdateAnimations();
  }
}
