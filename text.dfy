/**
 * The Text, Header and Paragraph labels of lumina/widgets/text.py: style
 * presets, the measured size, the rule that decides when the text surface
 * is rebuilt, and the x position of each alignment. Glyph measurement is
 * the parameter measure of TextRenderer.GetTextSize.
 */
module TextWidgets {
  import opened Options
  import opened Geometry
  import opened Styles
  import opened TextRenderer

  /** Python truthiness of a colour argument: a non-empty tuple or name. */
  predicate IsSetColor(c: Value) {
    (c.Tuple? && c.items != []) || (c.Text? && c.s != "")
  }

  /** The preset names _get_style_preset knows, and every other name. */
  datatype PresetName = Heading | Subheading | Body | Caption | Small | Unknown

  function ParsePreset(preset: string): (p: PresetName)
    ensures p == Heading <==> preset == "heading"
    ensures p == Subheading <==> preset == "subheading"
    ensures p == Body <==> preset == "body"
    ensures p == Caption <==> preset == "caption"
    ensures p == Small <==> preset == "small"
  {
    if preset == "heading" then Heading
    else if preset == "subheading" then Subheading
    else if preset == "body" then Body
    else if preset == "caption" then Caption
    else if preset == "small" then Small
    else Unknown
  }

  /** The overrides of each preset; an unknown name has none. */
  function PresetOverrides(p: PresetName): (o: Attrs)
    ensures o.Keys <= {FontSize, FontWeight, Opacity}
    ensures FontSize in o <==> p != Unknown
  {
    match p
    case Heading => map[FontSize := Num(32.0), FontWeight := Text("bold")]
    case Subheading => map[FontSize := Num(24.0), FontWeight := Text("600")]
    case Body => map[FontSize := Num(16.0)]
    case Caption => map[FontSize := Num(14.0), Opacity := Num(0.7)]
    case Small => map[FontSize := Num(12.0)]
    case Unknown => map[]
  }

  /** Text._get_style_preset. */
  function Preset(preset: string): (s: Attrs)
    ensures s.Keys == DefaultStyle().Keys
  {
    MakeStyle(PresetOverrides(ParsePreset(preset)))
  }

  /** The size, weight and opacity of a preset: its override if it has one, else the default. */
  lemma PresetFields(p: PresetName)
    ensures MakeStyle(PresetOverrides(p))[FontSize] ==
      match p
      case Heading => Num(32.0)
      case Subheading => Num(24.0)
      case Body => Num(16.0)
      case Caption => Num(14.0)
      case Small => Num(12.0)
      case Unknown => Num(14.0)
    ensures MakeStyle(PresetOverrides(p))[FontWeight] == if p == Heading then Text("bold") else if p == Subheading then Text("600") else Text("normal")
    ensures MakeStyle(PresetOverrides(p))[Opacity] == if p == Caption then Num(0.7) else Num(1.0)
  {
    WidgetFields();
  }

  /** The font size, weight and opacity each preset name sets. */
  lemma PresetValues(preset: string)
    ensures preset == "heading" ==> Preset(preset)[FontSize] == Num(32.0) && Preset(preset)[FontWeight] == Text("bold")
    ensures preset == "subheading" ==> Preset(preset)[FontSize] == Num(24.0) && Preset(preset)[FontWeight] == Text("600")
    ensures preset == "body" ==> Preset(preset)[FontSize] == Num(16.0)
    ensures preset == "caption" ==> Preset(preset)[FontSize] == Num(14.0) && Preset(preset)[Opacity] == Num(0.7)
    ensures preset == "small" ==> Preset(preset)[FontSize] == Num(12.0)
  {
    PresetFields(ParsePreset(preset));
  }

  /** Any other preset name gives the plain default style. */
  lemma PresetUnknown(preset: string)
    requires preset !in {"heading", "subheading", "body", "caption", "small"}
    ensures Preset(preset) == DefaultStyle()
  {
    assert PresetOverrides(ParsePreset(preset)) == map[];
  }

  /** The two heading presets are the only bold ones, and only caption is translucent. */
  lemma PresetFlags(preset: string)
    ensures IsBold(Preset(preset)[FontWeight]) <==> preset in {"heading", "subheading"}
    ensures Preset(preset)[Opacity] != Num(1.0) <==> preset == "caption"
  {
    PresetFields(ParsePreset(preset));
    WeightFlags();
  }

  /** The Header font size of each level; levels outside 1..6 get 16. */
  function HeaderFontSize(level: int): (size: real)
    ensures 16.0 <= size <= 32.0
    ensures level == 1 ==> size == 32.0
    ensures level == 2 ==> size == 28.0
    ensures level == 3 ==> size == 24.0
    ensures level == 4 ==> size == 20.0
    ensures level == 5 ==> size == 18.0
    ensures !(1 <= level <= 5) ==> size == 16.0
  {
    if level == 1 then 32.0
    else if level == 2 then 28.0
    else if level == 3 then 24.0
    else if level == 4 then 20.0
    else if level == 5 then 18.0
    else 16.0
  }

  /** Header's style: the level's size, always bold. */
  function HeaderStyle(level: int): (s: Attrs)
    ensures s.Keys == DefaultStyle().Keys
    ensures s[FontSize] == Num(HeaderFontSize(level)) && IsBold(s[FontWeight])
  {
    WeightFlags();
    WidgetFields();
    MakeStyle(map[FontSize := Num(HeaderFontSize(level)), FontWeight := Text("bold")])
  }

  /** A deeper heading level never has a larger font than a shallower one. */
  lemma HeaderSizesDescend(i: int, j: int)
    requires 1 <= i <= j <= 6
    ensures HeaderFontSize(j) <= HeaderFontSize(i)
  {
  }

  /** A first-level header looks like the heading preset. */
  lemma HeaderOneIsHeading()
    ensures HeaderStyle(1) == Preset("heading")
  {
    assert PresetOverrides(Heading) == map[FontSize := Num(HeaderFontSize(1)), FontWeight := Text("bold")];
  }

  /** A Paragraph's style is the body preset. */
  lemma ParagraphIsBody()
    ensures MakeStyle(map[FontSize := Num(16.0)]) == Preset("body")
  {
    assert PresetOverrides(Body) == map[FontSize := Num(16.0)];
  }

  /** Text.calculate_size: the measured text plus padding on each axis. */
  function TextWidgetSize(text: string, measure: string -> TextSize, padding: Padding): (size: (real, real))
    ensures text == "" ==> size == (padding.Horizontal(), padding.Vertical())
    ensures text != "" ==> size == (measure(text).width as real + padding.Horizontal(),
                                    measure(text).height as real + padding.Vertical())
  {
    var t := GetTextSize(text, measure);
    (t.width as real + padding.left + padding.right, t.height as real + padding.top + padding.bottom)
  }

  /** The x at which the rendered text is drawn for each text_align value. */
  function AlignedX(align: Value, rect: Rect, padding: Padding, textW: real): (x: real)
    ensures align != Text("center") && align != Text("right") ==> x == rect.x + padding.left
    ensures align == Text("right") ==> x + textW + padding.right == rect.x + rect.width
    ensures align == Text("center") ==>
      var gap := rect.width - textW;
      x - rect.x <= gap / 2.0 < x - rect.x + 1.0 && (x - rect.x).Floor as real == x - rect.x
  {
    if align == Text("center") then rect.x + FloorDiv(rect.width - textW, 2.0) as real
    else if align == Text("right") then rect.x + rect.width - textW - padding.right
    else rect.x + padding.left
  }

  /** Centred text leaves equal margins on both sides, up to the pixel lost to floor division. */
  lemma CenteredMargins(rect: Rect, padding: Padding, textW: real)
    ensures var x := AlignedX(Text("center"), rect, padding, textW);
      var leftGap := x - rect.x;
      var rightGap := rect.x + rect.width - (x + textW);
      leftGap <= rightGap <= leftGap + 2.0
  {
  }

  /** Where the colour of a rebuilt surface comes from. */
  datatype ColorSource = StyleColor | ThemeColor | Black

  function TextColorSource(foreground: Value, hasWindowTheme: bool): (src: ColorSource)
    ensures src == StyleColor <==> IsSetColor(foreground)
    ensures src == ThemeColor <==> !IsSetColor(foreground) && hasWindowTheme
  {
    if IsSetColor(foreground) then StyleColor else if hasWindowTheme then ThemeColor else Black
  }

  /** The label widget with its render cache. */
  class Label {
    var text: string
    var style: Attrs
    var rect: Rect
    const padding: Padding
    const visible: bool
    /** _last_text, None until the first render; the surface exists exactly when it is set. */
    var lastText: Option<string>
    /** The colour of the cached surface. */
    var surfaceColor: Option<ColorSource>
    /** Calls of TextRenderer.render_text. */
    var rebuilds: nat

    predicate Valid()
      reads this
    {
      DefaultStyle().Keys <= style.Keys && (lastText.Some? <==> surfaceColor.Some?)
    }

    /**
     * __init__ with a style preset name or a style (None meaning Style());
     * a set color argument overrides foreground_color.
     */
    constructor(text: string, preset: Option<string>, style: Attrs, color: Value, padding: Padding, visible: bool)
      requires DefaultStyle().Keys <= style.Keys
      ensures Valid()
      ensures this.text == text && lastText == None && rebuilds == 0
      ensures var base := if preset.Some? then Preset(preset.value) else style;
        this.style == if IsSetColor(color) then base[ForegroundColor := color] else base
      ensures this.padding == padding && this.visible == visible
    {
      this.text := text;
      var base := if preset.Some? then Preset(preset.value) else style;
      this.style := if IsSetColor(color) then base[ForegroundColor := color] else base;
      rect := Rect(0.0, 0.0, 0.0, 0.0);
      this.padding := padding;
      this.visible := visible;
      lastText := None;
      surfaceColor := None;
      rebuilds := 0;
    }

    function CalculateSize(measure: string -> TextSize): (real, real)
      reads this
    {
      TextWidgetSize(text, measure, padding)
    }

    /**
     * render without the drawing: an invisible label does nothing; the
     * surface is rebuilt only when there is none or the text changed since
     * the last build; the result is where the surface is drawn.
     */
    method Render(hasWindowTheme: bool, textW: real) returns (pos: Option<(real, real)>)
      requires Valid()
      modifies this`lastText, this`surfaceColor, this`rebuilds
      ensures Valid()
      ensures !visible ==> pos == None && unchanged(this)
      ensures visible ==>
        var rebuild := old(lastText) != Some(text);
        && lastText == Some(text)
        && rebuilds == old(rebuilds) + (if rebuild then 1 else 0)
        && surfaceColor == (if rebuild then Some(TextColorSource(style[ForegroundColor], hasWindowTheme))
                            else old(surfaceColor))
        && pos == Some((AlignedX(style[TextAlign], rect, padding, textW), rect.y + padding.top))
    {
      if !visible {
        return None;
      }
      if lastText.None? || lastText.value != text {
        surfaceColor := Some(TextColorSource(style[ForegroundColor], hasWindowTheme));
        rebuilds := rebuilds + 1;
        lastText := Some(text);
      }
      pos := Some((AlignedX(style[TextAlign], rect, padding, textW), rect.y + padding.top));
    }
  }

  /**
   * Rendering again with the same text reuses the surface: the first render
   * builds it at most once (built is the count after it), the second not at all.
   */
  method RenderTwiceBuildsOnce(l: Label, hasWindowTheme: bool, textW: real) returns (built: nat)
    requires l.Valid()
    modifies l
    ensures built <= old(l.rebuilds) + 1
    ensures l.rebuilds == built
  {
    var first := l.Render(hasWindowTheme, textW);
    built := l.rebuilds;
    var second := l.Render(hasWindowTheme, textW);
  }
}
