/**
 * The Style record of lumina/core/style.py. Style.merge walks vars() of
 * both objects, so a style is modelled the way merge sees it: a map from
 * attribute name to value, where a value may be None. The private
 * attribute "_font_cache" appears in that map once get_font has run, and
 * merge copies it like any other attribute.
 */
module Styles {
  import opened Options
  import opened Graphics

  /** The font cache get_font attaches to a style: a dict from cache key to font. */
  class FontCache {
    var fonts: map<FontKey, Font>

    constructor()
      ensures fonts == map[]
    {
      fonts := map[];
    }
  }

  /** An attribute value as Python holds it. */
  datatype Value =
    | NoneValue
    | Num(n: real)
    | Text(s: string)
    | Tuple(items: seq<int>)
    | Dict(entries: map<string, real>)
    | CacheRef(cache: FontCache)

  /**
   * An attribute name as vars() lists it: one of the dataclass fields, the
   * private "_font_cache" get_font attaches, or any other name assigned to
   * the object (never one of the former).
   */
  datatype Attr =
    | BackgroundColor | ForegroundColor | BorderColor | BorderWidth | BorderRadius
    | FontFamily | FontSize | FontWeight | FontStyle
    | Width | Height | MinWidth | MaxWidth | MinHeight | MaxHeight
    | PaddingTop | PaddingRight | PaddingBottom | PaddingLeft
    | MarginTop | MarginRight | MarginBottom | MarginLeft
    | TextAlign | VerticalAlign | Opacity | Shadow | Scale | Rotation | Cursor
    | TransitionDuration | TransitionProperty
    | CacheAttr
    | Extra(name: string)

  type Attrs = map<Attr, Value>

  /** (font_family, font_size, font_weight, font_style), the key of the font cache. */
  datatype FontKey = FontKey(family: Value, size: Value, weight: Value, style: Value)

  /** A loaded font: the face and pixel size the platform lookup picked, plus the two style flags. */
  datatype Font = Font(face: string, pixelSize: int, bold: bool, italic: bool)

  /** The dataclass fields and their defaults. */
  function DefaultStyle(): (d: Attrs)
    ensures CacheAttr !in d
  {
    map[
      BackgroundColor := NoneValue, ForegroundColor := NoneValue, BorderColor := NoneValue,
      BorderWidth := Num(0.0), BorderRadius := Num(0.0),
      FontFamily := Text("system"), FontSize := Num(14.0),
      FontWeight := Text("normal"), FontStyle := Text("normal"),
      Width := NoneValue, Height := NoneValue,
      MinWidth := NoneValue, MaxWidth := NoneValue,
      MinHeight := NoneValue, MaxHeight := NoneValue,
      PaddingTop := Num(0.0), PaddingRight := Num(0.0),
      PaddingBottom := Num(0.0), PaddingLeft := Num(0.0),
      MarginTop := Num(0.0), MarginRight := Num(0.0),
      MarginBottom := Num(0.0), MarginLeft := Num(0.0),
      TextAlign := Text("left"), VerticalAlign := Text("top"),
      Opacity := Num(1.0), Shadow := NoneValue,
      Scale := Num(1.0), Rotation := Num(0.0),
      Cursor := Text("default"),
      TransitionDuration := Num(0.0), TransitionProperty := NoneValue
    ]
  }

  /** The font and decoration fields the widgets override, with their defaults. */
  lemma WidgetFields()
    ensures FontSize in DefaultStyle() && DefaultStyle()[FontSize] == Num(14.0)
    ensures FontWeight in DefaultStyle() && DefaultStyle()[FontWeight] == Text("normal")
    ensures Opacity in DefaultStyle() && DefaultStyle()[Opacity] == Num(1.0)
    ensures Cursor in DefaultStyle() && DefaultStyle()[Cursor] == Text("default")
  {
  }

  /** Style(**overrides): the defaults with the given fields replaced. */
  function MakeStyle(overrides: Attrs): (s: Attrs)
    requires overrides.Keys <= DefaultStyle().Keys
    ensures s.Keys == DefaultStyle().Keys
    ensures forall k :: k in s ==> s[k] == (if k in overrides then overrides[k] else DefaultStyle()[k])
  {
    DefaultStyle() + overrides
  }

  /** Attribute assignment in bulk: other's attributes that are not None replace base's. */
  function Overlay(base: Attrs, other: Attrs): Attrs {
    map k | k in base.Keys + other.Keys && (k in base || other[k] != NoneValue) ::
      if k in other && other[k] != NoneValue then other[k] else base[k]
  }

  /**
   * Style.merge: a fresh Style() receives every attribute of this style,
   * then every attribute of other whose value is not None.
   */
  function MergeAttrs(mine: Attrs, other: Attrs): Attrs {
    Overlay(DefaultStyle() + mine, other)
  }

  lemma {:induction false} OverlayAssociative(x: Attrs, y: Attrs, z: Attrs)
    ensures Overlay(Overlay(x, y), z) == Overlay(x, Overlay(y, z))
  {
    var left := Overlay(Overlay(x, y), z);
    var right := Overlay(x, Overlay(y, z));
    assert left.Keys == right.Keys;
  }

  lemma OverlayKeepsKeys(base: Attrs, other: Attrs)
    ensures base.Keys <= Overlay(base, other).Keys
  {
  }

  /** Assigning an attribute the value it already has changes nothing. */
  lemma AssignSame(m: Attrs, k: Attr, v: Value)
    requires k in m && m[k] == v
    ensures m[k := v] == m
  {
  }

  /** Laying defaults under a map that already has every key changes nothing. */
  lemma CompleteAbsorbsDefaults(d: Attrs, x: Attrs)
    requires d.Keys <= x.Keys
    ensures d + x == x
  {
  }

  /** The per-field rule: other's value wins unless it is None, else this style's value stays. */
  lemma MergeFieldRule(mine: Attrs, other: Attrs, k: Attr)
    requires k in DefaultStyle() + mine
    ensures k in MergeAttrs(mine, other)
    ensures k in other && other[k] != NoneValue ==> MergeAttrs(mine, other)[k] == other[k]
    ensures (k !in other || other[k] == NoneValue) && k in mine ==> MergeAttrs(mine, other)[k] == mine[k]
  {
  }

  /** An attribute set in other but unknown to this style is still copied over. */
  lemma MergeAddsOtherAttributes(mine: Attrs, other: Attrs, k: Attr)
    requires k in other && other[k] != NoneValue
    ensures k in MergeAttrs(mine, other) && MergeAttrs(mine, other)[k] == other[k]
  {
  }

  /** When every field of other is set, the merged fields are exactly other's. */
  lemma MergeAllSetYieldsOther(mine: Attrs, other: Attrs)
    requires DefaultStyle().Keys <= other.Keys
    requires forall k :: k in DefaultStyle() ==> other[k] != NoneValue
    ensures forall k :: k in DefaultStyle() ==> MergeAttrs(mine, other)[k] == other[k]
  {
  }

  /**
   * Merging a plain Style() resets every field whose default is not None,
   * because those defaults are themselves "not None": only the Optional
   * fields keep this style's values.
   */
  lemma MergeWithDefaultResets(mine: Attrs, k: Attr)
    requires k in DefaultStyle()
    ensures DefaultStyle()[k] != NoneValue ==> MergeAttrs(mine, DefaultStyle())[k] == DefaultStyle()[k]
    ensures DefaultStyle()[k] == NoneValue && k in mine ==> MergeAttrs(mine, DefaultStyle())[k] == mine[k]
  {
  }

  /**
   * Merging is associative for complete styles: later styles take
   * precedence the same way however the merges nest.
   */
  lemma MergeAssociative(a: Attrs, b: Attrs, c: Attrs)
    requires DefaultStyle().Keys <= b.Keys
    ensures MergeAttrs(MergeAttrs(a, b), c) == MergeAttrs(a, MergeAttrs(b, c))
  {
    var d := DefaultStyle();
    OverlayKeepsKeys(d + a, b);
    CompleteAbsorbsDefaults(d, MergeAttrs(a, b));
    CompleteAbsorbsDefaults(d, b);
    OverlayAssociative(d + a, b, c);
  }

  /** A complete style merged with itself is unchanged. */
  lemma MergeIdempotent(a: Attrs)
    requires DefaultStyle().Keys <= a.Keys
    ensures MergeAttrs(a, a) == a
  {
    assert MergeAttrs(a, a).Keys == a.Keys;
  }

  /**
   * The merged style shares a font cache object rather than copying it:
   * other's cache if other has one, otherwise this style's.
   */
  lemma MergeSharesFontCache(mine: Attrs, other: Attrs)
    requires CacheAttr in mine && mine[CacheAttr].CacheRef?
    ensures CacheAttr in MergeAttrs(mine, other)
    ensures MergeAttrs(mine, other)[CacheAttr] ==
      if CacheAttr in other && other[CacheAttr] != NoneValue then other[CacheAttr] else mine[CacheAttr]
  {
  }

  const BoldWeights: seq<string> := ["bold", "600", "700", "800", "900"]

  /** bold = font_weight in ["bold", "600", "700", "800", "900"] */
  predicate IsBold(weight: Value) {
    weight.Text? && weight.s in BoldWeights
  }

  /** italic = font_style == "italic" */
  predicate IsItalic(style: Value) {
    style == Text("italic")
  }

  /** "600" and above are bold, "500" and "normal" are not; only "italic" is italic. */
  lemma WeightFlags()
    ensures IsBold(Text("600")) && IsBold(Text("bold")) && !IsBold(Text("500")) && !IsBold(NoneValue)
    ensures !IsBold(Text("normal")) && !IsItalic(Text("normal")) && !IsItalic(Text("oblique"))
  {
  }

  /** The default style is neither bold nor italic. */
  lemma FontFlags()
    ensures !IsBold(DefaultStyle()[FontWeight]) && !IsItalic(DefaultStyle()[FontStyle])
    ensures IsBold(Text("600")) && IsBold(Text("bold")) && !IsBold(Text("500")) && !IsBold(NoneValue)
  {
    WeightFlags();
  }

  /**
   * The font get_font builds for a key. The platform font lookup and the
   * DPI scaling of the size are the parameter resolve.
   */
  function FontFor(key: FontKey, resolve: FontKey -> (string, int)): (f: Font)
    ensures f.bold <==> IsBold(key.weight)
    ensures f.italic <==> IsItalic(key.style)
  {
    Font(resolve(key).0, resolve(key).1, IsBold(key.weight), IsItalic(key.style))
  }

  /** What to_pygame_color hands back: None, a pygame Color, or an exception raised by pygame.Color. */
  datatype Conversion = NoColor | Converted(color: Color) | Raises

  /** A pygame.Color call's outcome: the colour, or the ValueError it raises. */
  function Outcome(made: Option<Color>): Conversion {
    if made.Some? then Converted(made.value) else Raises
  }

  /** The colour pygame.Color reads from one integer, 0xRRGGBBAA; out of range it raises. */
  function Unpack(v: int): (c: Option<Color>)
    ensures c.Some? <==> 0 <= v < 0x1_0000_0000
  {
    if 0 <= v < 0x1_0000_0000
    then MakeColor(v / 0x100_0000 % 256, v / 0x1_0000 % 256, v / 0x100 % 256, v % 256)
    else None
  }

  /**
   * Style.to_pygame_color: None gives None; a string is looked up by name
   * (the parameter named, None where pygame raises); a tuple is spread into
   * pygame.Color: one integer is a packed 0xRRGGBBAA, three are r, g, b
   * with alpha 255, four are r, g, b, a, and any other count raises; a value
   * of any other kind gives None.
   */
  function ToPygameColor(color: Value, named: string -> Option<Color>): (c: Conversion)
    ensures c == NoColor <==> !color.Text? && !color.Tuple?
    ensures color.Text? ==> c == Outcome(named(color.s))
    ensures color.Tuple? && |color.items| == 3 ==>
      c == Outcome(MakeColor(color.items[0], color.items[1], color.items[2], 255))
    ensures color.Tuple? && |color.items| == 4 ==>
      c == Outcome(MakeColor(color.items[0], color.items[1], color.items[2], color.items[3]))
    ensures color.Tuple? && |color.items| == 1 ==> c == Outcome(Unpack(color.items[0]))
    ensures color.Tuple? && |color.items| != 1 && |color.items| != 3 && |color.items| != 4 ==> c == Raises
  {
    match color
    case NoneValue => NoColor
    case Text(s) => Outcome(named(s))
    case Tuple(items) =>
      if |items| == 1 then Outcome(Unpack(items[0]))
      else if |items| == 3 then Outcome(MakeColor(items[0], items[1], items[2], 255))
      else if |items| == 4 then Outcome(MakeColor(items[0], items[1], items[2], items[3]))
      else Raises
    case _ => NoColor
  }

  /** A colour's four channels, as a tuple, convert back to that colour. */
  lemma ChannelsRoundTrip(col: Color, named: string -> Option<Color>)
    ensures ToPygameColor(Tuple([col.r, col.g, col.b, col.a]), named) == Converted(col)
    ensures col.a == 255 ==> ToPygameColor(Tuple([col.r, col.g, col.b]), named) == Converted(col)
  {
  }

  /** A colour packed as 0xRRGGBBAA converts back to that colour. */
  lemma PackedRoundTrip(col: Color, named: string -> Option<Color>)
    ensures ToPygameColor(Tuple([col.r * 0x100_0000 + col.g * 0x1_0000 + col.b * 0x100 + col.a]), named) == Converted(col)
  {
    var v := col.r * 0x100_0000 + col.g * 0x1_0000 + col.b * 0x100 + col.a;
    assert v / 0x100_0000 == col.r;
    assert v / 0x1_0000 == col.r * 0x100 + col.g;
    assert v / 0x100 == col.r * 0x1_0000 + col.g * 0x100 + col.b;
  }

  /** A Style object: its attribute map changes when get_font attaches a cache. */
  class Style {
    var attrs: Attrs

    /** Every dataclass field is present, and the cache attribute, when present, is a cache. */
    predicate Valid()
      reads this
    {
      DefaultStyle().Keys <= attrs.Keys
      && (CacheAttr in attrs ==> attrs[CacheAttr].CacheRef?)
    }

    constructor(overrides: Attrs)
      requires overrides.Keys <= DefaultStyle().Keys
      ensures Valid() && attrs == MakeStyle(overrides)
    {
      attrs := DefaultStyle() + overrides;
    }

    /** The cache object attached to this style, if any. */
    function Cache(): FontCache?
      reads this
      requires Valid()
    {
      if CacheAttr in attrs then attrs[CacheAttr].cache else null
    }

    function Key(): FontKey
      reads this
      requires Valid()
    {
      FontKey(attrs[FontFamily], attrs[FontSize], attrs[FontWeight], attrs[FontStyle])
    }

    /** Style.merge: a new style; neither input changes. */
    method Merge(other: Style) returns (result: Style)
      requires Valid() && other.Valid()
      ensures fresh(result) && result.Valid()
      ensures result.attrs == MergeAttrs(attrs, other.attrs)
    {
      result := new Style(map[]);
      result.attrs := MergeAttrs(attrs, other.attrs);
    }

    /**
     * get_font: a key already in this style's cache returns the cached font
     * and changes nothing; otherwise the font is built, the cache is created
     * if the style has none, and the font is stored under the key.
     */
    method GetFont(resolve: FontKey -> (string, int)) returns (font: Font)
      requires Valid()
      modifies this, if Cache() != null then {Cache()} else {}
      ensures Valid() && Key() == old(Key()) && Cache() != null
      ensures old(Cache()) != null ==> Cache() == old(Cache())
      ensures old(Cache()) != null && old(Key()) in old(Cache().fonts) ==>
        font == old(Cache().fonts[Key()]) && attrs == old(attrs) && Cache().fonts == old(Cache().fonts)
      ensures old(Cache()) == null ==> fresh(Cache()) && Cache().fonts == map[Key() := font]
      ensures old(Cache()) == null || old(Key()) !in old(Cache().fonts) ==> font == FontFor(Key(), resolve)
      ensures old(Cache()) != null && old(Key()) !in old(Cache().fonts) ==>
        attrs == old(attrs) && Cache().fonts == old(Cache().fonts)[Key() := font]
    {
      var key := Key();
      var cache := Cache();
      if cache != null && key in cache.fonts {
        return cache.fonts[key];
      }
      if cache == null {
        cache := new FontCache();
        attrs := attrs[CacheAttr := CacheRef(cache)];
      }
      font := FontFor(key, resolve);
      cache.fonts := cache.fonts[key := font];
    }
  }

  /** A cache is coherent with a lookup when every stored font is what the lookup would build. */
  predicate Coherent(fonts: map<FontKey, Font>, resolve: FontKey -> (string, int)) {
    forall k :: k in fonts ==> fonts[k] == FontFor(k, resolve)
  }

  /**
   * Caching is invisible while the lookup is fixed: from a coherent cache,
   * get_font returns FontFor(key) whether or not it hit, and the cache stays
   * coherent.
   */
  lemma CachedFontIsBuiltFont(fonts: map<FontKey, Font>, key: FontKey, resolve: FontKey -> (string, int))
    requires Coherent(fonts, resolve)
    ensures key in fonts ==> fonts[key] == FontFor(key, resolve)
    ensures Coherent(fonts[key := FontFor(key, resolve)], resolve)
  {
  }
}
