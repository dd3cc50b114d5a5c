/**
 * The colour arithmetic and the corner-radius clamp of lumina/core/graphics.py.
 * pygame.Color refuses a channel outside 0..255 with a ValueError; the model
 * returns None in that case.
 */
module Graphics {
  import opened Geometry
  import opened Options

  type Channel = x: int | 0 <= x < 256

  /** pygame.Color(r, g, b, a) */
  datatype Color = Color(r: Channel, g: Channel, b: Channel, a: Channel)

  /** pygame.Color(...) from computed integers: None where pygame raises. */
  function MakeColor(r: int, g: int, b: int, a: int): (c: Option<Color>)
    ensures c.Some? <==> (0 <= r < 256 && 0 <= g < 256 && 0 <= b < 256 && 0 <= a < 256)
    ensures c.Some? ==> c.value.r == r && c.value.g == g && c.value.b == b && c.value.a == a
  {
    if 0 <= r < 256 && 0 <= g < 256 && 0 <= b < 256 && 0 <= a < 256
    then Some(Color(r, g, b, a)) else None
  }

  /** One channel of lighten_color: min(255, int(c + (255 - c) * factor)). */
  function LightenChannel(c: Channel, factor: real): int {
    var raised := Trunc(c as real + (255 - c) as real * factor);
    if raised < 255 then raised else 255
  }

  /** One channel of darken_color: max(0, int(c * (1 - factor))). */
  function DarkenChannel(c: Channel, factor: real): int {
    var lowered := Trunc(c as real * (1.0 - factor));
    if lowered > 0 then lowered else 0
  }

  /** ModernGraphics.lighten_color: alpha is kept. */
  function LightenColor(color: Color, factor: real): Option<Color> {
    MakeColor(LightenChannel(color.r, factor), LightenChannel(color.g, factor),
              LightenChannel(color.b, factor), color.a)
  }

  /** ModernGraphics.darken_color: alpha is kept. */
  function DarkenColor(color: Color, factor: real): Option<Color> {
    MakeColor(DarkenChannel(color.r, factor), DarkenChannel(color.g, factor),
              DarkenChannel(color.b, factor), color.a)
  }

  /** ModernGraphics.get_color_with_alpha: r, g and b are kept, alpha replaced. */
  function ColorWithAlpha(color: Color, alpha: int): (c: Option<Color>)
    ensures c.Some? <==> 0 <= alpha < 256
    ensures c.Some? ==> c.value == color.(a := alpha)
  {
    MakeColor(color.r, color.g, color.b, alpha)
  }

  lemma ScaleBelow(k: real, f: real)
    requires k >= 0.0 && 0.0 <= f <= 1.0
    ensures 0.0 <= k * f <= k
  {
  }

  /** For a factor in [0, 1] a lightened channel lies in [c, 255]. */
  lemma LightenChannelBounds(c: Channel, factor: real)
    requires 0.0 <= factor <= 1.0
    ensures c <= LightenChannel(c, factor) <= 255
  {
    ScaleBelow((255 - c) as real, factor);
  }

  /** For a factor in [0, 1] a darkened channel lies in [0, c]. */
  lemma DarkenChannelBounds(c: Channel, factor: real)
    requires 0.0 <= factor <= 1.0
    ensures 0 <= DarkenChannel(c, factor) <= c
  {
    var lowered := c as real * (1.0 - factor);
    ScaleBelow(c as real, 1.0 - factor);
    var n := Trunc(lowered);
    assert n as real <= lowered <= c as real;
    assert n <= c;
  }

  /** lighten_color with a factor in [0, 1] succeeds, keeps alpha and moves each channel toward 255. */
  lemma LightenColorBounds(color: Color, factor: real)
    requires 0.0 <= factor <= 1.0
    ensures LightenColor(color, factor).Some?
    ensures var c := LightenColor(color, factor).value;
      c.a == color.a && color.r <= c.r && color.g <= c.g && color.b <= c.b
  {
    LightenChannelBounds(color.r, factor);
    LightenChannelBounds(color.g, factor);
    LightenChannelBounds(color.b, factor);
  }

  /** darken_color with a factor in [0, 1] succeeds, keeps alpha and moves each channel toward 0. */
  lemma DarkenColorBounds(color: Color, factor: real)
    requires 0.0 <= factor <= 1.0
    ensures DarkenColor(color, factor).Some?
    ensures var c := DarkenColor(color, factor).value;
      c.a == color.a && c.r <= color.r && c.g <= color.g && c.b <= color.b
  {
    DarkenChannelBounds(color.r, factor);
    DarkenChannelBounds(color.g, factor);
    DarkenChannelBounds(color.b, factor);
  }

  /** A factor of 0 changes nothing, for both lighten and darken. */
  lemma ZeroFactorIsIdentity(color: Color)
    ensures LightenColor(color, 0.0) == Some(color)
    ensures DarkenColor(color, 0.0) == Some(color)
  {
  }

  /** A factor of 1 lightens to white and darkens to black, alpha kept. */
  lemma UnitFactorIsExtreme(color: Color)
    ensures LightenColor(color, 1.0) == Some(Color(255, 255, 255, color.a))
    ensures DarkenColor(color, 1.0) == Some(Color(0, 0, 0, color.a))
  {
  }

  /** A factor above 1 still darkens to black: the max(0, ...) guard absorbs the negative product. */
  lemma DarkenPastOneIsBlack(color: Color, factor: real)
    requires factor >= 1.0
    ensures DarkenColor(color, factor) == Some(Color(0, 0, 0, color.a))
  {
    assert color.r as real * (1.0 - factor) <= 0.0;
    assert color.g as real * (1.0 - factor) <= 0.0;
    assert color.b as real * (1.0 - factor) <= 0.0;
  }

  /**
   * The radius draw_rounded_rect uses for an integer rect of size w x h:
   * None when radius <= 0 (plain rect), else min(radius, min(w, h) // 2).
   */
  function RoundedRadius(radius: real, w: int, h: int): (r: Option<real>)
    ensures r.None? <==> radius <= 0.0
    ensures r.Some? ==> r.value <= radius && r.value <= ((if w <= h then w else h) / 2) as real
    ensures r.Some? ==> (r.value == radius || r.value == ((if w <= h then w else h) / 2) as real)
  {
    if radius <= 0.0 then None
    else
      var maxRadius := (if w <= h then w else h) / 2;
      Some(if radius <= maxRadius as real then radius else maxRadius as real)
  }

  /** A radius that already fits is used unchanged. */
  lemma FittingRadiusUnchanged(radius: real, w: int, h: int)
    requires radius > 0.0 && radius <= (w / 2) as real && radius <= (h / 2) as real
    ensures RoundedRadius(radius, w, h) == Some(radius)
  {
  }
}
