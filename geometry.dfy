/**
 * Box-model values of lumina/core/types.py: rectangles, padding and margin,
 * plus the "unbounded" extent the layout code writes as float('inf').
 */
module Geometry {

  /** A layout rectangle (floats in the source, reals here). */
  datatype Rect = Rect(x: real, y: real, width: real, height: real) {

    /** Rect.contains: inclusive on all four edges. */
    predicate Contains(px: real, py: real) {
      x <= px <= x + width && y <= py <= y + height
    }

    /** pygame.Rect.collidepoint: left and top edges inclusive, right and bottom exclusive. */
    predicate CollidePoint(px: real, py: real) {
      x <= px < x + width && y <= py < y + height
    }
  }

  /** Padding of a widget; the dataclass defaults every side to 0. */
  datatype Padding = Padding(top: real, right: real, bottom: real, left: real) {
    function Horizontal(): real { left + right }
    function Vertical(): real { top + bottom }
  }

  /** Margin has the same field layout as Padding. */
  datatype Margin = Margin(top: real, right: real, bottom: real, left: real)

  /** Padding() */
  function DefaultPadding(): (p: Padding)
    ensures p.Horizontal() == 0.0 && p.Vertical() == 0.0
    ensures p.top == p.right == p.bottom == p.left == 0.0
  {
    Padding(0.0, 0.0, 0.0, 0.0)
  }

  /** Padding.all(value) */
  function PaddingAll(v: real): (p: Padding)
    ensures p.Horizontal() == 2.0 * v && p.Vertical() == 2.0 * v
  {
    Padding(v, v, v, v)
  }

  /** Padding.symmetric(vertical, horizontal): the constructor takes (top, right, bottom, left). */
  function PaddingSymmetric(vertical: real, horizontal: real): (p: Padding)
    ensures p.Vertical() == 2.0 * vertical && p.Horizontal() == 2.0 * horizontal
  {
    Padding(vertical, horizontal, vertical, horizontal)
  }

  /** Margin() */
  function DefaultMargin(): (m: Margin)
    ensures m.top == m.right == m.bottom == m.left == 0.0
  {
    Margin(0.0, 0.0, 0.0, 0.0)
  }

  /** Margin.all(value) */
  function MarginAll(v: real): Margin {
    Margin(v, v, v, v)
  }

  /** Margin.symmetric(vertical, horizontal) */
  function MarginSymmetric(vertical: real, horizontal: real): Margin {
    Margin(vertical, horizontal, vertical, horizontal)
  }

  /** The four sides of a padding, in the order the dataclass declares them. */
  function PaddingSides(p: Padding): seq<real> { [p.top, p.right, p.bottom, p.left] }

  /** The four sides of a margin, in the order the dataclass declares them. */
  function MarginSides(m: Margin): seq<real> { [m.top, m.right, m.bottom, m.left] }

  /**
   * Rect.contains is pygame's collidepoint plus the right and bottom edges:
   * the points the two tests disagree on lie on those closed edges.
   */
  lemma ContainsIsCollideOrFarEdge(r: Rect, px: real, py: real)
    ensures r.Contains(px, py) <==>
      || r.CollidePoint(px, py)
      || (px == r.x + r.width && r.x <= px && r.y <= py <= r.y + r.height)
      || (py == r.y + r.height && r.y <= py && r.x <= px <= r.x + r.width)
  {
  }

  /** Both corners of a rectangle with non-negative size are inside it. */
  lemma ContainsCorners(r: Rect)
    requires r.width >= 0.0 && r.height >= 0.0
    ensures r.Contains(r.x, r.y) && r.Contains(r.x + r.width, r.y + r.height)
  {
  }

  /** The far corner is on Contains' closed edge but outside CollidePoint's open one. */
  lemma FarCornerContainsButNotCollides(r: Rect)
    ensures r.Contains(r.x + r.width, r.y + r.height) ==> !r.CollidePoint(r.x + r.width, r.y + r.height)
  {
  }

  /** Padding.all sets every side to the value; symmetric pairs top/bottom and left/right. */
  lemma PaddingConstructors(v: real, h: real)
    ensures PaddingSides(PaddingAll(v)) == [v, v, v, v]
    ensures PaddingSides(PaddingSymmetric(v, h)) == [v, h, v, h]
    ensures PaddingSymmetric(v, v) == PaddingAll(v)
  {
  }

  /** Margin's constructors build the same field layout as Padding's. */
  lemma MarginMatchesPadding(v: real, h: real)
    ensures MarginSides(MarginAll(v)) == PaddingSides(PaddingAll(v))
    ensures MarginSides(MarginSymmetric(v, h)) == PaddingSides(PaddingSymmetric(v, h))
    ensures MarginSides(DefaultMargin()) == PaddingSides(DefaultPadding())
  {
  }

  /** A size that may be float('inf') in the source. */
  datatype Extent = Finite(value: real) | Unbounded {

    /** available - used, where inf - x stays inf. */
    function Minus(used: real): (e: Extent)
      ensures e.Unbounded? <==> Unbounded?
      ensures Finite? ==> e.value == value - used
    {
      if Unbounded? then Unbounded else Finite(value - used)
    }

    /** min(v, extent), where min(v, inf) is v. */
    function Clamp(v: real): (r: real)
      ensures r <= v
      ensures Finite? ==> r <= value && (r == v || r == value)
      ensures Unbounded? ==> r == v
    {
      if Finite? && value < v then value else v
    }

    /** v > extent, which is false against inf. */
    predicate Below(v: real) {
      Finite? && v > value
    }
  }

  /** max over reals */
  function Max(a: real, b: real): (m: real)
    ensures m >= a && m >= b && (m == a || m == b)
  {
    if a >= b then a else b
  }

  /** min over reals */
  function Min(a: real, b: real): (m: real)
    ensures m <= a && m <= b && (m == a || m == b)
  {
    if a <= b then a else b
  }

  /** Python's floor division of two floats, for a positive divisor. */
  function FloorDiv(a: real, b: real): (q: int)
    requires b > 0.0
    ensures (q as real) * b <= a < (q as real + 1.0) * b
  {
    var f := a / b;
    var q := f.Floor;
    assert f * b == a;
    MulMonotone(q as real, f, b);
    assert f < q as real + 1.0;
    MulStrictMonotone(f, q as real + 1.0, b);
    q
  }

  lemma MulMonotone(x: real, y: real, b: real)
    requires x <= y && b > 0.0
    ensures x * b <= y * b
  {
  }

  lemma MulStrictMonotone(x: real, y: real, b: real)
    requires x < y && b > 0.0
    ensures x * b < y * b
  {
  }

  /** Python's int() on a float: truncation toward zero. */
  function Trunc(x: real): (n: int)
    ensures x >= 0.0 ==> n == x.Floor
    ensures x >= 0.0 ==> n as real <= x < n as real + 1.0
    ensures x < 0.0 ==> x < n as real + 1.0 && n as real >= x && n <= 0
  {
    if x >= 0.0 then x.Floor else -((-x).Floor)
  }
}
