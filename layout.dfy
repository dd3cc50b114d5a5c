/**
 * The layout arithmetic shared by the containers of lumina/widgets: sums
 * and maxima of the children's measured sizes, the size of a plain
 * container, a Row, a Column and a Stack, and the rectangle each child
 * receives from layout. A size is (width, height).
 */
module Layouts {
  import opened Geometry

  type Size = (real, real)

  /** The align strings Row and Column recognise; any other string means start. */
  datatype Align = Start | Center | End | Stretch

  function ParseAlign(align: string): (a: Align)
    ensures a == Center <==> align == "center"
    ensures a == End <==> align == "end"
    ensures a == Stretch <==> align == "stretch"
  {
    if align == "center" then Center
    else if align == "end" then End
    else if align == "stretch" then Stretch
    else Start
  }

  /** Σ widths */
  function SumW(s: seq<Size>): real {
    if s == [] then 0.0 else SumW(s[..|s| - 1]) + s[|s| - 1].0
  }

  /** Σ heights */
  function SumH(s: seq<Size>): real {
    if s == [] then 0.0 else SumH(s[..|s| - 1]) + s[|s| - 1].1
  }

  /** max(0, widths...): the accumulator starts at 0. */
  function MaxW(s: seq<Size>): (m: real)
    ensures m >= 0.0 && forall i :: 0 <= i < |s| ==> s[i].0 <= m
  {
    if s == [] then 0.0 else Max(MaxW(s[..|s| - 1]), s[|s| - 1].0)
  }

  /** max(0, heights...) */
  function MaxH(s: seq<Size>): (m: real)
    ensures m >= 0.0 && forall i :: 0 <= i < |s| ==> s[i].1 <= m
  {
    if s == [] then 0.0 else Max(MaxH(s[..|s| - 1]), s[|s| - 1].1)
  }

  /** The maximum is attained by some child (or is the 0 the fold starts from). */
  lemma {:induction false} MaxWAttained(s: seq<Size>)
    ensures MaxW(s) == 0.0 || exists i :: 0 <= i < |s| && s[i].0 == MaxW(s)
  {
    if s != [] {
      var init := s[..|s| - 1];
      MaxWAttained(init);
      if MaxW(s) != s[|s| - 1].0 && MaxW(init) != 0.0 {
        var i :| 0 <= i < |init| && init[i].0 == MaxW(init);
        assert s[i].0 == MaxW(s);
      }
    }
  }

  /** Spacing between n children: n − 1 gaps, none for an empty list. */
  function Gaps(n: nat): real {
    if n == 0 then 0.0 else (n - 1) as real
  }

  /** How far along the row child i starts: the widths before it and one spacing after each. */
  function AlongW(s: seq<Size>, i: nat, spacing: real): real
    requires i <= |s|
  {
    SumW(s[..i]) + spacing * i as real
  }

  /** How far down the column child i starts: the heights before it and one gap after each. */
  function AlongH(s: seq<Size>, i: nat, gap: real): real
    requires i <= |s|
  {
    SumH(s[..i]) + gap * i as real
  }

  lemma AlongWStep(s: seq<Size>, i: nat, spacing: real)
    requires i < |s|
    ensures AlongW(s, i + 1, spacing) == AlongW(s, i, spacing) + s[i].0 + spacing
  {
    assert s[..i + 1][..i] == s[..i];
    assert spacing * (i + 1) as real == spacing * i as real + spacing;
  }

  lemma AlongHStep(s: seq<Size>, i: nat, gap: real)
    requires i < |s|
    ensures AlongH(s, i + 1, gap) == AlongH(s, i, gap) + s[i].1 + gap
  {
    assert s[..i + 1][..i] == s[..i];
    assert gap * (i + 1) as real == gap * i as real + gap;
  }

  /** The last child ends where the total of widths and n − 1 spacings ends. */
  lemma AlongWLast(s: seq<Size>, spacing: real)
    requires s != []
    ensures AlongW(s, |s| - 1, spacing) + s[|s| - 1].0 == SumW(s) + spacing * Gaps(|s|)
  {
  }

  lemma AlongHLast(s: seq<Size>, gap: real)
    requires s != []
    ensures AlongH(s, |s| - 1, gap) + s[|s| - 1].1 == SumH(s) + gap * Gaps(|s|)
  {
  }

  /** Container.calculate_size from the measured sizes: widest child, heights stacked without spacing. */
  function PlainSize(s: seq<Size>, pad: Padding): (size: Size)
    ensures size.0 == MaxW(s) + pad.Horizontal() && size.1 == SumH(s) + pad.Vertical()
  {
    if s == [] then (pad.left + pad.right, pad.top + pad.bottom)
    else (MaxW(s) + pad.left + pad.right, pad.top + pad.bottom + SumH(s))
  }

  /** Row.calculate_size: widths and n − 1 spacings side by side, the tallest child. */
  function RowSize(s: seq<Size>, pad: Padding, spacing: real): (size: Size)
    ensures size.0 == pad.Horizontal() + SumW(s) + spacing * Gaps(|s|)
    ensures size.1 == MaxH(s) + pad.Vertical()
  {
    if s == [] then (pad.left + pad.right, pad.top + pad.bottom)
    else (pad.left + pad.right + SumW(s) + spacing * Gaps(|s|), MaxH(s) + pad.top + pad.bottom)
  }

  /** Column.calculate_size: the Row rule with the axes swapped. */
  function ColumnSize(s: seq<Size>, pad: Padding, spacing: real): (size: Size)
    ensures size.0 == MaxW(s) + pad.Horizontal()
    ensures size.1 == pad.Vertical() + SumH(s) + spacing * Gaps(|s|)
  {
    if s == [] then (pad.left + pad.right, pad.top + pad.bottom)
    else (MaxW(s) + pad.left + pad.right, pad.top + pad.bottom + SumH(s) + spacing * Gaps(|s|))
  }

  /** Stack.calculate_size: the component-wise maximum plus padding. */
  function StackSize(s: seq<Size>, pad: Padding): (size: Size)
    ensures size == (MaxW(s) + pad.Horizontal(), MaxH(s) + pad.Vertical())
    ensures forall i :: 0 <= i < |s| ==> s[i].0 + pad.Horizontal() <= size.0 && s[i].1 + pad.Vertical() <= size.1
  {
    if s == [] then (pad.left + pad.right, pad.top + pad.bottom)
    else (MaxW(s) + pad.left + pad.right, MaxH(s) + pad.top + pad.bottom)
  }

  /** Three 10-high children with spacing 5 make a column 40 high plus padding. */
  lemma ColumnExample(pad: Padding, w: real)
    ensures ColumnSize([(w, 10.0), (w, 10.0), (w, 10.0)], pad, 5.0).1 == 40.0 + pad.Vertical()
  {
    var s := [(w, 10.0), (w, 10.0), (w, 10.0)];
    assert s[..2][..1] == [(w, 10.0)];
    assert SumH(s[..2][..1]) == 10.0;
    assert SumH(s[..2]) == 20.0;
  }

  /** The inner rect of a container: its rect less the padding. */
  function ContentRect(rect: Rect, pad: Padding): (r: Rect)
    ensures r.x == rect.x + pad.left && r.y == rect.y + pad.top
    ensures r.x + r.width == rect.x + rect.width - pad.right
    ensures r.y + r.height == rect.y + rect.height - pad.bottom
  {
    Rect(rect.x + pad.left, rect.y + pad.top, rect.width - pad.left - pad.right, rect.height - pad.top - pad.bottom)
  }

  /**
   * Children one below the other from (x, top): child i starts after the
   * heights of the children before it and i gaps, and is no wider than
   * maxWidth. Container (gap 0), Card and Modal and the scroll view (gap 8)
   * all place children this way.
   */
  function StackedRects(s: seq<Size>, x: real, top: real, maxWidth: real, gap: real): (r: seq<Rect>)
    ensures |r| == |s|
    ensures forall i :: 0 <= i < |s| ==>
      r[i] == Rect(x, top + AlongH(s, i, gap), if s[i].0 < maxWidth then s[i].0 else maxWidth, s[i].1)
  {
    seq(|s|, i requires 0 <= i < |s| =>
      Rect(x, top + AlongH(s, i, gap), if s[i].0 < maxWidth then s[i].0 else maxWidth, s[i].1))
  }

  /** Each stacked child starts where the previous one ends, plus the gap. */
  lemma StackedAdjacent(s: seq<Size>, x: real, top: real, maxWidth: real, gap: real, i: nat)
    requires i + 1 < |s|
    ensures var r := StackedRects(s, x, top, maxWidth, gap);
      r[i + 1].y == r[i].y + r[i].height + gap
  {
    AlongHStep(s, i, gap);
  }

  /**
   * With no gap the last child ends exactly at the bottom of a container
   * laid out at its own calculated height.
   */
  lemma PlainLayoutFillsSize(s: seq<Size>, rect: Rect, pad: Padding)
    requires s != [] && rect.height == PlainSize(s, pad).1
    ensures var r := StackedRects(s, rect.x + pad.left, rect.y + pad.top, rect.width - pad.Horizontal(), 0.0);
      r[|s| - 1].y + r[|s| - 1].height == rect.y + rect.height - pad.bottom
  {
    AlongHLast(s, 0.0);
  }

  /** Where Row starts its first child for each align value ("start" for any unknown one). */
  function RowStart(total: real, rect: Rect, pad: Padding, align: Align): (x: real)
    ensures align != Center && align != End ==> x == rect.x + pad.left
    ensures align == End ==> x + total == rect.x + rect.width - pad.right
    ensures align == Center ==> (x - (rect.x + pad.left)) == (rect.x + rect.width - pad.right) - (x + total)
  {
    var content := rect.width - pad.left - pad.right;
    match align
    case Center => rect.x + pad.left + (content - total) / 2.0
    case End => rect.x + rect.width - pad.right - total
    case _ => rect.x + pad.left
  }

  /** The width a Row's children take: their widths and the spacings between them. */
  function RowTotal(s: seq<Size>, spacing: real): real {
    SumW(s) + spacing * Gaps(|s|)
  }

  /** Row.layout: children side by side from RowStart, each at its measured size, on the top padding line. */
  function RowRects(s: seq<Size>, rect: Rect, pad: Padding, spacing: real, align: Align): (r: seq<Rect>)
    ensures |r| == |s|
    ensures forall i :: 0 <= i < |s| ==>
      r[i] == Rect(RowStart(RowTotal(s, spacing), rect, pad, align) + AlongW(s, i, spacing),
                   rect.y + pad.top, s[i].0, s[i].1)
  {
    var x0 := RowStart(RowTotal(s, spacing), rect, pad, align);
    seq(|s|, i requires 0 <= i < |s| => Rect(x0 + AlongW(s, i, spacing), rect.y + pad.top, s[i].0, s[i].1))
  }

  /** Consecutive Row children are exactly one spacing apart. */
  lemma RowAdjacent(s: seq<Size>, rect: Rect, pad: Padding, spacing: real, align: Align, i: nat)
    requires i + 1 < |s|
    ensures var r := RowRects(s, rect, pad, spacing, align);
      r[i + 1].x == r[i].x + r[i].width + spacing
  {
    AlongWStep(s, i, spacing);
  }

  /** With align "end" the last child's right edge sits on the right padding line; there is no trailing spacing. */
  lemma RowEndFlush(s: seq<Size>, rect: Rect, pad: Padding, spacing: real)
    requires s != []
    ensures var r := RowRects(s, rect, pad, spacing, End);
      r[|s| - 1].x + r[|s| - 1].width == rect.x + rect.width - pad.right
  {
    AlongWLast(s, spacing);
  }

  /** A Row laid out at its own calculated width and aligned at the start also ends on the right padding line. */
  lemma RowStartFillsSize(s: seq<Size>, rect: Rect, pad: Padding, spacing: real)
    requires s != [] && rect.width == RowSize(s, pad, spacing).0
    ensures var r := RowRects(s, rect, pad, spacing, Start);
      r[|s| - 1].x + r[|s| - 1].width == rect.x + rect.width - pad.right
  {
    AlongWLast(s, spacing);
  }

  /** Column.layout: children top to bottom with spacing, x and width by align. */
  function ColumnRects(s: seq<Size>, rect: Rect, pad: Padding, spacing: real, align: Align): (r: seq<Rect>)
    ensures |r| == |s|
  {
    seq(|s|, i requires 0 <= i < |s| => ColumnChild(s[i], rect.y + pad.top + AlongH(s, i, spacing), rect, pad, align))
  }

  /** Every Column child sits at its running height, at its measured height, and placed by align. */
  lemma ColumnRectsPlaced(s: seq<Size>, rect: Rect, pad: Padding, spacing: real, align: Align, i: nat)
    requires i < |s|
    ensures var r := ColumnRects(s, rect, pad, spacing, align);
      && r[i].y == rect.y + pad.top + AlongH(s, i, spacing) && r[i].height == s[i].1
      && ColumnPlaced(r[i], s[i], rect, pad, align)
  {
  }

  /** One Column child at height y. */
  function ColumnChild(size: Size, y: real, rect: Rect, pad: Padding, align: Align): (r: Rect)
    ensures r.y == y && r.height == size.1 && ColumnPlaced(r, size, rect, pad, align)
  {
    var content := rect.width - pad.left - pad.right;
    match align
    case Center => Rect(rect.x + pad.left + (content - size.0) / 2.0, y, size.0, size.1)
    case End => Rect(rect.x + rect.width - pad.right - size.0, y, size.0, size.1)
    case Stretch => Rect(rect.x + pad.left, y, content, size.1)
    case Start => Rect(rect.x + pad.left, y, size.0, size.1)
  }

  /**
   * The horizontal placement of a Column child: stretch fills the content
   * width, center leaves equal margins, end is flush right, anything else
   * flush left at the measured width.
   */
  predicate ColumnPlaced(r: Rect, size: Size, rect: Rect, pad: Padding, align: Align) {
    var left := rect.x + pad.left;
    var right := rect.x + rect.width - pad.right;
    match align
    case Stretch => r.x == left && r.x + r.width == right
    case Center => r.width == size.0 && r.x - left == right - (r.x + r.width)
    case End => r.width == size.0 && r.x + r.width == right
    case Start => r.width == size.0 && r.x == left
  }

  /** A Column laid out at its own calculated height ends on the bottom padding line. */
  lemma ColumnFillsSize(s: seq<Size>, rect: Rect, pad: Padding, spacing: real, align: Align)
    requires s != [] && rect.height == ColumnSize(s, pad, spacing).1
    ensures var r := ColumnRects(s, rect, pad, spacing, align);
      r[|s| - 1].y + r[|s| - 1].height == rect.y + rect.height - pad.bottom
  {
    AlongHLast(s, spacing);
  }

  /** Stack.layout gives every child the same content rect; at the Stack's own size, every child fits in it. */
  lemma StackChildrenFit(s: seq<Size>, rect: Rect, pad: Padding, i: nat)
    requires i < |s| && rect.width == StackSize(s, pad).0 && rect.height == StackSize(s, pad).1
    ensures s[i].0 <= ContentRect(rect, pad).width && s[i].1 <= ContentRect(rect, pad).height
  {
  }
}
