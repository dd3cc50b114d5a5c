/**
 * The single-caret text editor of lumina/widgets/input.py. Glyph
 * measurement (font.size(text)[0]) is the parameter width; the on_change
 * and on_submit callbacks, the CHANGE/SUBMIT listeners and the redraw
 * requests are recorded in logs on the widget.
 */
module Input {
  import opened Options
  import opened Geometry
  import opened Events

  /** The default padding of each size name; an unknown name gets the medium one. */
  function SizePadding(size: string): (p: Padding)
    ensures size == "small" ==> p == PaddingSymmetric(8.0, 12.0)
    ensures size == "large" ==> p == PaddingSymmetric(16.0, 20.0)
    ensures size != "small" && size != "large" ==> p == PaddingSymmetric(12.0, 16.0)
  {
    if size == "small" then PaddingSymmetric(8.0, 12.0)
    else if size == "medium" then PaddingSymmetric(12.0, 16.0)
    else if size == "large" then PaddingSymmetric(16.0, 20.0)
    else PaddingSymmetric(12.0, 16.0)
  }

  /** The preferred size of an input: 200 wide, one line of text plus padding, the label band, and three lines when multiline. */
  function InputSize(fontHeight: real, padding: Padding, labelText: Option<string>, multiline: bool): (size: (real, real))
    ensures size.0 == 200.0
    ensures !multiline ==> size.1 == fontHeight + padding.Vertical() + (if HasLabel(labelText) then 20.0 else 0.0)
    ensures multiline ==> size.1 == 3.0 * InputSize(fontHeight, padding, labelText, false).1
  {
    var single := fontHeight + padding.top + padding.bottom + (if HasLabel(labelText) then 20.0 else 0.0);
    (200.0, if multiline then single * 3.0 else single)
  }

  /** A label is shown when it is set and not the empty string (Python truthiness). */
  predicate HasLabel(labelText: Option<string>) {
    labelText.Some? && labelText.value != ""
  }

  /** value[:c] + t + value[c:] */
  function Insert(s: string, c: nat, t: string): (r: string)
    requires c <= |s|
    ensures |r| == |s| + |t|
    ensures r[..c] == s[..c] && r[c..c + |t|] == t && r[c + |t|..] == s[c..]
  {
    s[..c] + t + s[c..]
  }

  /** value[:i] + value[i+1:] */
  function RemoveAt(s: string, i: nat): (r: string)
    requires i < |s|
    ensures |r| == |s| - 1
    ensures r[..i] == s[..i] && r[i..] == s[i + 1..]
  {
    s[..i] + s[i + 1..]
  }

  /** Removing what was just inserted gives the text back. */
  lemma RemoveUndoesInsert(s: string, c: nat, ch: char)
    requires c <= |s|
    ensures RemoveAt(Insert(s, c, [ch]), c) == s
  {
    var r := RemoveAt(Insert(s, c, [ch]), c);
    assert r[..c] == s[..c] && r[c..] == s[c..];
    assert s == s[..c] + s[c..];
  }

  /** Putting a removed character back gives the text back. */
  lemma InsertUndoesRemove(s: string, i: nat)
    requires i < |s|
    ensures Insert(RemoveAt(s, i), i, [s[i]]) == s
  {
    var r := Insert(RemoveAt(s, i), i, [s[i]]);
    assert r[..i] == s[..i] && r[i..i + 1] == s[i..i + 1] && r[i + 1..] == s[i + 1..];
    assert s == s[..i] + s[i..i + 1] + s[i + 1..];
    assert r == r[..i] + r[i..i + 1] + r[i + 1..];
  }

  /** What a key press did: nothing, an edit of the value, a caret move, or a submit. */
  datatype Outcome = Ignored | Edited | Moved | Submitted

  datatype KeyResult = KeyResult(value: string, cursor: nat, outcome: Outcome) {
    /** _handle_key_event returns True for everything but Ignored. */
    predicate Consumed() {
      !outcome.Ignored?
    }
  }

  /**
   * _handle_key_event on the value and the caret: Return submits a
   * single-line input and types a newline into a multiline one; Backspace
   * and Delete remove the character before and after the caret; Left,
   * Right, Home and End move the caret; any other key types its text when
   * that is non-empty and printable.
   */
  function KeyEdit(value: string, cursor: nat, multiline: bool, key: Key, unicode: string, printable: bool): (r: KeyResult)
    requires cursor <= |value|
    ensures r.cursor <= |r.value|
    ensures r.outcome != Edited ==> r.value == value
    ensures r.outcome == Ignored || r.outcome == Submitted ==> r.cursor == cursor
    ensures r.outcome == Submitted <==> key == Return && !multiline
    ensures key == Backspace ==> (r.outcome == Ignored <==> cursor == 0)
    ensures key == Delete ==> (r.outcome == Ignored <==> cursor == |value|)
    ensures key in {Left, Right, Home, End} ==> r.outcome == Moved
    ensures key == Home ==> r.cursor == 0
    ensures key == End ==> r.cursor == |value|
  {
    match key
    case Return =>
      if !multiline then KeyResult(value, cursor, Submitted)
      else KeyResult(Insert(value, cursor, "\n"), cursor + 1, Edited)
    case Backspace =>
      if cursor > 0 then KeyResult(RemoveAt(value, cursor - 1), cursor - 1, Edited)
      else KeyResult(value, cursor, Ignored)
    case Delete =>
      if cursor < |value| then KeyResult(RemoveAt(value, cursor), cursor, Edited)
      else KeyResult(value, cursor, Ignored)
    case Left => KeyResult(value, if cursor - 1 > 0 then cursor - 1 else 0, Moved)
    case Right => KeyResult(value, if |value| < cursor + 1 then |value| else cursor + 1, Moved)
    case Home => KeyResult(value, 0, Moved)
    case End => KeyResult(value, |value|, Moved)
    case _ =>
      if unicode != [] && printable then KeyResult(Insert(value, cursor, unicode), cursor + |unicode|, Edited)
      else KeyResult(value, cursor, Ignored)
  }

  /** Typing a character and then pressing Backspace restores the value and the caret. */
  lemma {:induction false} BackspaceUndoesTyping(value: string, cursor: nat, multiline: bool, code: int, ch: char, u: string, p: bool)
    requires cursor <= |value|
    ensures var typed := KeyEdit(value, cursor, multiline, OtherKey(code), [ch], true);
      typed.outcome == Edited &&
      KeyEdit(typed.value, typed.cursor, multiline, Backspace, u, p) == KeyResult(value, cursor, Edited)
  {
    RemoveUndoesInsert(value, cursor, ch);
  }

  /** Delete removes exactly the character after the caret: typing it again restores the value. */
  lemma {:induction false} DeleteRemovesCharAfterCaret(value: string, cursor: nat, multiline: bool, u: string, p: bool)
    requires cursor < |value|
    ensures var d := KeyEdit(value, cursor, multiline, Delete, u, p);
      d.outcome == Edited && d.cursor == cursor && Insert(d.value, cursor, [value[cursor]]) == value
  {
    InsertUndoesRemove(value, cursor);
  }

  /** Backspace removes exactly the character before the caret and moves the caret onto its place. */
  lemma {:induction false} BackspaceRemovesCharBeforeCaret(value: string, cursor: nat, multiline: bool, u: string, p: bool)
    requires 0 < cursor <= |value|
    ensures var b := KeyEdit(value, cursor, multiline, Backspace, u, p);
      b.outcome == Edited && b.cursor == cursor - 1 && Insert(b.value, cursor - 1, [value[cursor - 1]]) == value
  {
    InsertUndoesRemove(value, cursor - 1);
  }

  /** Left then Right returns the caret when it was not at the start; Right then Left when it was not at the end. */
  lemma LeftRightInverse(value: string, cursor: nat, multiline: bool, u: string, p: bool)
    requires cursor <= |value|
    ensures 0 < cursor ==>
      var l := KeyEdit(value, cursor, multiline, Left, u, p);
      l.cursor == cursor - 1 && KeyEdit(l.value, l.cursor, multiline, Right, u, p).cursor == cursor
    ensures cursor < |value| ==>
      var r := KeyEdit(value, cursor, multiline, Right, u, p);
      r.cursor == cursor + 1 && KeyEdit(r.value, r.cursor, multiline, Left, u, p).cursor == cursor
    ensures cursor == 0 ==> KeyEdit(value, cursor, multiline, Left, u, p).cursor == 0
    ensures cursor == |value| ==> KeyEdit(value, cursor, multiline, Right, u, p).cursor == |value|
  {
  }

  /** Return in a multiline input types a newline at the caret. */
  lemma ReturnInMultiline(value: string, cursor: nat, u: string, p: bool)
    requires cursor <= |value|
    ensures var r := KeyEdit(value, cursor, true, Return, u, p);
      r.outcome == Edited && r.value == Insert(value, cursor, "\n") && r.cursor == cursor + 1
  {
  }

  /** How far the caret slot i lies from the click abscissa x. */
  function CaretDistance(value: string, textX: real, x: real, width: string -> real, i: nat): (d: real)
    requires i <= |value|
    ensures d >= 0.0
  {
    var caretX := textX + width(value[..i]);
    if x - caretX >= 0.0 then x - caretX else caretX - x
  }

  /** p is the caret slot nearest to x, the earliest one among equally near slots. */
  predicate IsClosestCaret(value: string, textX: real, x: real, width: string -> real, p: nat) {
    p <= |value|
    && (forall j :: 0 <= j <= |value| ==> CaretDistance(value, textX, x, width, p) <= CaretDistance(value, textX, x, width, j))
    && (forall j :: 0 <= j < p ==> CaretDistance(value, textX, x, width, j) > CaretDistance(value, textX, x, width, p))
  }

  /** There is only one nearest slot. */
  lemma ClosestCaretUnique(value: string, textX: real, x: real, width: string -> real, p: nat, q: nat)
    requires IsClosestCaret(value, textX, x, width, p) && IsClosestCaret(value, textX, x, width, q)
    ensures p == q
  {
    var dp, dq := CaretDistance(value, textX, x, width, p), CaretDistance(value, textX, x, width, q);
    assert dp == dq;
  }

  /**
   * The search loop of _place_cursor_at_position: a strictly smaller
   * distance replaces the best slot, starting from float('inf').
   */
  method ClosestCaret(value: string, textX: real, x: real, width: string -> real) returns (best: nat)
    ensures IsClosestCaret(value, textX, x, width, best)
  {
    best := 0;
    var bestDistance: Extent := Unbounded;
    var i := 0;
    while i < |value| + 1
      invariant 0 <= i <= |value| + 1
      invariant i == 0 ==> best == 0 && bestDistance == Unbounded
      invariant i > 0 ==> best < i && bestDistance == Finite(CaretDistance(value, textX, x, width, best))
      invariant forall j :: 0 <= j < i ==> CaretDistance(value, textX, x, width, best) <= CaretDistance(value, textX, x, width, j)
      invariant forall j :: 0 <= j < best ==> CaretDistance(value, textX, x, width, j) > CaretDistance(value, textX, x, width, best)
    {
      var distance := CaretDistance(value, textX, x, width, i);
      if bestDistance.Unbounded? || distance < bestDistance.value {
        bestDistance := Finite(distance);
        best := i;
      }
      i := i + 1;
    }
  }

  /** What the input announced: a CHANGE or a SUBMIT event with the value. */
  datatype Emission = ChangeEvent(text: string) | SubmitEvent(text: string)

  class TextInput {
    var value: string
    var cursor: nat
    var focused: bool
    var hovered: bool
    var rect: Rect
    var scrollOffset: real
    const padding: Padding
    const labelText: Option<string>
    const disabled: bool
    const multiline: bool
    const hasOnChange: bool
    const hasOnSubmit: bool
    /** Values passed to on_change, in order. */
    var changeCalls: seq<string>
    /** Values passed to on_submit, in order. */
    var submitCalls: seq<string>
    /** Events emitted to the widget's listeners, in order. */
    var emitted: seq<Emission>
    /** Calls of invalidate(). */
    var invalidations: nat

    /** The caret never leaves [0, len(value)]. */
    predicate Valid()
      reads this
    {
      cursor <= |value|
    }

    /** __init__: the caret starts after the initial value; an explicit padding wins over the size default. */
    constructor(initial: string, labelText: Option<string>, size: string, padding: Option<Padding>,
                disabled: bool, multiline: bool, hasOnChange: bool, hasOnSubmit: bool)
      ensures Valid()
      ensures value == initial && cursor == |initial|
      ensures !focused && !hovered && scrollOffset == 0.0 && rect == Rect(0.0, 0.0, 0.0, 0.0)
      ensures this.padding == if padding.Some? then padding.value else SizePadding(size)
      ensures this.labelText == labelText && this.disabled == disabled && this.multiline == multiline
      ensures this.hasOnChange == hasOnChange && this.hasOnSubmit == hasOnSubmit
      ensures changeCalls == [] && submitCalls == [] && emitted == [] && invalidations == 0
    {
      value := initial;
      cursor := |initial|;
      focused := false;
      hovered := false;
      rect := Rect(0.0, 0.0, 0.0, 0.0);
      scrollOffset := 0.0;
      this.padding := if padding.Some? then padding.value else SizePadding(size);
      this.labelText := labelText;
      this.disabled := disabled;
      this.multiline := multiline;
      this.hasOnChange := hasOnChange;
      this.hasOnSubmit := hasOnSubmit;
      changeCalls := [];
      submitCalls := [];
      emitted := [];
      invalidations := 0;
    }

    /** calculate_size, with the font height as a parameter. */
    function CalculateSize(fontHeight: real): (real, real)
      reads this
    {
      InputSize(fontHeight, padding, labelText, multiline)
    }

    /** Where the text starts on screen. */
    function TextX(): real
      reads this
    {
      rect.x + padding.left - scrollOffset
    }

    /** _on_value_changed: on_change (when set), then CHANGE, then a redraw. */
    method OnValueChanged()
      modifies this`changeCalls, this`emitted, this`invalidations
      ensures changeCalls == old(changeCalls) + (if hasOnChange then [value] else [])
      ensures emitted == old(emitted) + [ChangeEvent(value)]
      ensures invalidations == old(invalidations) + 1
    {
      if hasOnChange {
        changeCalls := changeCalls + [value];
      }
      emitted := emitted + [ChangeEvent(value)];
      invalidations := invalidations + 1;
    }

    /** _insert_text: splice the text in at the caret and move the caret past it. */
    method InsertText(t: string)
      requires Valid()
      modifies this`value, this`cursor, this`changeCalls, this`emitted, this`invalidations
      ensures Valid()
      ensures value == Insert(old(value), old(cursor), t) && cursor == old(cursor) + |t|
      ensures changeCalls == old(changeCalls) + (if hasOnChange then [value] else [])
      ensures emitted == old(emitted) + [ChangeEvent(value)]
      ensures invalidations == old(invalidations) + 1
    {
      value := Insert(value, cursor, t);
      cursor := cursor + |t|;
      OnValueChanged();
    }

    /** The effect of a key press whose outcome on value and caret is r. */
    twostate predicate KeyApplied(r: KeyResult)
      reads this
    {
      value == r.value && cursor == r.cursor
      && focused == old(focused) && hovered == old(hovered) && rect == old(rect) && scrollOffset == old(scrollOffset)
      && changeCalls == old(changeCalls) + (if r.outcome == Edited && hasOnChange then [r.value] else [])
      && submitCalls == old(submitCalls) + (if r.outcome == Submitted && hasOnSubmit then [r.value] else [])
      && emitted == old(emitted) + (match r.outcome
                                    case Edited => [ChangeEvent(r.value)]
                                    case Submitted => [SubmitEvent(r.value)]
                                    case _ => [])
      && invalidations == old(invalidations) + (if r.outcome == Edited || r.outcome == Moved then 1 else 0)
    }

    /** The single-line Return: on_submit (when set) and SUBMIT with the unchanged value. */
    method Submit()
      modifies this`submitCalls, this`emitted
      ensures submitCalls == old(submitCalls) + (if hasOnSubmit then [value] else [])
      ensures emitted == old(emitted) + [SubmitEvent(value)]
    {
      if hasOnSubmit {
        submitCalls := submitCalls + [value];
      }
      emitted := emitted + [SubmitEvent(value)];
    }

    /** A caret key: the caret moves and the input asks for a redraw. */
    method MoveCursor(c: nat)
      modifies this`cursor, this`invalidations
      ensures cursor == c && invalidations == old(invalidations) + 1
    {
      cursor := c;
      invalidations := invalidations + 1;
    }

    /** _handle_key_event */
    method HandleKey(key: Key, unicode: string, printable: bool) returns (consumed: bool)
      requires Valid()
      modifies this`value, this`cursor, this`changeCalls, this`submitCalls, this`emitted, this`invalidations
      ensures Valid()
      ensures var r := KeyEdit(old(value), old(cursor), multiline, key, unicode, printable);
        KeyApplied(r) && consumed == r.Consumed()
    {
      consumed := true;
      match key
      case Return =>
        if !multiline {
          Submit();
        } else {
          InsertText("\n");
        }
      case Backspace =>
        if cursor > 0 {
          value := RemoveAt(value, cursor - 1);
          cursor := cursor - 1;
          OnValueChanged();
        } else {
          consumed := false;
        }
      case Delete =>
        if cursor < |value| {
          value := RemoveAt(value, cursor);
          OnValueChanged();
        } else {
          consumed := false;
        }
      case Left =>
        MoveCursor(if cursor - 1 > 0 then cursor - 1 else 0);
      case Right =>
        MoveCursor(if |value| < cursor + 1 then |value| else cursor + 1);
      case Home =>
        MoveCursor(0);
      case End =>
        MoveCursor(|value|);
      case _ =>
        if unicode != [] && printable {
          InsertText(unicode);
        } else {
          consumed := false;
        }
    }

    /** _place_cursor_at_position: the caret goes to the slot nearest to x, then a redraw. */
    method PlaceCursorAtPosition(x: real, width: string -> real)
      modifies this`cursor, this`invalidations
      ensures IsClosestCaret(value, TextX(), x, width, cursor)
      ensures invalidations == old(invalidations) + 1
    {
      cursor := ClosestCaret(value, TextX(), x, width);
      invalidations := invalidations + 1;
    }

    /**
     * handle_event: a disabled input ignores everything. A left click
     * inside focuses and places the caret and is consumed; outside it only
     * drops the focus. Motion tracks hovering. Keys count only while focused.
     */
    method HandleEvent(ev: Event, width: string -> real) returns (consumed: bool)
      requires Valid()
      modifies this
      ensures Valid()
      ensures disabled ==> !consumed && unchanged(this)
      ensures !disabled && ev.IsLeftDown() && rect.Contains(ev.x, ev.y) ==>
        consumed && focused && hovered == old(hovered) && value == old(value)
        && IsClosestCaret(value, TextX(), ev.x, width, cursor)
        && changeCalls == old(changeCalls) && submitCalls == old(submitCalls) && emitted == old(emitted)
        && invalidations == old(invalidations) + 2
      ensures !disabled && ev.IsLeftDown() && !rect.Contains(ev.x, ev.y) ==>
        !consumed && !focused && hovered == old(hovered) && value == old(value) && cursor == old(cursor)
        && changeCalls == old(changeCalls) && submitCalls == old(submitCalls) && emitted == old(emitted)
        && invalidations == old(invalidations) + (if old(focused) then 1 else 0)
      ensures !disabled && ev.MouseMotion? ==>
        !consumed && hovered == rect.Contains(ev.x, ev.y) && focused == old(focused)
        && value == old(value) && cursor == old(cursor)
        && changeCalls == old(changeCalls) && submitCalls == old(submitCalls) && emitted == old(emitted)
        && invalidations == old(invalidations) + (if hovered != old(hovered) then 1 else 0)
      ensures !disabled && ev.KeyDown? && old(focused) ==>
        var r := KeyEdit(old(value), old(cursor), multiline, ev.key, ev.unicode, ev.printable);
        KeyApplied(r) && consumed == r.Consumed()
      ensures !disabled && !ev.IsLeftDown() && !ev.MouseMotion? && !(ev.KeyDown? && old(focused)) ==>
        !consumed && unchanged(this)
      ensures rect == old(rect) && scrollOffset == old(scrollOffset)
    {
      consumed := false;
      if disabled {
        return;
      }
      if ev.IsLeftDown() {
        if rect.Contains(ev.x, ev.y) {
          focused := true;
          PlaceCursorAtPosition(ev.x, width);
          invalidations := invalidations + 1;
          consumed := true;
        } else if focused {
          focused := false;
          invalidations := invalidations + 1;
        }
      } else if ev.MouseMotion? {
        var wasHovered := hovered;
        hovered := rect.Contains(ev.x, ev.y);
        if wasHovered != hovered {
          invalidations := invalidations + 1;
        }
      } else if ev.KeyDown? && focused {
        consumed := HandleKey(ev.key, ev.unicode, ev.printable);
      }
    }
  }
}
