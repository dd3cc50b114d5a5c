/**
 * The pygame events the widgets react to, reduced to the attributes they
 * read: a button number and a position for mouse buttons, a position for
 * motion, the notch count of a wheel, and for a key press the key, the
 * text it types and whether that text is printable (str.isprintable).
 */
module Events {
  datatype Key = Return | Backspace | Delete | Left | Right | Home | End | Escape | OtherKey(code: int)

  datatype Event =
    | Quit
    | VideoResize(w: int, h: int)
    | MouseMotion(x: real, y: real)
    | MouseDown(button: int, x: real, y: real)
    | MouseUp(button: int, x: real, y: real)
    | MouseWheel(notches: int)
    | KeyDown(key: Key, unicode: string, printable: bool)
    | KeyUp(key: Key)
    | OtherEvent
  {
    /** The events that carry a pos attribute. */
    predicate IsPointer() {
      MouseMotion? || MouseDown? || MouseUp?
    }

    /** A press or release of the left button. */
    predicate IsLeftDown() {
      MouseDown? && button == 1
    }

    predicate IsLeftUp() {
      MouseUp? && button == 1
    }

    predicate IsKey() {
      KeyDown? || KeyUp?
    }
  }
}
