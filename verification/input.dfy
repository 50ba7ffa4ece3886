/** What a window reports to the widgets in one frame, and the geometry that
    hit-testing needs. */
module Input {

  newtype byte = b: int | 0 <= b < 256

  datatype Pos = Pos(x: real, y: real)

  /** A screen rectangle. Containment includes the borders, as in the
      graphics library's `Rect.Contains`. */
  datatype Rect = Rect(min: Pos, max: Pos) {
    predicate Contains(p: Pos) {
      min.x <= p.x <= max.x && min.y <= p.y <= max.y
    }
  }

  /** The draw area of a widget that has never been drawn. */
  const ZeroRect := Rect(Pos(0.0, 0.0), Pos(0.0, 0.0))

  /** A widget hit-tests against the area of its previous draw: before its
      first draw that area is the zero rectangle, which the pointer hits only
      at the origin. */
  lemma ZeroRectHitsOnlyOrigin(p: Pos)
    ensures ZeroRect.Contains(p) <==> p == Pos(0.0, 0.0)
  {
  }

  /** One frame of input: pointer position, the left/right mouse button
      edges, the set of button and key codes held down, the keys that were
      just pressed, and the bytes typed during the frame. */
  datatype Frame = Frame(
    mouse: Pos,
    justPressedLeft: bool,
    justReleasedLeft: bool,
    justPressedRight: bool,
    held: set<int>,
    enter: bool,
    escape: bool,
    up: bool,
    down: bool,
    backspace: bool,
    typed: seq<byte>)
}
