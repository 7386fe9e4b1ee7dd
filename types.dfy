/**
 * The crate-wide rectangle types of `src/types.rs`: `Rect` (floating
 * point, here real) and `RectPx` (i32, here int), with their tuple
 * conversions.
 */
module Types {
  /** A rectangle given by its top-left corner and its dimensions. */
  datatype Rect = Rect(x: real, y: real, width: real, height: real)

  /** Like `Rect`, but with integer pixel coordinates. */
  datatype RectPx = RectPx(x: int, y: int, width: int, height: int)

  /** `Rect::into_corners`: the top-left and bottom-right corners. */
  function IntoCorners(r: Rect): (c: (real, real, real, real))
    ensures c.0 == r.x && c.1 == r.y
    ensures c.2 - c.0 == r.width && c.3 - c.1 == r.height
  {
    (r.x, r.y, r.x + r.width, r.y + r.height)
  }

  /** `From<(f32, f32, f32, f32)> for Rect`: fields in the order x, y, width, height. */
  function RectFromTuple(t: (real, real, real, real)): (r: Rect)
    ensures (r.x, r.y, r.width, r.height) == t
  {
    Rect(t.0, t.1, t.2, t.3)
  }

  /** `From<(i32, i32, i32, i32)> for Rect`: each integer becomes the equal real. */
  function RectFromIntTuple(t: (int, int, int, int)): (r: Rect)
    ensures r == RectFromTuple((t.0 as real, t.1 as real, t.2 as real, t.3 as real))
  {
    Rect(t.0 as real, t.1 as real, t.2 as real, t.3 as real)
  }

  /** `From<RectPx> for Rect`: each field keeps its value. */
  function RectFromRectPx(p: RectPx): (r: Rect)
    ensures r.x.Floor == p.x && r.y.Floor == p.y
    ensures r.width.Floor == p.width && r.height.Floor == p.height
    ensures r.x == p.x as real && r.width == p.width as real
  {
    Rect(p.x as real, p.y as real, p.width as real, p.height as real)
  }

  /** `From<(i32, i32, i32, i32)> for RectPx`. */
  function RectPxFromTuple(t: (int, int, int, int)): (p: RectPx)
    ensures p.x == t.0 && p.y == t.1 && p.width == t.2 && p.height == t.3
  {
    RectPx(t.0, t.1, t.2, t.3)
  }

  /** `From<RectPx> for (i32, i32, i32, i32)`. */
  function TupleFromRectPx(p: RectPx): (t: (int, int, int, int))
    ensures t.0 == p.x && t.1 == p.y && t.2 == p.width && t.3 == p.height
  {
    (p.x, p.y, p.width, p.height)
  }

  /** RectPx -> tuple -> RectPx is the identity. */
  lemma RectPxRoundTrip(p: RectPx)
    ensures RectPxFromTuple(TupleFromRectPx(p)) == p
  {
  }

  /** tuple -> RectPx -> tuple is the identity. */
  lemma TupleRoundTrip(t: (int, int, int, int))
    ensures TupleFromRectPx(RectPxFromTuple(t)) == t
  {
  }

  /** The two routes from an integer tuple to a `Rect` agree. */
  lemma IntTupleRoutesAgree(t: (int, int, int, int))
    ensures RectFromRectPx(RectPxFromTuple(t)) == RectFromIntTuple(t)
  {
  }
}
