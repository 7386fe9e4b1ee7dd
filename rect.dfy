/**
 * The two-representation rectangle of `src/rect.rs`: a rectangle is given
 * either by its top-left corner and dimensions (`Dims`) or by its top-left
 * and bottom-right corners (`Coords`). Every accessor answers in both.
 */
module RectShape {
  datatype Shape =
    | Dims(x: real, y: real, w: real, h: real)
    | Coords(x0: real, y0: real, x1: real, y1: real)

  function Left(r: Shape): (v: real)
    ensures v == (if r.Dims? then r.x else r.x0)
  {
    match r
    case Dims(x, _, _, _) => x
    case Coords(x0, _, _, _) => x0
  }

  function Top(r: Shape): (v: real)
    ensures v == (if r.Dims? then r.y else r.y0)
  {
    match r
    case Dims(_, y, _, _) => y
    case Coords(_, y0, _, _) => y0
  }

  /** The right edge is the left edge moved by the width. */
  function Right(r: Shape): (v: real)
    ensures v - Left(r) == Width(r)
  {
    match r
    case Dims(x, _, w, _) => x + w
    case Coords(_, _, x1, _) => x1
  }

  /** The bottom edge is the top edge moved by the height. */
  function Bottom(r: Shape): (v: real)
    ensures v - Top(r) == Height(r)
  {
    match r
    case Dims(_, y, _, h) => y + h
    case Coords(_, _, _, y1) => y1
  }

  function Width(r: Shape): (v: real)
    ensures r.Dims? ==> v == r.w
    ensures r.Coords? ==> v == r.x1 - r.x0
  {
    match r
    case Dims(_, _, w, _) => w
    case Coords(x0, _, x1, _) => x1 - x0
  }

  function Height(r: Shape): (v: real)
    ensures r.Dims? ==> v == r.h
    ensures r.Coords? ==> v == r.y1 - r.y0
  {
    match r
    case Dims(_, _, _, h) => h
    case Coords(_, y0, _, y1) => y1 - y0
  }

  /** `coords`: the corners, in the order of `Coords`. */
  function CoordsOf(r: Shape): (c: (real, real, real, real))
    ensures c.2 - c.0 == Width(r) && c.3 - c.1 == Height(r)
    ensures r.Coords? ==> c == (r.x0, r.y0, r.x1, r.y1)
  {
    (Left(r), Top(r), Right(r), Bottom(r))
  }

  /** `dims`: the corner and dimensions, in the order of `Dims`. */
  function DimsOf(r: Shape): (d: (real, real, real, real))
    ensures r.Dims? ==> d == (r.x, r.y, r.w, r.h)
    ensures d.0 + d.2 == Right(r) && d.1 + d.3 == Bottom(r)
  {
    (Left(r), Top(r), Width(r), Height(r))
  }

  /** `dimensions`: width and height, computed directly from either variant. */
  function Dimensions(r: Shape): (d: (real, real))
    ensures d == (Width(r), Height(r))
  {
    match r
    case Dims(_, _, w, h) => (w, h)
    case Coords(x0, y0, x1, y1) => (x1 - x0, y1 - y0)
  }

  /** `set_coords`: the rectangle becomes the given corners. */
  function SetCoords(r: Shape, x0: real, y0: real, x1: real, y1: real): (r': Shape)
    ensures CoordsOf(r') == (x0, y0, x1, y1)
  {
    Coords(x0, y0, x1, y1)
  }

  /** `set_dims`: the rectangle becomes the given corner and dimensions. */
  function SetDims(r: Shape, x: real, y: real, w: real, h: real): (r': Shape)
    ensures DimsOf(r') == (x, y, w, h)
  {
    Dims(x, y, w, h)
  }

  /** The two representations describe the same rectangle: re-reading a
      rectangle through the other representation changes none of its edges. */
  lemma RepresentationsAgree(r: Shape)
    ensures var d := DimsOf(r); CoordsOf(Dims(d.0, d.1, d.2, d.3)) == CoordsOf(r)
    ensures var c := CoordsOf(r); DimsOf(Coords(c.0, c.1, c.2, c.3)) == DimsOf(r)
  {
  }
}
