/**
 * An axis-aligned rectangle of the area-of-interest grid
 * (modules/python/AOI/Rectangle.py). Its corners may be infinite, as for the
 * catch-all cell. A rectangle is never changed after construction, so it is
 * a value here.
 */
module AoiRectangle {

  /** A corner coordinate: a finite real or one of the two infinities. */
  datatype Coord = NegInf | Fin(v: real) | PosInf

  /** `a < b` on the extended reals. */
  predicate Less(a: Coord, b: Coord) {
    match (a, b)
    case (NegInf, NegInf) => false
    case (NegInf, _) => true
    case (Fin(x), Fin(y)) => x < y
    case (Fin(_), PosInf) => true
    case (Fin(_), NegInf) => false
    case (PosInf, _) => false
  }

  predicate LessEq(a: Coord, b: Coord) {
    a == b || Less(a, b)
  }

  /** The corners after construction: x0, x1 are the x bounds and y0, y1 the y bounds. */
  datatype Rectangle = Rectangle(x0: Coord, x1: Coord, y0: Coord, y1: Coord)

  /**
   * `Rectangle(x0, x1, y0, y1)`: each pair of corners is swapped when given in
   * decreasing order. A zero-width or zero-height rectangle is still built
   * (the source only prints a message).
   */
  function Make(x0: Coord, x1: Coord, y0: Coord, y1: Coord): (r: Rectangle)
    ensures LessEq(r.x0, r.x1) && LessEq(r.y0, r.y1)
    ensures (r.x0, r.x1) == (x0, x1) || (r.x0, r.x1) == (x1, x0)
    ensures (r.y0, r.y1) == (y0, y1) || (r.y0, r.y1) == (y1, y0)
  {
    var (a0, a1) := if Less(x1, x0) then (x1, x0) else (x0, x1);
    var (b0, b1) := if Less(y1, y0) then (y1, y0) else (y0, y1);
    Rectangle(a0, a1, b0, b1)
  }

  /** The message condition of the constructor: a zero-area rectangle. */
  predicate ZeroArea(x0: Coord, x1: Coord, y0: Coord, y1: Coord) {
    x0 == x1 || y0 == y1
  }

  /**
   * `between(val, min_, max_, includes)`: strict on both sides, or lower-open
   * and upper-closed when `includes` is set.
   */
  predicate Between(val: real, lo: Coord, hi: Coord, includes: bool) {
    Less(lo, Fin(val)) && (if includes then LessEq(Fin(val), hi) else Less(Fin(val), hi))
  }

  /**
   * `includes(x, y, include_border)`. Both tests are applied to `x`: the
   * second one checks `x`, not `y`, against the y bounds.
   */
  predicate Includes(r: Rectangle, x: real, y: real, includeBorder: bool) {
    Between(x, r.x0, r.x1, includeBorder) && Between(x, r.y0, r.y1, includeBorder)
  }

  /** Swapping the corners given to the constructor yields the same rectangle. */
  lemma MakeIgnoresCornerOrder(x0: Coord, x1: Coord, y0: Coord, y1: Coord)
    ensures Make(x1, x0, y0, y1) == Make(x0, x1, y0, y1)
    ensures Make(x0, x1, y1, y0) == Make(x0, x1, y0, y1)
  {
  }

  /** The two interval tests, stated on finite bounds. */
  lemma BetweenFinite(val: real, lo: real, hi: real)
    ensures Between(val, Fin(lo), Fin(hi), false) <==> lo < val < hi
    ensures Between(val, Fin(lo), Fin(hi), true) <==> lo < val <= hi
  {
  }

  /** The border option only widens the test. */
  lemma StrictImpliesBorder(r: Rectangle, x: real, y: real)
    ensures Includes(r, x, y, false) ==> Includes(r, x, y, true)
  {
  }

  /** The result never depends on y. */
  lemma IncludesIgnoresY(r: Rectangle, x: real, y: real, y': real, includeBorder: bool)
    ensures Includes(r, x, y, includeBorder) == Includes(r, x, y', includeBorder)
  {
  }

  /** A rectangle with coinciding corners contains no point at all. */
  lemma ZeroAreaIncludesNothing(x0: Coord, x1: Coord, y0: Coord, y1: Coord, x: real, y: real, includeBorder: bool)
    requires ZeroArea(x0, x1, y0, y1)
    ensures !Includes(Make(x0, x1, y0, y1), x, y, includeBorder)
  {
  }

  /** The rectangle spanning the whole plane. */
  function CatchAll(): (r: Rectangle)
    ensures forall x: real, y: real, b: bool :: Includes(r, x, y, b)
  {
    Make(NegInf, PosInf, NegInf, PosInf)
  }
}
