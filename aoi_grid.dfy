/**
 * The uniform area-of-interest grid (modules/python/AOI/AOI.py): cellsX by
 * cellsY rectangles over [0, xCoef] x [0, yCoef], numbered row by row from 1,
 * followed by one rectangle spanning the whole plane.
 */
module AoiGrid {
  import opened Common
  import opened AoiRectangle
  import opened Arith

  /**
   * `np.arange(0, coef + step, step)` with `step = coef / n`, under exact
   * arithmetic: the n + 1 grid lines k * step.
   */
  function GridLines(n: nat, step: real): (xs: seq<real>)
    ensures |xs| == n + 1
    ensures forall k :: 0 <= k <= n ==> xs[k] == k as real * step
  {
    seq(n + 1, k => k as real * step)
  }

  /** The rectangle between grid lines c, c + 1 in x and r, r + 1 in y. */
  function Cell(xs: seq<real>, ys: seq<real>, r: nat, c: nat): Rectangle
    requires r + 1 < |ys| && c + 1 < |xs|
  {
    Make(Fin(xs[c]), Fin(xs[c + 1]), Fin(ys[r]), Fin(ys[r + 1]))
  }

  /** Row r, column c is the (r * cellsX + c)-th cell counting from 0. */
  lemma CellIndex(r: nat, c: nat, cellsX: nat, cellsY: nat)
    requires r < cellsY && c < cellsX
    ensures (r * cellsX + c) / cellsX == r
    ensures (r * cellsX + c) % cellsX == c
    ensures r * cellsX + c < cellsX * cellsY
  {
    DivModUnique(r * cellsX + c, cellsX, r, c);
    MulMonotone(r + 1, cellsY, cellsX);
    assert (r + 1) * cellsX == r * cellsX + cellsX;
    assert cellsY * cellsX == cellsX * cellsY;
  }

  /** The id-th finite cell (ids start at 1). */
  function CellAt(xCoef: real, yCoef: real, cellsX: nat, cellsY: nat, id: int): Rectangle
    requires cellsX > 0 && cellsY > 0 && 1 <= id <= cellsX * cellsY
  {
    var k := id - 1;
    DivBelow(k, cellsX, cellsY);
    Cell(GridLines(cellsX, xCoef / cellsX as real), GridLines(cellsY, yCoef / cellsY as real), k / cellsX, k % cellsX)
  }

  /** The rectangle stored under id: a finite cell, or the catch-all after the last one. */
  function GridEntry(xCoef: real, yCoef: real, cellsX: nat, cellsY: nat, id: int): Rectangle
    requires cellsX > 0 && cellsY > 0 && 1 <= id <= cellsX * cellsY + 1
  {
    if id == cellsX * cellsY + 1 then CatchAll() else CellAt(xCoef, yCoef, cellsX, cellsY, id)
  }

  /** The dict built by `get_aoi_list`. */
  function Grid(xCoef: real, yCoef: real, cellsX: nat, cellsY: nat): map<int, Rectangle>
    requires cellsX > 0 && cellsY > 0
  {
    map id | 1 <= id <= cellsX * cellsY + 1 :: GridEntry(xCoef, yCoef, cellsX, cellsY, id)
  }

  /** The cells with ids below n, as after n - 1 steps of the nested loops. */
  function PartialGrid(xCoef: real, yCoef: real, cellsX: nat, cellsY: nat, n: int): map<int, Rectangle>
    requires cellsX > 0 && cellsY > 0 && n <= cellsX * cellsY + 1
  {
    map id | 1 <= id < n :: CellAt(xCoef, yCoef, cellsX, cellsY, id)
  }

  /**
   * `get_aoi_list` raises ZeroDivisionError for zero cells (x_coef / cells_x)
   * and for a zero coefficient (np.arange with a zero step).
   */
  function GridCheck(xCoef: real, yCoef: real, cellsX: nat, cellsY: nat): (o: Outcome)
    ensures o == Pass <==> cellsX > 0 && cellsY > 0 && xCoef != 0.0 && yCoef != 0.0
    ensures o != Pass ==> o == Fail(ZeroDivisionError)
  {
    if cellsX == 0 || cellsY == 0 || xCoef == 0.0 || yCoef == 0.0 then Fail(ZeroDivisionError) else Pass
  }

  /** The nested loops of `get_aoi_list`, inserting one rectangle per step. */
  method BuildAoiList(xCoef: real, yCoef: real, cellsX: nat, cellsY: nat) returns (aois: map<int, Rectangle>)
    requires cellsX > 0 && cellsY > 0
    ensures aois == Grid(xCoef, yCoef, cellsX, cellsY)
  {
    var xs := GridLines(cellsX, xCoef / cellsX as real);
    var ys := GridLines(cellsY, yCoef / cellsY as real);
    var aoiNum := 1;
    aois := map[];
    for r := 0 to cellsY
      invariant aoiNum == r * cellsX + 1
      invariant aoiNum <= cellsX * cellsY + 1
      invariant aois == PartialGrid(xCoef, yCoef, cellsX, cellsY, aoiNum)
    {
      for c := 0 to cellsX
        invariant aoiNum == r * cellsX + c + 1
        invariant aoiNum <= cellsX * cellsY + 1
        invariant aois == PartialGrid(xCoef, yCoef, cellsX, cellsY, aoiNum)
      {
        CellIndex(r, c, cellsX, cellsY);
        CellAtRowCol(xCoef, yCoef, cellsX, cellsY, aoiNum, r, c);
        CellOfLines(xCoef, yCoef, cellsX, cellsY, r, c);
        PartialGridStep(xCoef, yCoef, cellsX, cellsY, aoiNum);
        aois := aois[aoiNum := Cell(xs, ys, r, c)];
        aoiNum := aoiNum + 1;
      }
      assert (r + 1) * cellsX == r * cellsX + cellsX;
    }
    assert cellsY * cellsX == cellsX * cellsY;
    GridFromPartial(xCoef, yCoef, cellsX, cellsY);
    aois := aois[aoiNum := CatchAll()];
  }

  lemma PartialGridStep(xCoef: real, yCoef: real, cellsX: nat, cellsY: nat, n: int)
    requires cellsX > 0 && cellsY > 0 && 1 <= n <= cellsX * cellsY
    ensures PartialGrid(xCoef, yCoef, cellsX, cellsY, n)[n := CellAt(xCoef, yCoef, cellsX, cellsY, n)] ==
      PartialGrid(xCoef, yCoef, cellsX, cellsY, n + 1)
  {
  }

  lemma GridFromPartial(xCoef: real, yCoef: real, cellsX: nat, cellsY: nat)
    requires cellsX > 0 && cellsY > 0
    ensures PartialGrid(xCoef, yCoef, cellsX, cellsY, cellsX * cellsY + 1)[cellsX * cellsY + 1 := CatchAll()] ==
      Grid(xCoef, yCoef, cellsX, cellsY)
  {
  }

  /** Ids run from 1 to cellsX * cellsY + 1 without gaps. */
  lemma GridIds(xCoef: real, yCoef: real, cellsX: nat, cellsY: nat)
    requires cellsX > 0 && cellsY > 0
    ensures forall id :: id in Grid(xCoef, yCoef, cellsX, cellsY) <==> 1 <= id <= cellsX * cellsY + 1
  {
  }

  /** Grid line k of n over [0, coef]. */
  function Line(k: nat, coef: real, n: nat): real
    requires n > 0
  {
    k as real * (coef / n as real)
  }

  /** The rectangle of y-row r and x-column c of the grid. */
  function GridCell(xCoef: real, yCoef: real, cellsX: nat, cellsY: nat, r: nat, c: nat): Rectangle
    requires r < cellsY && c < cellsX
  {
    Make(Fin(Line(c, xCoef, cellsX)), Fin(Line(c + 1, xCoef, cellsX)),
         Fin(Line(r, yCoef, cellsY)), Fin(Line(r + 1, yCoef, cellsY)))
  }

  /** The finite cell with a given id, in terms of the row and column that id encodes. */
  lemma CellAtRowCol(xCoef: real, yCoef: real, cellsX: nat, cellsY: nat, id: int, r: nat, c: nat)
    requires cellsX > 0 && cellsY > 0 && 1 <= id <= cellsX * cellsY
    requires (id - 1) / cellsX == r && (id - 1) % cellsX == c && r < cellsY
    ensures CellAt(xCoef, yCoef, cellsX, cellsY, id) == GridCell(xCoef, yCoef, cellsX, cellsY, r, c)
  {
    CellOfLines(xCoef, yCoef, cellsX, cellsY, r, c);
  }

  /** The loop's rectangle from the arange lists is the grid cell. */
  lemma CellOfLines(xCoef: real, yCoef: real, cellsX: nat, cellsY: nat, r: nat, c: nat)
    requires r < cellsY && c < cellsX
    ensures Cell(GridLines(cellsX, xCoef / cellsX as real), GridLines(cellsY, yCoef / cellsY as real), r, c) ==
      GridCell(xCoef, yCoef, cellsX, cellsY, r, c)
  {
    var xs := GridLines(cellsX, xCoef / cellsX as real);
    var ys := GridLines(cellsY, yCoef / cellsY as real);
    assert xs[c] == Line(c, xCoef, cellsX);
    assert xs[c + 1] == Line(c + 1, xCoef, cellsX);
    assert ys[r] == Line(r, yCoef, cellsY);
    assert ys[r + 1] == Line(r + 1, yCoef, cellsY);
  }

  /** The cell in y-row r and x-column c carries id r * cellsX + c + 1. */
  lemma {:induction false} GridRowMajor(xCoef: real, yCoef: real, cellsX: nat, cellsY: nat, r: nat, c: nat)
    requires r < cellsY && c < cellsX
    ensures r * cellsX + c + 1 <= cellsX * cellsY
    ensures r * cellsX + c + 1 in Grid(xCoef, yCoef, cellsX, cellsY)
    ensures Grid(xCoef, yCoef, cellsX, cellsY)[r * cellsX + c + 1] == GridCell(xCoef, yCoef, cellsX, cellsY, r, c)
  {
    CellIndex(r, c, cellsX, cellsY);
    CellAtRowCol(xCoef, yCoef, cellsX, cellsY, r * cellsX + c + 1, r, c);
  }

  lemma LineIncreasing(k: nat, coef: real, n: nat)
    requires n > 0 && coef > 0.0
    ensures Line(k, coef, n) < Line(k + 1, coef, n)
  {
    assert Line(k + 1, coef, n) == Line(k, coef, n) + coef / n as real;
  }

  /**
   * With positive coefficients the corners are already ordered, so the cell
   * spans [c * xStep, (c + 1) * xStep] x [r * yStep, (r + 1) * yStep].
   */
  lemma {:induction false} GridCellSpan(xCoef: real, yCoef: real, cellsX: nat, cellsY: nat, r: nat, c: nat)
    requires xCoef > 0.0 && yCoef > 0.0 && r < cellsY && c < cellsX
    ensures GridCell(xCoef, yCoef, cellsX, cellsY, r, c) ==
      Rectangle(Fin(Line(c, xCoef, cellsX)), Fin(Line(c + 1, xCoef, cellsX)),
                Fin(Line(r, yCoef, cellsY)), Fin(Line(r + 1, yCoef, cellsY)))
  {
    LineIncreasing(c, xCoef, cellsX);
    LineIncreasing(r, yCoef, cellsY);
  }

  /** With positive coefficients x = 0 is on or left of every cell's left border, so the strict test excludes it. */
  lemma LeftBorderExcluded(xCoef: real, yCoef: real, cellsX: nat, cellsY: nat, r: nat, c: nat, y: real)
    requires xCoef > 0.0 && yCoef > 0.0 && r < cellsY && c < cellsX
    ensures !Includes(GridCell(xCoef, yCoef, cellsX, cellsY, r, c), 0.0, y, false)
  {
    GridCellSpan(xCoef, yCoef, cellsX, cellsY, r, c);
    assert xCoef / cellsX as real > 0.0;
    NonNegProduct(c as real, xCoef / cellsX as real);
  }

  /** No finite cell of the positive grid holds a sample at x = 0. */
  lemma FiniteCellExcludesOrigin(xCoef: real, yCoef: real, cellsX: nat, cellsY: nat, id: int, y: real)
    requires xCoef > 0.0 && yCoef > 0.0 && cellsX > 0 && cellsY > 0 && 1 <= id <= cellsX * cellsY
    ensures !Includes(Grid(xCoef, yCoef, cellsX, cellsY)[id], 0.0, y, false)
  {
    DivBelow(id - 1, cellsX, cellsY);
    var r, c := (id - 1) / cellsX, (id - 1) % cellsX;
    CellAtRowCol(xCoef, yCoef, cellsX, cellsY, id, r, c);
    LeftBorderExcluded(xCoef, yCoef, cellsX, cellsY, r, c, y);
  }

  /** Neighbouring cells share their boundary. */
  lemma {:induction false} GridNeighbours(xCoef: real, yCoef: real, cellsX: nat, cellsY: nat, r: nat, c: nat)
    requires xCoef > 0.0 && yCoef > 0.0 && r < cellsY && c < cellsX
    ensures c + 1 < cellsX ==>
      GridCell(xCoef, yCoef, cellsX, cellsY, r, c).x1 == GridCell(xCoef, yCoef, cellsX, cellsY, r, c + 1).x0
    ensures r + 1 < cellsY ==>
      GridCell(xCoef, yCoef, cellsX, cellsY, r, c).y1 == GridCell(xCoef, yCoef, cellsX, cellsY, r + 1, c).y0
  {
    GridCellSpan(xCoef, yCoef, cellsX, cellsY, r, c);
    if c + 1 < cellsX {
      GridCellSpan(xCoef, yCoef, cellsX, cellsY, r, c + 1);
    }
    if r + 1 < cellsY {
      GridCellSpan(xCoef, yCoef, cellsX, cellsY, r + 1, c);
    }
  }

  /** The finite cells reach from 0 to xCoef in x and from 0 to yCoef in y. */
  lemma {:induction false} GridBounds(xCoef: real, yCoef: real, cellsX: nat, cellsY: nat, r: nat, c: nat)
    requires xCoef > 0.0 && yCoef > 0.0 && r < cellsY && c < cellsX
    ensures c == 0 ==> GridCell(xCoef, yCoef, cellsX, cellsY, r, c).x0 == Fin(0.0)
    ensures c + 1 == cellsX ==> GridCell(xCoef, yCoef, cellsX, cellsY, r, c).x1 == Fin(xCoef)
    ensures r == 0 ==> GridCell(xCoef, yCoef, cellsX, cellsY, r, c).y0 == Fin(0.0)
    ensures r + 1 == cellsY ==> GridCell(xCoef, yCoef, cellsX, cellsY, r, c).y1 == Fin(yCoef)
  {
    GridCellSpan(xCoef, yCoef, cellsX, cellsY, r, c);
    LineLast(xCoef, cellsX);
    LineLast(yCoef, cellsY);
  }

  lemma LineLast(coef: real, n: nat)
    requires n > 0
    ensures Line(n, coef, n) == coef
  {
  }

  /** The highest id is the rectangle (-inf, inf) x (-inf, inf). */
  lemma GridCatchAll(xCoef: real, yCoef: real, cellsX: nat, cellsY: nat)
    requires cellsX > 0 && cellsY > 0
    ensures Grid(xCoef, yCoef, cellsX, cellsY)[cellsX * cellsY + 1] == Rectangle(NegInf, PosInf, NegInf, PosInf)
  {
  }

  /** `AOI`: the grid parameters and, once `get_aoi_list` has run, the rectangles. */
  class Aoi {
    const xCoef: real
    const yCoef: real
    const cellsX: nat
    const cellsY: nat
    var aois: map<int, Rectangle>

    constructor (xCoef: real, yCoef: real, cellsX: nat, cellsY: nat)
      ensures this.xCoef == xCoef && this.yCoef == yCoef
      ensures this.cellsX == cellsX && this.cellsY == cellsY
      ensures aois == map[]
    {
      this.xCoef := xCoef;
      this.yCoef := yCoef;
      this.cellsX := cellsX;
      this.cellsY := cellsY;
      aois := map[];
    }

    method GetAoiList() returns (o: Outcome)
      modifies this`aois
      ensures o == GridCheck(xCoef, yCoef, cellsX, cellsY)
      ensures o == Pass ==> aois == Grid(xCoef, yCoef, cellsX, cellsY)
      ensures o != Pass ==> aois == old(aois)
    {
      o := GridCheck(xCoef, yCoef, cellsX, cellsY);
      if o == Pass {
        aois := BuildAoiList(xCoef, yCoef, cellsX, cellsY);
      }
    }
  }
}
