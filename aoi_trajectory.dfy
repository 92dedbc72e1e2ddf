/**
 * A gaze trajectory mapped onto the AOI grid (modules/python/AOI/Trajectory.py):
 * time and coordinate preparation, grouping by time bucket, the first
 * rectangle containing each sample, and the transition matrix of the
 * resulting AOI sequence. The CSV constructor is replaced by one taking the
 * parsed (t, x, y) rows.
 */
module AoiTrajectory {
  import opened Common
  import opened Seqs
  import opened AoiRectangle
  import opened AoiGrid
  import opened Transitions
  import opened Arith

  /** One row of the (t, x, y) frame. */
  datatype Sample = Sample(t: real, x: real, y: real)

  /** One row of `aoi_df`. */
  datatype AoiRow = AoiRow(t: real, aoi: int)

  /** The arguments of `set_parameters`. */
  datatype Params = Params(
    xCoef: real, yCoef: real, tCoef: real, minTime: bool, tsInGroup: real, cellsX: nat, cellsY: nat)

  /** The defaults of `set_parameters`. */
  function DefaultParams(): (p: Params)
    ensures p.xCoef == 1280.0 && p.yCoef == 720.0 && p.tCoef == 0.001
    ensures p.minTime && p.tsInGroup == 1.0 && p.cellsX == 5 && p.cellsY == 5
  {
    Params(1280.0, 720.0, 0.001, true, 1.0, 5, 5)
  }

  function Times(d: seq<Sample>): (ts: seq<real>)
    ensures |ts| == |d| && forall k :: 0 <= k < |d| ==> ts[k] == d[k].t
  {
    seq(|d|, k requires 0 <= k < |d| => d[k].t)
  }

  /** The times after `prepare_time`: shifted by their minimum when asked, then scaled. */
  function PreparedTimes(d: seq<Sample>, minTime: bool, tCoef: real): (r: seq<Sample>)
    requires minTime ==> |d| > 0
    ensures |r| == |d|
  {
    var shift := if minTime then MinOf(Times(d)) else 0.0;
    seq(|d|, k requires 0 <= k < |d| => Sample((d[k].t - shift) * tCoef, d[k].x, d[k].y))
  }

  /**
   * With `min_time` the earliest sample lands on 0 and, for a non-negative
   * factor, no sample lies before it.
   */
  lemma PreparedTimesStartAtZero(d: seq<Sample>, tCoef: real)
    requires |d| > 0
    ensures exists k :: 0 <= k < |d| && PreparedTimes(d, true, tCoef)[k].t == 0.0
    ensures tCoef >= 0.0 ==> forall k :: 0 <= k < |d| ==> PreparedTimes(d, true, tCoef)[k].t >= 0.0
  {
    var m := MinOf(Times(d));
    var k :| 0 <= k < |d| && Times(d)[k] == m;
    assert PreparedTimes(d, true, tCoef)[k].t == 0.0;
    forall i | 0 <= i < |d| && tCoef >= 0.0 ensures PreparedTimes(d, true, tCoef)[i].t >= 0.0 {
      assert m <= Times(d)[i] == d[i].t;
      NonNegProduct(d[i].t - m, tCoef);
    }
  }

  /** Order and the coordinates are kept; time differences scale by the factor. */
  lemma PreparedTimesKeepDifferences(d: seq<Sample>, minTime: bool, tCoef: real, i: nat, j: nat)
    requires minTime ==> |d| > 0
    requires i < |d| && j < |d|
    ensures PreparedTimes(d, minTime, tCoef)[i].t - PreparedTimes(d, minTime, tCoef)[j].t == (d[i].t - d[j].t) * tCoef
    ensures PreparedTimes(d, minTime, tCoef)[i].x == d[i].x && PreparedTimes(d, minTime, tCoef)[i].y == d[i].y
  {
  }

  /** `prepare_coordinates`: x is scaled by x_coef and y by y_coef. */
  function ScaledCoordinates(d: seq<Sample>, xCoef: real, yCoef: real): (r: seq<Sample>)
    ensures |r| == |d|
    ensures forall k :: 0 <= k < |d| ==> r[k] == Sample(d[k].t, d[k].x * xCoef, d[k].y * yCoef)
  {
    seq(|d|, k requires 0 <= k < |d| => Sample(d[k].t, d[k].x * xCoef, d[k].y * yCoef))
  }

  /** Python's `int()` of a finite float: truncation toward zero. */
  function Trunc(r: real): (i: int)
    ensures r >= 0.0 ==> 0.0 <= i as real <= r < i as real + 1.0
    ensures r < 0.0 ==> i as real - 1.0 < r <= i as real <= 0.0
  {
    if r >= 0.0 then r.Floor else -((-r).Floor)
  }

  /**
   * The failures of `int(x)` over `t / ts_in_group` with a zero divisor:
   * the first sample is NaN (0 / 0, ValueError) or infinite (OverflowError).
   */
  function GroupCheck(d: seq<Sample>, ts: real): (o: Outcome)
    ensures o == Pass <==> ts != 0.0 || |d| == 0
    ensures o == Fail(ValueError) <==> ts == 0.0 && |d| > 0 && d[0].t == 0.0
  {
    if ts != 0.0 || |d| == 0 then Pass
    else if d[0].t == 0.0 then Fail(ValueError)
    else Fail(OverflowError)
  }

  function Buckets(d: seq<Sample>, ts: real): (b: seq<int>)
    requires ts != 0.0 || |d| == 0
    ensures |b| == |d| && forall k :: 0 <= k < |d| ==> b[k] == Trunc(d[k].t / ts)
  {
    seq(|d|, k requires 0 <= k < |d| => Trunc(d[k].t / ts))
  }

  /**
   * `groupby('t').agg('tail', 1)` over the bucketed frame: the last row of
   * every bucket, in the original row order, with t replaced by the bucket.
   */
  function LastPerBucket(d: seq<Sample>, b: seq<int>): (r: seq<Sample>)
    requires |b| == |d|
    ensures |r| <= |d|
    decreases |d|
  {
    if |d| == 0 then []
    else
      (if b[0] in b[1..] then [] else [Sample(b[0] as real, d[0].x, d[0].y)])
      + LastPerBucket(d[1..], b[1..])
  }

  lemma LastPerBucketSplit(d: seq<Sample>, b: seq<int>)
    requires |b| == |d| > 0
    ensures LastPerBucket(d, b) ==
      (if b[0] in b[1..] then [] else [Sample(b[0] as real, d[0].x, d[0].y)]) + LastPerBucket(d[1..], b[1..])
  {
  }

  /** Every row of the result carries a bucket of the input. */
  lemma {:induction false} LastPerBucketFromInput(d: seq<Sample>, b: seq<int>)
    requires |b| == |d|
    ensures forall i :: 0 <= i < |LastPerBucket(d, b)| ==> exists k :: 0 <= k < |b| && LastPerBucket(d, b)[i].t == b[k] as real
    decreases |d|
  {
    if |d| > 0 {
      var rest := LastPerBucket(d[1..], b[1..]);
      LastPerBucketFromInput(d[1..], b[1..]);
      var r := LastPerBucket(d, b);
      var head := if b[0] in b[1..] then [] else [Sample(b[0] as real, d[0].x, d[0].y)];
      LastPerBucketSplit(d, b);
      forall i | 0 <= i < |r| ensures exists k :: 0 <= k < |b| && r[i].t == b[k] as real {
        if i < |head| {
          assert r[i].t == b[0] as real;
        } else {
          assert r[i] == rest[i - |head|];
          var k :| 0 <= k < |b[1..]| && rest[i - |head|].t == b[1..][k] as real;
          assert b[k + 1] == b[1..][k];
        }
      }
    } else {
      assert LastPerBucket(d, b) == [];
    }
  }

  /** Every bucket of the input keeps a row. */
  lemma {:induction false} LastPerBucketCovers(d: seq<Sample>, b: seq<int>)
    requires |b| == |d|
    ensures forall k :: 0 <= k < |b| ==> exists i :: 0 <= i < |LastPerBucket(d, b)| && LastPerBucket(d, b)[i].t == b[k] as real
    decreases |d|
  {
    if |d| > 0 {
      var rest := LastPerBucket(d[1..], b[1..]);
      LastPerBucketCovers(d[1..], b[1..]);
      var r := LastPerBucket(d, b);
      var head := if b[0] in b[1..] then [] else [Sample(b[0] as real, d[0].x, d[0].y)];
      LastPerBucketSplit(d, b);
      forall k | 0 <= k < |b| ensures exists i :: 0 <= i < |r| && r[i].t == b[k] as real {
        if k == 0 && head != [] {
          assert r[0].t == b[0] as real;
        } else {
          var k' := if k == 0 then (var q :| 0 <= q < |b[1..]| && b[1..][q] == b[0]; q) else k - 1;
          assert b[1..][k'] == b[k];
          var i :| 0 <= i < |rest| && rest[i].t == b[1..][k'] as real;
          assert r[|head| + i] == rest[i];
        }
      }
    }
  }

  /** One row per bucket: the buckets of the result are pairwise distinct. */
  lemma {:induction false} LastPerBucketDistinct(d: seq<Sample>, b: seq<int>)
    requires |b| == |d|
    ensures forall i, j :: 0 <= i < j < |LastPerBucket(d, b)| ==> LastPerBucket(d, b)[i].t != LastPerBucket(d, b)[j].t
    decreases |d|
  {
    if |d| > 0 {
      var rest := LastPerBucket(d[1..], b[1..]);
      LastPerBucketDistinct(d[1..], b[1..]);
      LastPerBucketFromInput(d[1..], b[1..]);
      var head := if b[0] in b[1..] then [] else [Sample(b[0] as real, d[0].x, d[0].y)];
      LastPerBucketSplit(d, b);
      if head != [] {
        forall j | 0 <= j < |rest| ensures rest[j].t != b[0] as real {
          var k :| 0 <= k < |b[1..]| && rest[j].t == b[1..][k] as real;
          assert b[1..][k] in b[1..];
        }
      }
    } else {
      assert LastPerBucket(d, b) == [];
    }
  }

  /** Each kept row is the last sample of its bucket: no later sample falls in the same bucket. */
  lemma {:induction false} LastPerBucketIsLast(d: seq<Sample>, b: seq<int>, i: nat)
    requires |b| == |d| && i < |LastPerBucket(d, b)|
    ensures exists k ::
      0 <= k < |d| && LastPerBucket(d, b)[i] == Sample(b[k] as real, d[k].x, d[k].y) &&
      (forall k' :: k < k' < |d| ==> b[k'] != b[k])
    decreases |d|
  {
    var rest := LastPerBucket(d[1..], b[1..]);
    var head := if b[0] in b[1..] then [] else [Sample(b[0] as real, d[0].x, d[0].y)];
    assert LastPerBucket(d, b) == head + rest;
    if i < |head| {
      assert LastPerBucket(d, b)[i] == Sample(b[0] as real, d[0].x, d[0].y);
      forall k' | 0 < k' < |d| ensures b[k'] != b[0] {
        assert b[k'] == b[1..][k' - 1];
      }
    } else {
      LastPerBucketIsLast(d[1..], b[1..], i - |head|);
      var k :| 0 <= k < |d[1..]| && rest[i - |head|] == Sample(b[1..][k] as real, d[1..][k].x, d[1..][k].y)
        && forall k' :: k < k' < |d[1..]| ==> b[1..][k'] != b[1..][k];
      assert LastPerBucket(d, b)[i] == rest[i - |head|];
      forall k' | k + 1 < k' < |d| ensures b[k'] != b[k + 1] {
        assert b[1..][k' - 1] == b[k'];
      }
    }
  }

  /** The rectangles tried from id `from` on: the first whose `includes` holds, or 0. */
  function FirstFrom(g: map<int, Rectangle>, from: int, count: int, x: real, y: real): (a: int)
    requires forall id :: 1 <= id <= count ==> id in g
    requires from >= 1
    ensures a == 0 || (from <= a <= count && Includes(g[a], x, y, false))
    ensures a == 0 ==> forall id :: from <= id <= count ==> !Includes(g[id], x, y, false)
    ensures a != 0 ==> forall id :: from <= id < a ==> !Includes(g[id], x, y, false)
    decreases count - from
  {
    if from > count then 0
    else if Includes(g[from], x, y, false) then from
    else FirstFrom(g, from + 1, count, x, y)
  }

  /** `trajectory_to_aois` for one sample: the smallest id whose rectangle includes it, else 0. */
  function AoiOf(g: map<int, Rectangle>, count: int, x: real, y: real): int
    requires forall id :: 1 <= id <= count ==> id in g
  {
    FirstFrom(g, 1, count, x, y)
  }

  /** The inner loop of `trajectory_to_aois`: the rectangles in id order, stopping at the first that includes the sample. */
  method FindAoi(g: map<int, Rectangle>, count: int, x: real, y: real) returns (aoi: int)
    requires forall id :: 1 <= id <= count ==> id in g
    ensures aoi == AoiOf(g, count, x, y)
  {
    aoi := 0;
    var id := 1;
    while id <= count
      invariant 1 <= id && (count >= 0 ==> id <= count + 1)
      invariant FirstFrom(g, id, count, x, y) == AoiOf(g, count, x, y)
      decreases count + 1 - id
    {
      if Includes(g[id], x, y, false) {
        aoi := id;
        break;
      }
      id := id + 1;
    }
  }

  /** The loop over the rows of `data`: one AOI row per sample. */
  method MatchRows(g: map<int, Rectangle>, count: int, d: seq<Sample>) returns (rows: seq<AoiRow>)
    requires forall id :: 1 <= id <= count ==> id in g
    ensures rows == AoiRows(g, count, d)
  {
    rows := [];
    for k := 0 to |d|
      invariant rows == AoiRows(g, count, d[..k])
    {
      var aoi := FindAoi(g, count, d[k].x, d[k].y);
      rows := rows + [AoiRow(d[k].t, aoi)];
      assert d[..k + 1][..k] == d[..k];
    }
    assert d[..|d|] == d;
  }

  /** One AOI row per sample, with the time copied. */
  function AoiRows(g: map<int, Rectangle>, count: int, d: seq<Sample>): (r: seq<AoiRow>)
    requires forall id :: 1 <= id <= count ==> id in g
    ensures |r| == |d|
    ensures forall k :: 0 <= k < |d| ==> r[k] == AoiRow(d[k].t, AoiOf(g, count, d[k].x, d[k].y))
  {
    seq(|d|, k requires 0 <= k < |d| => AoiRow(d[k].t, AoiOf(g, count, d[k].x, d[k].y)))
  }

  function Ids(rows: seq<AoiRow>): (ids: seq<int>)
    ensures |ids| == |rows| && forall k :: 0 <= k < |rows| ==> ids[k] == rows[k].aoi
  {
    seq(|rows|, k requires 0 <= k < |rows| => rows[k].aoi)
  }

  /** The number of rectangles in the grid: the cells and the catch-all. */
  function AoiCount(p: Params): nat {
    p.cellsX * p.cellsY + 1
  }

  /** The dict `get_aoi_list` builds for these parameters. */
  function GridOf(p: Params): (g: map<int, Rectangle>)
    requires p.cellsX > 0 && p.cellsY > 0
    ensures forall id :: 1 <= id <= AoiCount(p) ==> id in g
  {
    GridIds(p.xCoef, p.yCoef, p.cellsX, p.cellsY);
    Grid(p.xCoef, p.yCoef, p.cellsX, p.cellsY)
  }

  /** The catch-all guarantees every (finite) sample an id in 1 .. cells + 1. */
  lemma {:induction false} AoiInRange(p: Params, x: real, y: real)
    requires p.cellsX > 0 && p.cellsY > 0
    ensures 1 <= AoiOf(GridOf(p), AoiCount(p), x, y) <= AoiCount(p)
  {
    var g := GridOf(p);
    GridCatchAll(p.xCoef, p.yCoef, p.cellsX, p.cellsY);
    assert Includes(g[AoiCount(p)], x, y, false);
  }

  /** Because `includes` tests x twice, the AOI of a sample never depends on its y. */
  lemma {:induction false} AoiIgnoresY(g: map<int, Rectangle>, from: int, count: int, x: real, y: real, y': real)
    requires forall id :: 1 <= id <= count ==> id in g
    requires from >= 1
    ensures FirstFrom(g, from, count, x, y) == FirstFrom(g, from, count, x, y')
    decreases count - from
  {
    if from <= count {
      IncludesIgnoresY(g[from], x, y, y', false);
      AoiIgnoresY(g, from + 1, count, x, y, y');
    }
  }

  /**
   * With positive coefficients a sample at x = 0 lies on the left border of
   * every cell, which the strict test excludes: it is assigned the catch-all.
   */
  lemma {:induction false} OriginGoesToCatchAll(p: Params, y: real)
    requires p.cellsX > 0 && p.cellsY > 0 && p.xCoef > 0.0 && p.yCoef > 0.0
    ensures AoiOf(GridOf(p), AoiCount(p), 0.0, y) == AoiCount(p)
  {
    var g := GridOf(p);
    forall id | 1 <= id < AoiCount(p) ensures !Includes(g[id], 0.0, y, false) {
      FiniteCellExcludesOrigin(p.xCoef, p.yCoef, p.cellsX, p.cellsY, id, y);
    }
    GridCatchAll(p.xCoef, p.yCoef, p.cellsX, p.cellsY);
    SkipToLast(g, 1, AoiCount(p), 0.0, y);
  }

  lemma {:induction false} SkipToLast(g: map<int, Rectangle>, from: int, count: int, x: real, y: real)
    requires forall id :: 1 <= id <= count ==> id in g
    requires 1 <= from <= count
    requires forall id :: from <= id < count ==> !Includes(g[id], x, y, false)
    requires Includes(g[count], x, y, false)
    ensures FirstFrom(g, from, count, x, y) == count
    decreases count - from
  {
    if from < count {
      SkipToLast(g, from + 1, count, x, y);
    }
  }

  /** The transition matrix of an AOI table under the given parameters. */
  function TransitionsOf(rows: seq<AoiRow>, p: Params, emptyAoi: bool, toProbabilities: bool): Result<Matrix> {
    var cells := p.cellsX * p.cellsY;
    TransitionMatrixOf(AoiIndices(Ids(rows), cells, emptyAoi), MatrixSize(cells, emptyAoi), toProbabilities)
  }

  /** AOI tables built from the grid never make the transition count fail. */
  lemma {:induction false} GridTransitionsSucceed(p: Params, d: seq<Sample>, emptyAoi: bool, toProbabilities: bool)
    requires p.cellsX > 0 && p.cellsY > 0
    ensures TransitionsOf(AoiRows(GridOf(p), AoiCount(p), d), p, emptyAoi, toProbabilities).Success?
  {
    var g := GridOf(p);
    var rows := AoiRows(g, AoiCount(p), d);
    forall k | 0 <= k < |rows| ensures 1 <= Ids(rows)[k] <= p.cellsX * p.cellsY + 1 {
      AoiInRange(p, d[k].x, d[k].y);
    }
    GridIdsIndexable(Ids(rows), p.cellsX * p.cellsY, emptyAoi);
  }

  /** `Trajectory`: the raw rows, the working copy and the results of the stages. */
  class Trajectory {
    /**
     * Made by `PreparedTrajectory(data)`, which never runs `Trajectory.__init__`:
     * such an object has no `raw_data`, no parameter attributes until
     * `set_parameters` assigns them (`params == None` means they are absent),
     * and no `aoi_df` until `trajectory_to_aois` assigns one (`aoiDf == None`
     * means it is absent). On other objects `None` stands for Python's None.
     */
    const prepared: bool
    /** `self.raw_data`; absent, and here empty, when `prepared`. */
    const rawData: seq<Sample>
    /** `self.data`, absent until `set_parameters` runs. */
    var data: Option<seq<Sample>>
    var params: Option<Params>
    var groupedData: Option<seq<Sample>>
    var aois: map<int, Rectangle>
    var aoiDf: Option<seq<AoiRow>>
    var transitionMatrix: Option<Matrix>

    /** The rows as `pd.read_csv` and the column selection would produce them. */
    constructor (raw: seq<Sample>)
      ensures !prepared && rawData == raw && data == None && params == None
      ensures groupedData == None && aoiDf == None && transitionMatrix == None
    {
      prepared := false;
      rawData := raw;
      data := None;
      params := None;
      groupedData := None;
      aois := map[];
      aoiDf := None;
      transitionMatrix := None;
    }

    /**
     * `PreparedTrajectory(data)`: only `grouped_data` and `data` are assigned;
     * the parameters, `raw_data` and `aoi_df` do not exist.
     */
    constructor FromData(d: seq<Sample>)
      ensures prepared && data == Some(d) && params == None && groupedData == None && aoiDf == None
    {
      prepared := true;
      rawData := [];
      data := Some(d);
      params := None;
      groupedData := None;
      aois := map[];
      aoiDf := None;
      transitionMatrix := None;
    }

    /**
     * `set_parameters`: the parameters are assigned first, then `data` becomes
     * a copy of `raw_data`, which a prepared object lacks (AttributeError).
     */
    method SetParameters(p: Params) returns (o: Outcome)
      modifies this`params, this`data
      ensures params == Some(p)
      ensures o == Pass <==> !prepared
      ensures o == Pass ==> data == Some(rawData)
      ensures o != Pass ==> o == Fail(AttributeError) && data == old(data)
    {
      params := Some(p);
      if prepared {
        return Fail(AttributeError);
      }
      data := Some(rawData);
      o := Pass;
    }

    /** `prepare_time`; `min` of an empty column raises ValueError. */
    method PrepareTime() returns (o: Outcome)
      modifies this`data
      ensures params.None? || old(data).None? ==> o == Fail(AttributeError) && data == old(data)
      ensures params.Some? && old(data).Some? && params.value.minTime && |old(data).value| == 0 ==>
        o == Fail(ValueError) && data == old(data)
      ensures o == Pass <==> params.Some? && old(data).Some? && (params.value.minTime ==> |old(data).value| > 0)
      ensures o == Pass ==> data == Some(PreparedTimes(old(data).value, params.value.minTime, params.value.tCoef))
    {
      if params.None? || data.None? {
        return Fail(AttributeError);
      }
      var p, d := params.value, data.value;
      if p.minTime && |d| == 0 {
        return Fail(ValueError);
      }
      data := Some(PreparedTimes(d, p.minTime, p.tCoef));
      o := Pass;
    }

    method PrepareCoordinates() returns (o: Outcome)
      modifies this`data
      ensures o == Pass <==> params.Some? && old(data).Some?
      ensures o == Pass ==> data == Some(ScaledCoordinates(old(data).value, params.value.xCoef, params.value.yCoef))
      ensures o != Pass ==> o == Fail(AttributeError) && data == old(data)
    {
      if params.None? || data.None? {
        return Fail(AttributeError);
      }
      data := Some(ScaledCoordinates(data.value, params.value.xCoef, params.value.yCoef));
      o := Pass;
    }

    /** `group_by_time`: fills `grouped_data` and leaves `data` as it is. */
    method GroupByTime() returns (o: Outcome)
      modifies this`groupedData
      ensures params.None? || data.None? ==> o == Fail(AttributeError)
      ensures params.Some? && data.Some? ==> o == GroupCheck(data.value, params.value.tsInGroup)
      ensures o == Pass ==> groupedData == Some(LastPerBucket(data.value, Buckets(data.value, params.value.tsInGroup)))
      ensures o != Pass ==> groupedData == old(groupedData)
    {
      if params.None? || data.None? {
        return Fail(AttributeError);
      }
      var d, ts := data.value, params.value.tsInGroup;
      o := GroupCheck(d, ts);
      if o == Pass {
        groupedData := Some(LastPerBucket(d, Buckets(d, ts)));
      }
    }

    /**
     * `trajectory_to_aois`: builds the grid, then for each row of `data` tries
     * the rectangles in id order and stops at the first that includes it.
     * Without parameters `get_aoi_list` divides None (TypeError), or, on a
     * prepared object, reads a missing `x_coef` (AttributeError).
     */
    method TrajectoryToAois() returns (o: Outcome)
      modifies this`aois, this`aoiDf
      ensures params.None? ==> o == Fail(if prepared then AttributeError else TypeError)
      ensures params.Some? ==> (o == Pass <==>
        GridCheck(params.value.xCoef, params.value.yCoef, params.value.cellsX, params.value.cellsY) == Pass && data.Some?)
      ensures o == Pass ==>
        var p := params.value;
        aois == GridOf(p) &&
        aoiDf == Some(AoiRows(aois, AoiCount(p), data.value))
      ensures params.Some? && data.None? && GridCheck(params.value.xCoef, params.value.yCoef, params.value.cellsX, params.value.cellsY) == Pass ==>
        o == Fail(AttributeError)
      ensures params.Some? && GridCheck(params.value.xCoef, params.value.yCoef, params.value.cellsX, params.value.cellsY) != Pass ==>
        o == GridCheck(params.value.xCoef, params.value.yCoef, params.value.cellsX, params.value.cellsY)
      ensures o != Pass ==> aoiDf == old(aoiDf)
    {
      if params.None? {
        return Fail(if prepared then AttributeError else TypeError);
      }
      var p := params.value;
      o := GridCheck(p.xCoef, p.yCoef, p.cellsX, p.cellsY);
      if o != Pass {
        return;
      }
      var g := BuildAoiList(p.xCoef, p.yCoef, p.cellsX, p.cellsY);
      assert g == GridOf(p);
      aois := g;
      if data.None? {
        return Fail(AttributeError);
      }
      var rows := MatchRows(g, AoiCount(p), data.value);
      aoiDf := Some(rows);
    }

    /**
     * `get_transition_matrix`: AOIs are computed only when `aoi_df` is still
     * None; the counts come from `aoi_df`, never from `grouped_data`. A
     * prepared object that never mapped its AOIs has no `aoi_df` to test
     * (AttributeError).
     */
    method GetTransitionMatrix(emptyAoi: bool, toProbabilities: bool) returns (o: Outcome)
      modifies this`aois, this`aoiDf, this`transitionMatrix
      ensures old(aoiDf).Some? ==> aoiDf == old(aoiDf) && aois == old(aois)
      ensures old(aoiDf).None? && prepared ==> o == Fail(AttributeError) && aoiDf == None
      ensures o == Pass ==>
        params.Some? && aoiDf.Some? &&
        TransitionsOf(aoiDf.value, params.value, emptyAoi, toProbabilities).Success? &&
        transitionMatrix == Some(TransitionsOf(aoiDf.value, params.value, emptyAoi, toProbabilities).value)
      ensures old(aoiDf).Some? && params.Some? ==>
        o == OutcomeOf(TransitionsOf(old(aoiDf).value, params.value, emptyAoi, toProbabilities))
      ensures (old(aoiDf).None? && !prepared && params.Some? && data.Some? &&
               GridCheck(params.value.xCoef, params.value.yCoef, params.value.cellsX, params.value.cellsY) == Pass) ==>
        var p := params.value;
        aoiDf == Some(AoiRows(GridOf(p), AoiCount(p), data.value)) &&
        o == OutcomeOf(TransitionsOf(aoiDf.value, p, emptyAoi, toProbabilities))
      ensures (old(aoiDf).None? && !prepared && params.Some? &&
               GridCheck(params.value.xCoef, params.value.yCoef, params.value.cellsX, params.value.cellsY) != Pass) ==>
        o == GridCheck(params.value.xCoef, params.value.yCoef, params.value.cellsX, params.value.cellsY)
      ensures o != Pass ==> transitionMatrix == old(transitionMatrix)
    {
      if aoiDf.None? {
        if prepared {
          return Fail(AttributeError);
        }
        o := TrajectoryToAois();
        if o != Pass {
          return;
        }
      }
      if params.None? {
        return Fail(if prepared then AttributeError else TypeError);
      }
      var p := params.value;
      var cells := p.cellsX * p.cellsY;
      var r := BuildTransitionMatrix(AoiIndices(Ids(aoiDf.value), cells, emptyAoi), MatrixSize(cells, emptyAoi), toProbabilities);
      if r.Failure? {
        return Fail(r.error);
      }
      transitionMatrix := Some(r.value);
      o := Pass;
    }
  }
}
