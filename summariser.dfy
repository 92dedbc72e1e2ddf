/**
 * The per-event statistics of modules/python/eyevents/summariser.py. A
 * group is the list of rows of one event (one value of `group`), in frame
 * order; `sqrt` is a parameter, and the hull used by `area` is the one
 * `graham_scan` builds.
 */
module Summariser {
  import opened Common
  import opened Seqs
  import opened Floats
  import opened EyeventsUtils
  import opened Arith

  /** A row of the labelled frame: angular coordinates and velocity, label and event group. */
  datatype EventRow = EventRow(time: real, xAng: real, yAng: real, velAng: real, event: string, group: int)

  function Times(g: seq<EventRow>): (s: seq<real>)
    ensures |s| == |g| && forall k :: 0 <= k < |g| ==> s[k] == g[k].time
  {
    seq(|g|, k requires 0 <= k < |g| => g[k].time)
  }

  function XAngs(g: seq<EventRow>): (s: seq<real>)
    ensures |s| == |g| && forall k :: 0 <= k < |g| ==> s[k] == g[k].xAng
  {
    seq(|g|, k requires 0 <= k < |g| => g[k].xAng)
  }

  function YAngs(g: seq<EventRow>): (s: seq<real>)
    ensures |s| == |g| && forall k :: 0 <= k < |g| ==> s[k] == g[k].yAng
  {
    seq(|g|, k requires 0 <= k < |g| => g[k].yAng)
  }

  function Velocities(g: seq<EventRow>): (s: seq<real>)
    ensures |s| == |g| && forall k :: 0 <= k < |g| ==> s[k] == g[k].velAng
  {
    seq(|g|, k requires 0 <= k < |g| => g[k].velAng)
  }

  function Abs(v: real): (r: real)
    ensures r >= 0.0 && (r == v || r == -v)
  {
    if v < 0.0 then -v else v
  }

  /** `nsamples`: the number of rows of the event. */
  function Nsamples(g: seq<EventRow>): nat {
    |g|
  }

  /** `duration`: `max(time) - min(time)`; `max` of no rows raises ValueError. */
  function Duration(g: seq<EventRow>): (r: Result<real>)
    ensures r.Success? <==> |g| > 0
    ensures r.Failure? ==> r.error == ValueError
    ensures r.Success? ==> r.value >= 0.0
    ensures r.Success? ==> forall i, j :: 0 <= i < |g| && 0 <= j < |g| ==> g[i].time - g[j].time <= r.value
    ensures r.Success? ==> exists i, j :: 0 <= i < |g| && 0 <= j < |g| && r.value == g[i].time - g[j].time
  {
    if |g| == 0 then Failure(ValueError)
    else
      var ts := Times(g);
      var hi, lo := MaxOf(ts), MinOf(ts);
      assert exists i :: 0 <= i < |g| && ts[i] == hi;
      assert exists j :: 0 <= j < |g| && ts[j] == lo;
      Success(hi - lo)
  }

  /** A single-sample event lasts 0. */
  lemma DurationOfSingleSample(r: EventRow)
    ensures Duration([r]) == Success(0.0)
  {
  }

  /**
   * `amplitude`: the absolute first-to-last differences of `xAng` and
   * `yAng` and the length they span. With fewer than 2 rows the source
   * unpacks a scalar NaN into three names, which raises TypeError.
   */
  function Amplitude(sqrt: real -> real, g: seq<EventRow>): (r: Result<(real, real, real)>)
    ensures r.Success? <==> |g| >= 2
    ensures r.Failure? ==> r.error == TypeError
    ensures r.Success? ==> var (ax, ay, _) := r.value;
      var dx, dy := g[0].xAng - g[|g| - 1].xAng, g[0].yAng - g[|g| - 1].yAng;
      ax >= 0.0 && ay >= 0.0 && (ax == dx || ax == -dx) && (ay == dy || ay == -dy)
  {
    if |g| < 2 then Failure(TypeError)
    else
      var ax := Abs(g[0].xAng - g[|g| - 1].xAng);
      var ay := Abs(g[0].yAng - g[|g| - 1].yAng);
      Success((ax, ay, sqrt(Square(ax) + Square(ay))))
  }

  /** The lengths of the segments between consecutive rows. */
  function Segments(sqrt: real -> real, g: seq<EventRow>): (s: seq<real>)
    requires |g| >= 2
    ensures |s| == |g| - 1
  {
    seq(|g| - 1, k requires 0 <= k < |g| - 1 =>
      sqrt(Square(Abs(g[k + 1].xAng - g[k].xAng)) + Square(Abs(g[k + 1].yAng - g[k].yAng))))
  }

  /** `pathLength`: the sum of the segment lengths; NaN with fewer than 2 rows. */
  function PathLength(sqrt: real -> real, g: seq<EventRow>): (r: Float)
    ensures r == NaN <==> |g| < 2
    ensures r != NaN ==> r.Num?
  {
    if |g| < 2 then NaN else Num(Sum(Segments(sqrt, g)))
  }

  /** With a non-negative square root the path length is non-negative. */
  lemma PathLengthNonNegative(sqrt: real -> real, g: seq<EventRow>)
    requires forall v :: sqrt(v) >= 0.0
    requires |g| >= 2
    ensures PathLength(sqrt, g).v >= 0.0
  {
    var s := Segments(sqrt, g);
    forall k | 0 <= k < |s| ensures 0.0 <= s[k] {
      assert s[k] == sqrt(Square(Abs(g[k + 1].xAng - g[k].xAng)) + Square(Abs(g[k + 1].yAng - g[k].yAng)));
    }
    SumNonNegative(s);
  }

  /**
   * `curvature`: path length over amplitude, NaN when either is 0. It
   * calls `amplitude` first, so it raises for fewer than 2 rows.
   */
  function Curvature(sqrt: real -> real, g: seq<EventRow>): (r: Result<Float>)
    ensures r.Success? <==> |g| >= 2
    ensures r.Failure? ==> r.error == TypeError
    ensures r.Success? ==> var amp, plen := Amplitude(sqrt, g).value.2, PathLength(sqrt, g).v;
      (r.value == NaN <==> amp == 0.0 || plen == 0.0) &&
      (r.value != NaN ==> r.value.Num? && r.value.v * amp == plen)
  {
    var (_, _, amp) :- Amplitude(sqrt, g);
    var plen := PathLength(sqrt, g).v;
    if amp == 0.0 || plen == 0.0 then Success(NaN)
    else
      DivTimesDivisor(plen, amp);
      Success(Num(plen / amp))
  }

  /** `peakVelocity`: the largest `velAng`; pandas gives NaN for no rows. */
  function PeakVelocity(g: seq<EventRow>): (r: Float)
    ensures r.Num? <==> |g| > 0
    ensures r.Num? ==> forall k :: 0 <= k < |g| ==> g[k].velAng <= r.v
    ensures r.Num? ==> exists k :: 0 <= k < |g| && g[k].velAng == r.v
    ensures !r.Num? ==> r == NaN
  {
    if |g| == 0 then NaN
    else
      var m := MaxOf(Velocities(g));
      assert exists k :: 0 <= k < |g| && Velocities(g)[k] == m;
      Num(m)
  }

  /** `meanVelocity`: the mean `velAng`, between the smallest and the largest. */
  function MeanVelocity(g: seq<EventRow>): (r: Float)
    ensures r.Num? <==> |g| > 0
    ensures r.Num? ==> MinOf(Velocities(g)) <= r.v <= MaxOf(Velocities(g))
    ensures !r.Num? ==> r == NaN
  {
    if |g| == 0 then NaN else Num(Mean(Velocities(g)))
  }

  /** `massCenterXY`: the means of `xAng` and `yAng`, inside the bounding box. */
  function MassCenterXY(g: seq<EventRow>): (r: (Float, Float))
    ensures r.0.Num? <==> |g| > 0
    ensures r.1.Num? <==> |g| > 0
    ensures |g| > 0 ==> MinOf(XAngs(g)) <= r.0.v <= MaxOf(XAngs(g))
    ensures |g| > 0 ==> MinOf(YAngs(g)) <= r.1.v <= MaxOf(YAngs(g))
    ensures |g| == 0 ==> r == (NaN, NaN)
  {
    if |g| == 0 then (NaN, NaN) else (Num(Mean(XAngs(g))), Num(Mean(YAngs(g))))
  }

  datatype Orientation = Vertical | Horisontal | Diagonal

  /** The classification of the first-to-last slope `d` (numpy division). */
  function Classify(d: Float): Orientation {
    if AtLeast(d, 2.0) then Vertical
    else if AtMost(d, 0.5) then Horisontal
    else Diagonal
  }

  /** `orientation`; `iloc[0]` on no rows raises IndexError. */
  function OrientationOf(g: seq<EventRow>): (r: Result<Orientation>)
    ensures r.Success? <==> |g| > 0
    ensures r.Failure? ==> r.error == IndexError
  {
    if |g| == 0 then Failure(IndexError)
    else
      var x0, x1 := g[0].xAng, g[|g| - 1].xAng;
      var y0, y1 := g[0].yAng, g[|g| - 1].yAng;
      Success(Classify(Div(y1 - y0, x1 - x0)))
  }

  /** Slopes of at least 2 are vertical, of at most 0.5 (all negative ones too) horisontal. */
  lemma OrientationBySlope(g: seq<EventRow>)
    requires |g| > 0 && g[0].xAng != g[|g| - 1].xAng
    ensures var d := (g[|g| - 1].yAng - g[0].yAng) / (g[|g| - 1].xAng - g[0].xAng);
      OrientationOf(g) == Success(if d >= 2.0 then Vertical else if d <= 0.5 then Horisontal else Diagonal)
  {
  }

  /** A vertical move divides by 0: +inf is vertical, -inf horisontal, NaN diagonal. */
  lemma OrientationOfVerticalMove(g: seq<EventRow>)
    requires |g| > 0 && g[0].xAng == g[|g| - 1].xAng
    ensures var dy := g[|g| - 1].yAng - g[0].yAng;
      OrientationOf(g) == Success(if dy > 0.0 then Vertical else if dy < 0.0 then Horisontal else Diagonal)
  {
  }

  // ------------------------------------------------------------------ area

  function Points(g: seq<EventRow>): (pts: seq<Point>)
    ensures |pts| == |g| && forall k :: 0 <= k < |g| ==> pts[k] == Point(g[k].xAng, g[k].yAng)
  {
    seq(|g|, k requires 0 <= k < |g| => Point(g[k].xAng, g[k].yAng))
  }

  /** The triangles fanned from `pts[0]`: one per `i` in `range(1, len(pts) - 1)`. */
  function FanTerms(sqrt: real -> real, pts: seq<Point>): (t: seq<real>)
    ensures |pts| >= 2 ==> |t| == |pts| - 2
    ensures |pts| < 2 ==> |t| == 0
    ensures forall k :: 0 <= k < |t| ==> t[k] == Geron(sqrt, pts[0], pts[k + 1], pts[k + 2])
  {
    if |pts| < 3 then []
    else seq(|pts| - 2, k requires 0 <= k < |pts| - 2 => Geron(sqrt, pts[0], pts[k + 1], pts[k + 2]))
  }

  /**
   * The three cases of `area`: NaN, the fan over the raw points, and the fan
   * over the hull `graham_scan` returns for the points.
   */
  predicate IsAreaOf(sqrt: real -> real, atan2: (real, real) -> real, pivot: seq<Point> -> nat, g: seq<EventRow>, a: Float) {
    if |g| < 3 then a == NaN
    else if |g| < 5 then a == Num(Sum(FanTerms(sqrt, Points(g))))
    else a == Num(Sum(FanTerms(sqrt, GrahamHull(Points(g), atan2, pivot))))
  }

  /** The accumulation loop of `area` over the fan of `pts`. */
  method FanArea(sqrt: real -> real, pts: seq<Point>) returns (area: real)
    requires |pts| >= 2
    ensures area == Sum(FanTerms(sqrt, pts))
  {
    area := 0.0;
    ghost var terms := FanTerms(sqrt, pts);
    for i := 1 to |pts| - 1
      invariant area == Sum(terms[..i - 1])
    {
      assert terms[..i] == terms[..i - 1] + [terms[i - 1]];
      SumAppend(terms[..i - 1], terms[i - 1]);
      area := area + Geron(sqrt, pts[0], pts[i], pts[i + 1]);
    }
    assert terms[..|pts| - 2] == terms;
  }

  /**
   * `area`: NaN below 3 rows, the raw points for 3 or 4 rows and the hull
   * of the points from 5 rows on.
   */
  method Area(sqrt: real -> real, atan2: (real, real) -> real, pivot: seq<Point> -> nat, g: seq<EventRow>)
    returns (a: Float)
    ensures IsAreaOf(sqrt, atan2, pivot, g, a)
  {
    if |g| < 3 {
      return NaN;
    }
    var pts: seq<Point>;
    if |g| < 5 {
      pts := Points(g);
    } else {
      var hull := GrahamScan(Points(g), atan2, pivot);
      pts := hull.value;
    }
    var area := FanArea(sqrt, pts);
    a := Num(area);
  }

  // -------------------------------------------------------------- grouping

  /** `df[df.event == mark]`. */
  function Marked(rows: seq<EventRow>, mark: string): (r: seq<EventRow>)
    ensures forall k :: 0 <= k < |r| ==> r[k].event == mark && r[k] in rows
    ensures forall k :: 0 <= k < |rows| && rows[k].event == mark ==> rows[k] in r
  {
    Filter(rows, (e: EventRow) => e.event == mark)
  }

  function Groups(rows: seq<EventRow>): seq<int> {
    seq(|rows|, k requires 0 <= k < |rows| => rows[k].group)
  }

  /** The group keys, in the sorted order of `groupby`. */
  function GroupKeys(rows: seq<EventRow>): (ks: seq<int>)
    ensures forall i, j :: 0 <= i < j < |ks| ==> ks[i] < ks[j]
    ensures forall k :: k in ks <==> exists i :: 0 <= i < |rows| && rows[i].group == k
  {
    var gs := Groups(rows);
    var ks := SortedDistinct(gs);
    assert forall k :: k in gs <==> exists i :: 0 <= i < |rows| && rows[i].group == k by {
      forall k ensures k in gs <==> exists i :: 0 <= i < |rows| && rows[i].group == k {
        if k in gs {
          var i :| 0 <= i < |gs| && gs[i] == k;
          assert rows[i].group == k;
        }
        if exists i :: 0 <= i < |rows| && rows[i].group == k {
          var i :| 0 <= i < |rows| && rows[i].group == k;
          assert gs[i] == k;
        }
      }
    }
    ks
  }

  /** The rows of one group, in frame order. */
  function GroupRows(rows: seq<EventRow>, key: int): (g: seq<EventRow>)
    ensures forall k :: 0 <= k < |g| ==> g[k].group == key && g[k] in rows
    ensures forall k :: 0 <= k < |rows| && rows[k].group == key ==> rows[k] in g
  {
    Filter(rows, (e: EventRow) => e.group == key)
  }

  /** Every group has a row. */
  lemma GroupsAreNonEmpty(rows: seq<EventRow>, key: int)
    requires key in GroupKeys(rows)
    ensures |GroupRows(rows, key)| > 0
  {
    var i :| 0 <= i < |rows| && rows[i].group == key;
    assert rows[i] in GroupRows(rows, key);
  }

  /** `groupby('group')`: the keys in order, each with its rows. */
  function Grouped(rows: seq<EventRow>): (gs: seq<(int, seq<EventRow>)>)
    ensures |gs| == |GroupKeys(rows)|
    ensures forall i :: 0 <= i < |gs| ==> gs[i] == (GroupKeys(rows)[i], GroupRows(rows, GroupKeys(rows)[i]))
    ensures forall i :: 0 <= i < |gs| ==> |gs[i].1| > 0
  {
    var keys := GroupKeys(rows);
    forall i | 0 <= i < |keys| ensures |GroupRows(rows, keys[i])| > 0 {
      GroupsAreNonEmpty(rows, keys[i]);
    }
    seq(|keys|, i requires 0 <= i < |keys| => (keys[i], GroupRows(rows, keys[i])))
  }

  /** The groups come in increasing key order and each holds exactly the rows of its key. */
  lemma GroupedPartitions(rows: seq<EventRow>)
    ensures var gs := Grouped(rows);
      (forall i, j :: 0 <= i < j < |gs| ==> gs[i].0 < gs[j].0) &&
      (forall k :: 0 <= k < |rows| ==> exists i :: 0 <= i < |gs| && gs[i].0 == rows[k].group && rows[k] in gs[i].1) &&
      (forall i, e :: 0 <= i < |gs| && e in gs[i].1 ==> e in rows && e.group == gs[i].0)
  {
    var gs := Grouped(rows);
    var keys := GroupKeys(rows);
    forall k | 0 <= k < |rows|
      ensures exists i :: 0 <= i < |gs| && gs[i].0 == rows[k].group && rows[k] in gs[i].1
    {
      assert rows[k].group in keys;
      var i :| 0 <= i < |keys| && keys[i] == rows[k].group;
      assert rows[k] in GroupRows(rows, keys[i]);
      assert gs[i].0 == rows[k].group && rows[k] in gs[i].1;
    }
    forall i, e | 0 <= i < |gs| && e in gs[i].1 ensures e in rows && e.group == gs[i].0 {
      var g := GroupRows(rows, keys[i]);
      var j :| 0 <= j < |g| && g[j] == e;
    }
  }

  datatype SaccadeStats = SaccadeStats(
    group: int, nsamples: nat, duration: real,
    amplitudeX: real, amplitudeY: real, amplitude: real,
    pathLength: Float, curvature: Float, peakVelocity: Float, meanVelocity: Float,
    centerX: Float, centerY: Float, orientation: Orientation)

  /**
   * The first error the statistics of one group raise, in the order
   * `saccade_params` computes them: `duration` raises ValueError with no
   * rows, `amplitude` TypeError with one.
   */
  function SaccadeCheck(g: seq<EventRow>): Outcome {
    if |g| == 0 then Fail(ValueError)
    else if |g| < 2 then Fail(TypeError)
    else Pass
  }

  /** The check agrees with the statistics themselves: it passes exactly when every one succeeds, and otherwise names the first error. */
  lemma SaccadeCheckIsFirstError(sqrt: real -> real, g: seq<EventRow>)
    ensures SaccadeCheck(g) == Pass <==>
      Duration(g).Success? && Amplitude(sqrt, g).Success? && Curvature(sqrt, g).Success? && OrientationOf(g).Success?
    ensures Duration(g).Failure? ==> SaccadeCheck(g) == Fail(Duration(g).error)
    ensures Duration(g).Success? && Amplitude(sqrt, g).Failure? ==> SaccadeCheck(g) == Fail(Amplitude(sqrt, g).error)
  {
  }

  /** The row of `saccade_params` for one group of at least 2 rows. */
  function SaccadeStatsOf(sqrt: real -> real, key: int, g: seq<EventRow>): (r: SaccadeStats)
    requires |g| >= 2
    ensures r.group == key && r.nsamples == |g|
  {
    var (ax, ay, amp) := Amplitude(sqrt, g).value;
    var (cx, cy) := MassCenterXY(g);
    SaccadeStats(key, Nsamples(g), Duration(g).value, ax, ay, amp, PathLength(sqrt, g),
      Curvature(sqrt, g).value, PeakVelocity(g), MeanVelocity(g), cx, cy, OrientationOf(g).value)
  }

  /** Each field of the row is the value of its statistic. */
  lemma SaccadeStatsFields(sqrt: real -> real, key: int, g: seq<EventRow>)
    requires |g| >= 2
    ensures var r := SaccadeStatsOf(sqrt, key, g);
      Duration(g) == Success(r.duration) && Curvature(sqrt, g) == Success(r.curvature) &&
      Amplitude(sqrt, g) == Success((r.amplitudeX, r.amplitudeY, r.amplitude)) &&
      OrientationOf(g) == Success(r.orientation) && r.pathLength == PathLength(sqrt, g) &&
      r.peakVelocity == PeakVelocity(g) && r.meanVelocity == MeanVelocity(g) &&
      MassCenterXY(g) == (r.centerX, r.centerY)
  {
  }

  /**
   * `saccade_params(df, mark)`: one row per group of the rows labelled
   * `mark`, in key order. The statistics are applied group by group and
   * the first group that raises decides; groups are never empty, so that
   * is an event of a single sample and `amplitude` raising TypeError.
   */
  function SaccadeParams(sqrt: real -> real, rows: seq<EventRow>, mark: string): (r: Result<seq<SaccadeStats>>)
    ensures var gs := Grouped(Marked(rows, mark));
      (r.Success? <==> forall i :: 0 <= i < |gs| ==> |gs[i].1| >= 2) &&
      (r.Failure? ==> r.error == TypeError) &&
      (r.Success? ==> |r.value| == |gs|)
  {
    var gs := Grouped(Marked(rows, mark));
    if forall i :: 0 <= i < |gs| ==> SaccadeCheck(gs[i].1) == Pass then
      Success(seq(|gs|, i requires 0 <= i < |gs| && |gs[i].1| >= 2 => SaccadeStatsOf(sqrt, gs[i].0, gs[i].1)))
    else
      var i :| 0 <= i < |gs| && SaccadeCheck(gs[i].1) != Pass;
      Failure(SaccadeCheck(gs[i].1).error)
  }

  /** Row `i` of `saccade_params` is the statistics of group `i` of the marked rows: its key, its size and its values. */
  lemma SaccadeParamsRow(sqrt: real -> real, rows: seq<EventRow>, mark: string, i: nat)
    requires SaccadeParams(sqrt, rows, mark).Success?
    requires i < |Grouped(Marked(rows, mark))|
    ensures var gs := Grouped(Marked(rows, mark)); var out := SaccadeParams(sqrt, rows, mark).value;
      |gs[i].1| >= 2 && SaccadeStatsOf(sqrt, gs[i].0, gs[i].1) == out[i] &&
      out[i].group == gs[i].0 && out[i].nsamples == |gs[i].1|
  {
  }

  /** The rows a group of `saccade_params` is computed from are all labelled `mark`. */
  lemma MarkedGroupsCarryTheMark(rows: seq<EventRow>, mark: string)
    ensures var gs := Grouped(Marked(rows, mark));
      forall i, e :: 0 <= i < |gs| && e in gs[i].1 ==> e in rows && e.event == mark && e.group == gs[i].0
  {
    var m := Marked(rows, mark);
    GroupedPartitions(m);
    var gs := Grouped(m);
    forall i, e | 0 <= i < |gs| && e in gs[i].1 ensures e in rows && e.event == mark && e.group == gs[i].0 {
      assert e in m;
      var j :| 0 <= j < |m| && m[j] == e;
    }
  }

  datatype FixationStats = FixationStats(group: int, nsamples: nat, duration: real, centerX: Float, centerY: Float, area: Float)

  /** `s` is the row of `fixation_params` for the group `key` made of the rows `g`. */
  predicate IsFixationRow(sqrt: real -> real, atan2: (real, real) -> real, pivot: seq<Point> -> nat, key: int, g: seq<EventRow>, s: FixationStats) {
    s.group == key && s.nsamples == |g| && Duration(g) == Success(s.duration) &&
    MassCenterXY(g) == (s.centerX, s.centerY) && IsAreaOf(sqrt, atan2, pivot, g, s.area)
  }

  /**
   * `fixation_params(df, mark)`: count, duration, centre and area of each
   * group of the rows labelled `mark`; none of them raises on a group.
   */
  method FixationParams(sqrt: real -> real, atan2: (real, real) -> real, pivot: seq<Point> -> nat,
                        rows: seq<EventRow>, mark: string)
    returns (r: seq<FixationStats>)
    ensures var gs := Grouped(Marked(rows, mark));
      |r| == |gs| && forall i :: 0 <= i < |gs| ==> IsFixationRow(sqrt, atan2, pivot, gs[i].0, gs[i].1, r[i])
  {
    var gs := Grouped(Marked(rows, mark));
    r := [];
    for i := 0 to |gs|
      invariant |r| == i
      invariant forall j :: 0 <= j < i ==> IsFixationRow(sqrt, atan2, pivot, gs[j].0, gs[j].1, r[j])
    {
      var (key, g) := gs[i];
      var area := Area(sqrt, atan2, pivot, g);
      var (cx, cy) := MassCenterXY(g);
      var row := FixationStats(key, Nsamples(g), Duration(g).value, cx, cy, area);
      assert IsFixationRow(sqrt, atan2, pivot, key, g, row);
      ghost var prev := r;
      r := r + [row];
      forall j | 0 <= j < i + 1 ensures IsFixationRow(sqrt, atan2, pivot, gs[j].0, gs[j].1, r[j]) {
        if j < i {
          assert r[j] == prev[j];
        }
      }
    }
  }
}
