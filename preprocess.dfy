/**
 * The frame preparation of modules/python/trajectory/__init__.py, which
 * modules/python/eyevents/trajectory.py repeats as methods: the column map
 * and renaming, the time shift, the rescaling of normalised coordinates,
 * the column selection, the smoothing dispatch with its gap filling, and
 * the default reference point. The CSV reader, the rolling median and
 * mean, the Savitzky-Golay filter and the angular projection are
 * parameters.
 */
module Preprocess {
  import opened Common
  import opened Seqs
  import opened Frames
  import opened ValuesChecker

  /** A value of `settings['columns']`: a position in the file (`type(b) is int`) or a column name. */
  datatype ColumnRef = Position(index: int) | Name(key: string)

  /** `settings['smoothing']` when it is not None. */
  datatype Smoothing = Smoothing(kind: string, window: int, center: bool, order: int, fillna: bool)

  /**
   * `settings['common']['resolution']` as numpy sees it: two integers give
   * an integer array, any real entry a float array.
   */
  datatype Resolution = Ints(ix: int, iy: int) | Reals(rx: real, ry: real)

  /**
   * The entries of the settings dict the preprocessing reads, already
   * parsed; `columns` keeps the dict's insertion order.
   */
  datatype GazeSettings = GazeSettings(
    columns: seq<(string, ColumnRef)>,
    adjustTime: bool,
    normalized: bool,
    resolution: Resolution,
    size: (real, real),
    referencePoint: Option<(real, real)>,
    smoothing: Option<Smoothing>)

  /** `list(settings['columns'].keys())`. */
  function Keys(entries: seq<(string, ColumnRef)>): (ks: seq<string>)
    ensures |ks| == |entries| && forall t :: 0 <= t < |entries| ==> ks[t] == entries[t].0
  {
    seq(|entries|, t requires 0 <= t < |entries| => entries[t].0)
  }

  // ------------------------------------------------------------ column map

  /** The file column an entry names: `colnames[b]` for a position (negative ones count from the end), `b` itself for a name. */
  function SourceName(b: ColumnRef, colnames: seq<string>): (r: Result<string>)
    ensures r.Failure? <==> b.Position? && !ValidPyIndex(b.index, |colnames|)
    ensures r.Failure? ==> r.error == IndexError
    ensures r.Success? && b.Name? ==> r.value == b.key
    ensures r.Success? && b.Position? ==> r.value in colnames
  {
    match b
    case Name(key) => Success(key)
    case Position(i) => if ValidPyIndex(i, |colnames|) then Success(colnames[PyIndex(i, |colnames|)]) else Failure(IndexError)
  }

  /** The rename map the loop builds: file column to logical key, a later entry overwriting an earlier one. */
  function ColumnMapOf(entries: seq<(string, ColumnRef)>, colnames: seq<string>): (r: Result<map<string, string>>)
    ensures r.Success? <==> forall t :: 0 <= t < |entries| ==> SourceName(entries[t].1, colnames).Success?
    ensures r.Failure? ==> r.error == IndexError
    decreases |entries|
  {
    if |entries| == 0 then Success(map[])
    else
      var n := |entries| - 1;
      assert forall t :: 0 <= t < n ==> entries[..n][t] == entries[t];
      var m :- ColumnMapOf(entries[..n], colnames);
      var src :- SourceName(entries[n].1, colnames);
      Success(m[src := entries[n].0])
  }

  /** An entry whose file column no later entry names decides that column's key; every key of the map comes from an entry. */
  lemma {:induction false} ColumnMapLastWins(entries: seq<(string, ColumnRef)>, colnames: seq<string>, t: nat)
    requires ColumnMapOf(entries, colnames).Success? && t < |entries|
    requires forall u :: t < u < |entries| ==> SourceName(entries[u].1, colnames) != SourceName(entries[t].1, colnames)
    ensures var m := ColumnMapOf(entries, colnames).value; var src := SourceName(entries[t].1, colnames).value;
      src in m && m[src] == entries[t].0
    decreases |entries|
  {
    var n := |entries| - 1;
    if t < n {
      assert forall u :: 0 <= u < n ==> entries[..n][u] == entries[u];
      ColumnMapLastWins(entries[..n], colnames, t);
    }
  }

  /** Every file column of the map is named by some entry. */
  lemma {:induction false} ColumnMapKeysNamed(entries: seq<(string, ColumnRef)>, colnames: seq<string>, src: string)
    requires ColumnMapOf(entries, colnames).Success? && src in ColumnMapOf(entries, colnames).value
    ensures exists t :: 0 <= t < |entries| && SourceName(entries[t].1, colnames) == Success(src)
    decreases |entries|
  {
    var n := |entries| - 1;
    assert forall u :: 0 <= u < n ==> entries[..n][u] == entries[u];
    if SourceName(entries[n].1, colnames) != Success(src) {
      ColumnMapKeysNamed(entries[..n], colnames, src);
      var t :| 0 <= t < n && SourceName(entries[..n][t].1, colnames) == Success(src);
      assert SourceName(entries[t].1, colnames) == Success(src);
    }
  }

  /** A failure in a prefix of the entries is the failure of all of them. */
  lemma {:induction false} ColumnMapPrefixFails(entries: seq<(string, ColumnRef)>, colnames: seq<string>, i: nat)
    requires i <= |entries| && ColumnMapOf(entries[..i], colnames).Failure?
    ensures ColumnMapOf(entries, colnames) == Failure(IndexError)
  {
    var t :| 0 <= t < i && SourceName(entries[..i][t].1, colnames).Failure?;
    assert entries[..i][t] == entries[t];
  }

  /** The loop `for a, b in settings['columns'].items()` that fills the rename dict. */
  method ColumnMap(entries: seq<(string, ColumnRef)>, colnames: seq<string>) returns (r: Result<map<string, string>>)
    ensures r == ColumnMapOf(entries, colnames)
  {
    var columns: map<string, string> := map[];
    for i := 0 to |entries|
      invariant ColumnMapOf(entries[..i], colnames) == Success(columns)
    {
      var (a, b) := entries[i];
      assert entries[..i + 1][..i] == entries[..i];
      var src := SourceName(b, colnames);
      if src.Failure? {
        ColumnMapPrefixFails(entries, colnames, i + 1);
        return Failure(src.error);
      }
      columns := columns[src.value := a];
    }
    assert entries[..|entries|] == entries;
    r := Success(columns);
  }

  /** `df.rename(columns=m)`: a label found in the map takes its key; the cells stay. */
  function Rename(f: Frame, m: map<string, string>): (g: Frame)
    ensures g.rows == f.rows && |g.columns| == |f.columns|
    ensures forall k :: 0 <= k < |f.columns| ==> g.columns[k] == if f.columns[k] in m then m[f.columns[k]] else f.columns[k]
  {
    Frame(seq(|f.columns|, k requires 0 <= k < |f.columns| =>
      if f.columns[k] in m then m[f.columns[k]] else f.columns[k]), f.rows)
  }

  // ------------------------------------------------------------- selection

  /** The positions of the columns labelled `name`, in order. */
  function Matching(cols: seq<string>, name: string): (ks: seq<nat>)
    ensures forall t :: 0 <= t < |ks| ==> ks[t] < |cols| && cols[ks[t]] == name
  {
    Where(cols, (c: string) => c == name)
  }

  /** Without repeated labels a present label matches exactly its one column. */
  lemma {:induction false} MatchingDistinct(cols: seq<string>, name: string)
    requires Distinct(cols) && name in cols
    ensures Matching(cols, name) == [IndexOf(cols, name).value]
    decreases |cols|
  {
    var n := |cols| - 1;
    var keep := (c: string) => c == name;
    var init := cols[..n];
    assert Distinct(init);
    if cols[n] == name {
      assert forall k :: 0 <= k < n ==> init[k] != name;
      WhereNone(init, keep);
      assert name !in cols[..n];
      IndexOfAt(cols, name, n);
    } else {
      assert name in init by {
        var k :| 0 <= k < |cols| && cols[k] == name;
        assert init[k] == name;
      }
      MatchingDistinct(init, name);
      var j := IndexOf(init, name).value;
      assert cols[..j] == init[..j];
      IndexOfAt(cols, name, j);
    }
  }

  /** The positions `df[keys]` selects: all columns of each key in turn; KeyError when a key has none. */
  function SelectPositions(cols: seq<string>, keys: seq<string>): (r: Result<seq<nat>>)
    ensures r.Success? <==> forall t :: 0 <= t < |keys| ==> keys[t] in cols
    ensures r.Failure? ==> r.error == KeyError
    ensures r.Success? ==> forall t :: 0 <= t < |r.value| ==> r.value[t] < |cols|
    decreases |keys|
  {
    if |keys| == 0 then Success([])
    else
      var n := |keys| - 1;
      assert forall t :: 0 <= t < n ==> keys[..n][t] == keys[t];
      var ps :- SelectPositions(cols, keys[..n]);
      if keys[n] !in cols then Failure(KeyError) else Success(ps + Matching(cols, keys[n]))
  }

  /** `df[keys]`. */
  function Select(f: Frame, keys: seq<string>): (r: Result<Frame>)
    requires Rectangular(f)
    ensures r.Success? <==> forall t :: 0 <= t < |keys| ==> keys[t] in f.columns
    ensures r.Failure? ==> r.error == KeyError
    ensures r.Success? ==> Rectangular(r.value) && |r.value.rows| == |f.rows|
  {
    var ps :- SelectPositions(f.columns, keys);
    Success(Project(f, ps))
  }

  /** Without repeated labels the positions are those of the keys, one each. */
  lemma {:induction false} SelectPositionsDistinct(cols: seq<string>, keys: seq<string>)
    requires Distinct(cols) && SelectPositions(cols, keys).Success?
    ensures var ps := SelectPositions(cols, keys).value;
      |ps| == |keys| && forall t :: 0 <= t < |keys| ==> cols[ps[t]] == keys[t]
    decreases |keys|
  {
    if |keys| > 0 {
      var n := |keys| - 1;
      assert forall t :: 0 <= t < n ==> keys[..n][t] == keys[t];
      SelectPositionsDistinct(cols, keys[..n]);
      MatchingDistinct(cols, keys[n]);
    }
  }

  /** Without repeated labels the selected frame has exactly the keys as its columns, in their order. */
  lemma SelectHasTheKeys(f: Frame, keys: seq<string>)
    requires Rectangular(f) && Distinct(f.columns) && Select(f, keys).Success?
    ensures Select(f, keys).value.columns == keys
  {
    SelectPositionsDistinct(f.columns, keys);
  }

  // ------------------------------------------------------- time and scale

  /** The smallest number of a column, `np.min` skipping missing cells; None when there is no number. */
  function MinValue(col: seq<Cell>): (r: Option<real>)
    ensures r.None? <==> forall i :: 0 <= i < |col| ==> !col[i].Value?
    ensures r.Some? ==> exists i :: 0 <= i < |col| && col[i] == Value(r.value)
    ensures r.Some? ==> forall i :: 0 <= i < |col| && col[i].Value? ==> r.value <= col[i].v
    decreases |col|
  {
    if |col| == 0 then None
    else
      var n := |col| - 1;
      assert forall i :: 0 <= i < n ==> col[..n][i] == col[i];
      var m := MinValue(col[..n]);
      match col[n]
      case Value(v) =>
        if m.None? || v < m.value then Some(v)
        else
          var i :| 0 <= i < n && col[..n][i] == Value(m.value);
          assert col[i] == Value(m.value);
          m
      case _ =>
        assert m.Some? ==> exists i :: 0 <= i < |col| && col[i] == Value(m.value) by {
          if m.Some? {
            var i :| 0 <= i < n && col[..n][i] == Value(m.value);
            assert col[i] == Value(m.value);
          }
        }
        m
  }

  function Shift(col: seq<Cell>, amount: real): (r: seq<Cell>)
    ensures |r| == |col|
  {
    seq(|col|, i requires 0 <= i < |col| => if col[i].Value? then Value(col[i].v - amount) else col[i])
  }

  predicate HasText(col: seq<Cell>) {
    exists i :: 0 <= i < |col| && col[i].Text?
  }

  /**
   * `adjust_time`: `time` minus its minimum. KeyError without a `time`
   * column, TypeError when it holds a string; with no number at all the
   * minimum is NaN and nothing changes.
   */
  function AdjustTime(f: Frame): (r: Result<Frame>)
    requires Rectangular(f)
    ensures r.Success? <==> "time" in f.columns && !HasText(Column(f, IndexOf(f.columns, "time").value))
    ensures r.Failure? ==> r.error == if "time" in f.columns then TypeError else KeyError
    ensures r.Success? ==> Rectangular(r.value) && r.value.columns == f.columns && |r.value.rows| == |f.rows|
    ensures r.Success? ==> var j := IndexOf(f.columns, "time").value;
      forall i, k :: 0 <= i < |f.rows| && 0 <= k < |f.columns| && k != j ==> r.value.rows[i][k] == f.rows[i][k]
  {
    match IndexOf(f.columns, "time")
    case None => Failure(KeyError)
    case Some(j) =>
      var col := Column(f, j);
      if HasText(col) then Failure(TypeError)
      else
        match MinValue(col)
        case None => Success(f)
        case Some(m) => Success(SetColumn(f, j, Shift(col, m)))
  }

  /** After the shift the earliest time is 0, no time is negative, and missing times stay missing. */
  lemma AdjustTimeStartsAtZero(f: Frame)
    requires Rectangular(f) && AdjustTime(f).Success?
    ensures var j := IndexOf(f.columns, "time").value; var g := AdjustTime(f).value;
      (forall i :: 0 <= i < |f.rows| ==> (g.rows[i][j].Value? <==> f.rows[i][j].Value?)) &&
      (forall i :: 0 <= i < |f.rows| && g.rows[i][j].Value? ==> g.rows[i][j].v >= 0.0) &&
      ((exists i :: 0 <= i < |f.rows| && f.rows[i][j].Value?) ==> exists i :: 0 <= i < |f.rows| && g.rows[i][j] == Value(0.0))
  {
    var j := IndexOf(f.columns, "time").value;
    var col := Column(f, j);
    var g := AdjustTime(f).value;
    if MinValue(col).Some? {
      var m := MinValue(col).value;
      var i :| 0 <= i < |col| && col[i] == Value(m);
      assert g.rows[i][j] == Value(0.0);
    }
  }

  /** The shift keeps the difference between any two times. */
  lemma AdjustTimeKeepsDifferences(f: Frame, a: nat, b: nat)
    requires Rectangular(f) && AdjustTime(f).Success?
    requires var j := IndexOf(f.columns, "time").value;
      a < |f.rows| && b < |f.rows| && f.rows[a][j].Value? && f.rows[b][j].Value?
    ensures var j := IndexOf(f.columns, "time").value; var g := AdjustTime(f).value;
      g.rows[a][j].Value? && g.rows[b][j].Value? &&
      g.rows[a][j].v - g.rows[b][j].v == f.rows[a][j].v - f.rows[b][j].v
  {
  }

  function Scale(col: seq<Cell>, factor: real): (r: seq<Cell>)
    ensures |r| == |col|
    ensures forall i :: 0 <= i < |col| ==> (r[i].Value? <==> col[i].Value?)
    ensures forall i :: 0 <= i < |col| && col[i].Value? ==> r[i].v == col[i].v * factor
  {
    seq(|col|, i requires 0 <= i < |col| => if col[i].Value? then Value(col[i].v * factor) else col[i])
  }

  /** `s * n` for a string `s` and an integer `n`: `s` repeated, empty for `n <= 0`. */
  function Repeat(s: string, n: int): string
    decreases if n > 0 then n else 0
  {
    if n <= 0 then "" else s + Repeat(s, n - 1)
  }

  /** A column times an integer: numbers are scaled, strings repeated, missing values kept. */
  function ScaleInt(col: seq<Cell>, n: int): (r: seq<Cell>)
    ensures |r| == |col|
    ensures forall i :: 0 <= i < |col| ==> (r[i].Value? <==> col[i].Value?) && (r[i].Text? <==> col[i].Text?)
    ensures forall i :: 0 <= i < |col| && col[i].Value? ==> r[i].v == col[i].v * n as real
    ensures forall i :: 0 <= i < |col| && col[i].Text? ==> r[i].s == Repeat(col[i].s, n)
  {
    seq(|col|, i requires 0 <= i < |col| =>
      match col[i]
      case Value(v) => Value(v * n as real)
      case Text(t) => Text(Repeat(t, n))
      case Missing => Missing)
  }

  /** A column times one entry of the resolution: the horizontal one, or the vertical one. */
  function ScaleAxis(col: seq<Cell>, res: Resolution, horizontal: bool): seq<Cell> {
    match res
    case Ints(ix, iy) => ScaleInt(col, if horizontal then ix else iy)
    case Reals(rx, ry) => Scale(col, if horizontal then rx else ry)
  }

  /**
   * `normalized`: `porx` times the horizontal and `pory` times the
   * vertical resolution. KeyError without either column. A string cell
   * times a float raises TypeError, but times an integer it is repeated.
   */
  function Normalize(f: Frame, res: Resolution): (r: Result<Frame>)
    requires Rectangular(f)
    ensures r.Success? <==> ("porx" in f.columns && "pory" in f.columns &&
      (res.Ints? ||
       (!HasText(Column(f, IndexOf(f.columns, "porx").value)) && !HasText(Column(f, IndexOf(f.columns, "pory").value)))))
    ensures r.Failure? ==> r.error == if "porx" in f.columns && "pory" in f.columns then TypeError else KeyError
    ensures r.Success? ==> Rectangular(r.value) && r.value.columns == f.columns && |r.value.rows| == |f.rows|
    ensures r.Success? ==> var x, y := IndexOf(f.columns, "porx").value, IndexOf(f.columns, "pory").value;
      Column(r.value, x) == ScaleAxis(Column(f, x), res, true) &&
      Column(r.value, y) == ScaleAxis(Column(f, y), res, false) &&
      forall i, k :: 0 <= i < |f.rows| && 0 <= k < |f.columns| && k != x && k != y ==> r.value.rows[i][k] == f.rows[i][k]
  {
    match (IndexOf(f.columns, "porx"), IndexOf(f.columns, "pory"))
    case (Some(x), Some(y)) =>
      var cx, cy := Column(f, x), Column(f, y);
      if res.Reals? && (HasText(cx) || HasText(cy)) then Failure(TypeError)
      else
        var sx, sy := ScaleAxis(cx, res, true), ScaleAxis(cy, res, false);
        var g := SetColumn(SetColumn(f, x, sx), y, sy);
        assert Column(g, x) == sx;
        Success(g)
    case _ => Failure(KeyError)
  }

  /** A string cell is repeated by an integer resolution and refused by a real one. */
  lemma NormalizeTextCell()
    ensures var f := Frame(["porx", "pory"], [[Text("ab"), Value(0.5)]]);
      Normalize(f, Ints(2, 3)) == Success(Frame(["porx", "pory"], [[Text("abab"), Value(1.5)]])) &&
      Normalize(f, Reals(2.0, 3.0)) == Failure(TypeError)
  {
    var f := Frame(["porx", "pory"], [[Text("ab"), Value(0.5)]]);
    assert IndexOf(f.columns, "porx") == Some(0);
    assert f.columns[1..] == ["pory"];
    assert IndexOf(f.columns, "pory") == Some(1);
    assert HasText(Column(f, 0)) by {
      assert Column(f, 0)[0] == Text("ab");
    }
    assert Repeat("ab", 2) == "abab" by {
      assert Repeat("ab", 0) == "";
    }
    var r := Normalize(f, Ints(2, 3)).value;
    assert r.rows[0][0] == Text("abab");
    assert r.rows[0][1] == Value(1.5);
    assert r.rows[0] == [Text("abab"), Value(1.5)];
    assert r.rows == [[Text("abab"), Value(1.5)]];
  }

  /** Normalising never touches the `time` column. */
  lemma NormalizeKeepsTime(f: Frame, resolution: Resolution)
    requires Rectangular(f) && Normalize(f, resolution).Success? && "time" in f.columns
    ensures var j := IndexOf(f.columns, "time").value; Column(Normalize(f, resolution).value, j) == Column(f, j)
  {
    var j := IndexOf(f.columns, "time").value;
    assert j != IndexOf(f.columns, "porx").value && j != IndexOf(f.columns, "pory").value;
  }

  // ------------------------------------------------------------ loading

  /** The frame `get_trajectory_as_df` builds from the frame the CSV reader returned. */
  function PreparedFrameOf(s: GazeSettings, loaded: Frame): (r: Result<Frame>)
    requires Rectangular(loaded)
    ensures r.Success? ==> Rectangular(r.value) && |r.value.rows| == |loaded.rows|
  {
    var m :- ColumnMapOf(s.columns, loaded.columns);
    var renamed := Rename(loaded, m);
    var adjusted :- if s.adjustTime then AdjustTime(renamed) else Success(renamed);
    var scaled :- if s.normalized then Normalize(adjusted, s.resolution) else Success(adjusted);
    Select(scaled, Keys(s.columns))
  }

  /** The steps before the selection keep the renamed labels. */
  lemma PreparedLabels(s: GazeSettings, loaded: Frame)
    requires Rectangular(loaded) && PreparedFrameOf(s, loaded).Success?
    ensures var renamed := Rename(loaded, ColumnMapOf(s.columns, loaded.columns).value);
      var adjusted := if s.adjustTime then AdjustTime(renamed).value else renamed;
      var scaled := if s.normalized then Normalize(adjusted, s.resolution).value else adjusted;
      Rectangular(scaled) && scaled.columns == renamed.columns && PreparedFrameOf(s, loaded) == Select(scaled, Keys(s.columns))
  {
  }

  /**
   * When renaming leaves no repeated label, the prepared frame holds
   * exactly the keys of `settings['columns']`, in order, one row per row
   * read.
   */
  lemma PreparedHasTheKeys(s: GazeSettings, loaded: Frame)
    requires Rectangular(loaded) && PreparedFrameOf(s, loaded).Success?
    requires Distinct(Rename(loaded, ColumnMapOf(s.columns, loaded.columns).value).columns)
    ensures PreparedFrameOf(s, loaded).value.columns == Keys(s.columns)
    ensures |PreparedFrameOf(s, loaded).value.rows| == |loaded.rows|
  {
    PreparedLabels(s, loaded);
    var renamed := Rename(loaded, ColumnMapOf(s.columns, loaded.columns).value);
    var adjusted := if s.adjustTime then AdjustTime(renamed).value else renamed;
    var scaled := if s.normalized then Normalize(adjusted, s.resolution).value else adjusted;
    SelectHasTheKeys(scaled, Keys(s.columns));
  }

  /** The column-map loop followed by the frame steps. */
  method PrepareLoaded(s: GazeSettings, loaded: Frame) returns (r: Result<Frame>)
    requires Rectangular(loaded)
    ensures r == PreparedFrameOf(s, loaded)
  {
    var m := ColumnMap(s.columns, loaded.columns);
    if m.Failure? {
      return Failure(m.error);
    }
    var renamed := Rename(loaded, m.value);
    var adjusted := if s.adjustTime then AdjustTime(renamed) else Success(renamed);
    if adjusted.Failure? {
      return Failure(adjusted.error);
    }
    var scaled := if s.normalized then Normalize(adjusted.value, s.resolution) else adjusted;
    if scaled.Failure? {
      return Failure(scaled.error);
    }
    r := Select(scaled.value, Keys(s.columns));
  }

  /** `get_trajectory_as_df(path, settings)`, the settings check first; the CSV read is the parameter `loaded`. */
  function TrajectoryAsDfOf(settingsObject: PyObject, s: GazeSettings, loaded: Frame): (r: Result<Frame>)
    requires Rectangular(loaded)
    ensures CheckSettings(settingsObject).Failure? ==> r.Failure? && r.error == CheckSettings(settingsObject).error
    ensures CheckSettings(settingsObject).Success? ==> r == PreparedFrameOf(s, loaded)
  {
    var _ :- CheckSettings(settingsObject);
    PreparedFrameOf(s, loaded)
  }

  method GetTrajectoryAsDf(settingsObject: PyObject, s: GazeSettings, loaded: Frame) returns (r: Result<Frame>)
    requires Rectangular(loaded)
    ensures r == TrajectoryAsDfOf(settingsObject, s, loaded)
  {
    var checked := CheckSettings(settingsObject);
    if checked.Failure? {
      return Failure(checked.error);
    }
    r := PrepareLoaded(s, loaded);
  }

  // ------------------------------------------------------------ smoothing

  datatype SmoothingMethod = RollingMedian | RollingMean | SavitzkyGolay

  /** The dispatch of `smooth_trajectory_df`: median and mean by their names, the filter for any other name. */
  function DispatchOf(name: string): (m: SmoothingMethod)
    ensures m == RollingMedian <==> name == "med" || name == "median"
    ensures m == RollingMean <==> name == "avg" || name == "average" || name == "mean"
    ensures m == SavitzkyGolay <==> name !in ["med", "median", "avg", "average", "mean"]
  {
    if name in ["med", "median"] then RollingMedian
    else if name in ["avg", "average", "mean"] then RollingMean
    else SavitzkyGolay
  }

  /**
   * The filters, cell by cell: `median(col, window, center, i)` is row `i`
   * of the rolling median, likewise the mean; `savgol(col, window, order, i)`.
   */
  datatype Filters = Filters(
    median: (seq<Cell>, int, bool, nat) -> Cell,
    mean: (seq<Cell>, int, bool, nat) -> Cell,
    savgol: (seq<Cell>, int, int, nat) -> Cell)

  function Filtered(col: seq<Cell>, m: SmoothingMethod, sm: Smoothing, filters: Filters): (r: seq<Cell>)
    ensures |r| == |col|
  {
    seq(|col|, i requires 0 <= i < |col| =>
      match m
      case RollingMedian => filters.median(col, sm.window, sm.center, i)
      case RollingMean => filters.mean(col, sm.window, sm.center, i)
      case SavitzkyGolay => filters.savgol(col, sm.window, sm.order, i))
  }

  /**
   * Smoothing every column but `time` with method `m`, then the gap
   * filling when `fillna` is set. `df.drop('time', 1)` raises KeyError
   * without a `time` column.
   */
  function SmoothColumns(f: Frame, m: SmoothingMethod, sm: Smoothing, filters: Filters): (r: Result<Frame>)
    requires Rectangular(f)
    ensures r.Failure? <==> "time" !in f.columns
    ensures r.Failure? ==> r.error == KeyError
    ensures r.Success? ==> Rectangular(r.value) && r.value.columns == f.columns && |r.value.rows| == |f.rows|
    ensures r.Success? ==> forall k :: 0 <= k < |f.columns| && f.columns[k] == "time" ==>
      Column(r.value, k) == if sm.fillna then FillGaps(Column(f, k)) else Column(f, k)
    ensures r.Success? ==> forall k :: 0 <= k < |f.columns| && f.columns[k] != "time" ==>
      Column(r.value, k) == if sm.fillna then FillGaps(Filtered(Column(f, k), m, sm, filters)) else Filtered(Column(f, k), m, sm, filters)
  {
    if "time" !in f.columns then Failure(KeyError)
    else
      var cols := seq(|f.columns|, k requires 0 <= k < |f.columns| =>
        if f.columns[k] == "time" then Column(f, k) else Filtered(Column(f, k), m, sm, filters));
      var g := Rebuild(f, cols);
      Success(if sm.fillna then FillFrame(g) else g)
  }

  /** `smooth_trajectory_df(df, settings)`: the settings default None is not subscriptable (TypeError); without smoothing the frame is copied unchanged. */
  function SmoothTrajectoryDf(f: Frame, settings: Option<GazeSettings>, filters: Filters): (r: Result<Frame>)
    requires Rectangular(f)
    ensures settings.None? ==> r == Failure(TypeError)
    ensures settings.Some? && settings.value.smoothing.None? ==> r == Success(f)
    ensures settings.Some? && settings.value.smoothing.Some? ==>
      var sm := settings.value.smoothing.value; r == SmoothColumns(f, DispatchOf(sm.kind), sm, filters)
  {
    match settings
    case None => Failure(TypeError)
    case Some(s) =>
      match s.smoothing
      case None => Success(f)
      case Some(sm) => SmoothColumns(f, DispatchOf(sm.kind), sm, filters)
  }

  /** Smoothing never changes a time that is present, whichever method and fill. */
  lemma TimeNeverSmoothed(f: Frame, m: SmoothingMethod, sm: Smoothing, filters: Filters, i: nat)
    requires Rectangular(f) && SmoothColumns(f, m, sm, filters).Success?
    requires var j := IndexOf(f.columns, "time").value; i < |f.rows| && Present(f.rows[i][j])
    ensures var j := IndexOf(f.columns, "time").value; SmoothColumns(f, m, sm, filters).value.rows[i][j] == f.rows[i][j]
  {
    var j := IndexOf(f.columns, "time").value;
    var g := SmoothColumns(f, m, sm, filters).value;
    assert Column(g, j)[i] == g.rows[i][j];
    assert Column(f, j)[i] == f.rows[i][j];
  }

  /** With `fillna`, a column with some present value after filtering has no missing cell left. */
  lemma SmoothedFillLeavesNoGap(f: Frame, m: SmoothingMethod, sm: Smoothing, filters: Filters, k: nat, i: nat)
    requires Rectangular(f) && SmoothColumns(f, m, sm, filters).Success? && sm.fillna
    requires k < |f.columns| && f.columns[k] != "time"
    requires i < |f.rows| && Present(Filtered(Column(f, k), m, sm, filters)[i])
    ensures forall row :: 0 <= row < |f.rows| ==> Present(SmoothColumns(f, m, sm, filters).value.rows[row][k])
  {
    var g := SmoothColumns(f, m, sm, filters).value;
    FillGapsLeavesNoMissing(Filtered(Column(f, k), m, sm, filters), i);
    assert forall row :: 0 <= row < |f.rows| ==> Column(g, k)[row] == g.rows[row][k];
  }

  // ------------------------------------------------------ reference point

  /** `reference_point`, by default the centre of the physical screen size (not of the resolution). */
  function ReferencePoint(s: GazeSettings): (p: (real, real))
    ensures s.referencePoint.None? ==> p.0 * 2.0 == s.size.0 && p.1 * 2.0 == s.size.1
    ensures s.referencePoint.Some? ==> p == s.referencePoint.value
  {
    match s.referencePoint
    case None => (s.size.0 / 2.0, s.size.1 / 2.0)
    case Some(point) => point
  }

  /** The reference point never depends on the resolution. */
  lemma ReferenceIgnoresResolution(s: GazeSettings, resolution: Resolution)
    ensures ReferencePoint(s) == ReferencePoint(s.(resolution := resolution))
  {
  }
}
