/**
 * The AOI pipeline of modules/python/AOI/PreparedTrajectory.py: the count
 * matrix of one recording, the per-class probability matrices built from many
 * recordings, and the log-likelihood estimate of a new recording per class.
 * Reading a recording from a path is a parameter (`load`).
 */
module PreparedTrajectory {
  import opened Common
  import opened Seqs
  import opened Floats
  import opened Transitions
  import opened AoiTrajectory
  import opened AoiGrid
  import opened Arith

  /** The settings dict of the pipeline. */
  datatype AoiSettings = AoiSettings(
    tCol: int, xCol: int, yCol: int,
    tCoef: real, xCoef: real, yCoef: real,
    minTime: bool, tsInGroup: real, cellsX: nat, cellsY: nat, emptyAoi: bool)

  /** The settings used when none are given. */
  function DefaultSettings(): (s: AoiSettings)
    ensures (s.tCol, s.xCol, s.yCol) == (0, 1, 2)
    ensures (s.tCoef, s.xCoef, s.yCoef) == (0.001, 1280.0, 720.0)
    ensures s.minTime && s.tsInGroup == 100.0 && (s.cellsX, s.cellsY) == (5, 5) && s.emptyAoi
  {
    AoiSettings(0, 1, 2, 0.001, 1280.0, 720.0, true, 100.0, 5, 5, true)
  }

  function SettingsOrDefault(settings: Option<AoiSettings>): AoiSettings {
    if settings.Some? then settings.value else DefaultSettings()
  }

  /** The `set_parameters` call the pipeline makes. */
  function ParamsOf(s: AoiSettings): (p: Params)
    ensures p.xCoef == s.xCoef && p.yCoef == s.yCoef && p.tCoef == s.tCoef && p.minTime == s.minTime
    ensures p.tsInGroup == s.tsInGroup && p.cellsX == s.cellsX && p.cellsY == s.cellsY
  {
    Params(s.xCoef, s.yCoef, s.tCoef, s.minTime, s.tsInGroup, s.cellsX, s.cellsY)
  }

  /** The side of the transition matrices under settings s: one state per grid cell, plus the catch-all when asked. */
  function MatrixSizeOf(s: AoiSettings): nat {
    MatrixSize(s.cellsX * s.cellsY, s.emptyAoi)
  }

  /**
   * The stages in their order: prepare_time, group_by_time (which can only
   * fail), prepare_coordinates, then the raw counts of the scaled samples.
   */
  function PipelineCounts(raw: seq<Sample>, s: AoiSettings): (r: Result<Matrix>)
    ensures r.Success? ==> IsSquare(r.value, MatrixSizeOf(s))
  {
    var p := ParamsOf(s);
    if p.minTime && |raw| == 0 then Failure(ValueError)
    else
      var timed := PreparedTimes(raw, p.minTime, p.tCoef);
      var grouping := GroupCheck(timed, p.tsInGroup);
      if grouping.Fail? then Failure(grouping.error)
      else
        var scaled := ScaledCoordinates(timed, p.xCoef, p.yCoef);
        if GridCheck(p.xCoef, p.yCoef, p.cellsX, p.cellsY) != Pass then Failure(ZeroDivisionError)
        else TransitionsOf(AoiRows(GridOf(p), AoiCount(p), scaled), p, s.emptyAoi, false)
  }

  /** `get_transition_matrix(path, settings)` on the recording `raw` read from path. */
  method GetTransitionMatrix(raw: seq<Sample>, settings: Option<AoiSettings>) returns (r: Result<Matrix>)
    ensures r == PipelineCounts(raw, SettingsOrDefault(settings))
  {
    var s := SettingsOrDefault(settings);
    var tr := new Trajectory(raw);
    var p := ParamsOf(s);
    var o := tr.SetParameters(p);
    o := tr.PrepareTime();
    if o.Fail? {
      return Failure(o.error);
    }
    ghost var timed := PreparedTimes(raw, p.minTime, p.tCoef);
    assert tr.data == Some(timed);
    o := tr.GroupByTime();
    if o.Fail? {
      return Failure(o.error);
    }
    o := tr.PrepareCoordinates();
    assert tr.data == Some(ScaledCoordinates(timed, p.xCoef, p.yCoef)) && tr.params == Some(p) && tr.aoiDf == None;
    o := tr.GetTransitionMatrix(s.emptyAoi, false);
    if o.Fail? {
      return Failure(o.error);
    }
    r := Success(tr.transitionMatrix.value);
  }

  /**
   * The grouping stage never changes the counts: two bucket widths that both
   * let `group_by_time` through give the same matrix.
   */
  lemma GroupingDoesNotMatter(raw: seq<Sample>, s: AoiSettings, ts: real)
    requires s.tsInGroup != 0.0 && ts != 0.0
    ensures PipelineCounts(raw, s) == PipelineCounts(raw, s.(tsInGroup := ts))
  {
  }

  /**
   * A usable grid and bucket width make the pipeline succeed on any
   * recording (a non-empty one when times are shifted), with raw counts.
   */
  lemma {:induction false} PipelineSucceeds(raw: seq<Sample>, s: AoiSettings)
    requires s.minTime ==> |raw| > 0
    requires s.tsInGroup != 0.0 && s.cellsX > 0 && s.cellsY > 0 && s.xCoef != 0.0 && s.yCoef != 0.0
    ensures PipelineCounts(raw, s).Success?
  {
    var p := ParamsOf(s);
    var scaled := ScaledCoordinates(PreparedTimes(raw, p.minTime, p.tCoef), p.xCoef, p.yCoef);
    GridTransitionsSucceed(p, scaled, s.emptyAoi, false);
  }

  /** With `empty_aoi` every sample is kept, so the counts total len(samples) - 1. */
  lemma {:induction false} PipelineTotal(raw: seq<Sample>, s: AoiSettings)
    requires |raw| > 0 && s.emptyAoi
    requires PipelineCounts(raw, s).Success?
    ensures Total(PipelineCounts(raw, s).value) == (|raw| - 1) as real
  {
    var p := ParamsOf(s);
    var scaled := ScaledCoordinates(PreparedTimes(raw, p.minTime, p.tCoef), p.xCoef, p.yCoef);
    var rows := AoiRows(GridOf(p), AoiCount(p), scaled);
    var cells := p.cellsX * p.cellsY;
    var ids := AoiIndices(Ids(rows), cells, true);
    assert |ids| == |raw|;
    CountsTotal(ids, MatrixSize(cells, true));
  }

  /** `np.sum(class_seq, 0)`: the elementwise sum of a class's count matrices. */
  function MatSum(ms: seq<Matrix>, n: nat): (t: Matrix)
    requires forall f :: 0 <= f < |ms| ==> IsSquare(ms[f], n)
    ensures IsSquare(t, n)
    decreases |ms|
  {
    if |ms| == 0 then Zeros(n)
    else
      var init := MatSum(ms[..|ms| - 1], n);
      var last := ms[|ms| - 1];
      assert IsSquare(last, n);
      seq(n, i requires 0 <= i < n => seq(n, j requires 0 <= j < n => init[i][j] + last[i][j]))
  }

  /** Entry (i, j) of the total is the sum over the recordings of their entry (i, j). */
  lemma {:induction false} MatSumEntry(ms: seq<Matrix>, n: nat, i: nat, j: nat)
    requires forall f :: 0 <= f < |ms| ==> IsSquare(ms[f], n)
    requires i < n && j < n
    ensures MatSum(ms, n)[i][j] == Sum(seq(|ms|, f requires 0 <= f < |ms| => ms[f][i][j]))
    decreases |ms|
  {
    var entries := seq(|ms|, f requires 0 <= f < |ms| => ms[f][i][j]);
    if |ms| > 0 {
      var k := |ms| - 1;
      MatSumEntry(ms[..k], n, i, j);
      assert entries[..k] == seq(k, f requires 0 <= f < k => ms[..k][f][i][j]);
    }
  }

  /** The probability matrix: entry (i, j) over the sum of row j, numpy division with no zero guard. */
  type FMatrix = seq<seq<Float>>

  function RowNormalisedByColumn(t: Matrix, n: nat): (p: FMatrix)
    requires IsSquare(t, n)
    ensures |p| == n && forall i :: 0 <= i < n ==> |p[i]| == n
  {
    seq(n, i requires 0 <= i < n => seq(n, j requires 0 <= j < n => Div(t[i][j], Sum(t[j]))))
  }

  /**
   * For a symmetric total (as many moves j -> i as i -> j), row j and
   * column j have the same sum, so every column with moves sums to 1.
   */
  lemma SymmetricColumnsSumToOne(t: Matrix, n: nat, j: nat)
    requires IsSquare(t, n) && j < n
    requires forall a, b :: 0 <= a < n && 0 <= b < n ==> t[a][b] == t[b][a]
    requires Sum(t[j]) != 0.0
    ensures forall i :: 0 <= i < n ==> RowNormalisedByColumn(t, n)[i][j] == Num(t[i][j] / Sum(t[j]))
    ensures Sum(seq(n, i requires 0 <= i < n => t[i][j] / Sum(t[j]))) == 1.0
  {
    var c := Sum(t[j]);
    var col := seq(n, i requires 0 <= i < n => t[i][j] / c);
    forall i | 0 <= i < n ensures col[i] == t[j][i] * (1.0 / c) {
      assert t[i][j] == t[j][i];
      DivIsMulInverse(t[j][i], c);
    }
    ScaledByInverseSumsToOne(t[j], c, col);
  }

  lemma ScaledByInverseSumsToOne(row: seq<real>, c: real, col: seq<real>)
    requires c == Sum(row) && c != 0.0 && |col| == |row|
    requires forall i :: 0 <= i < |row| ==> col[i] == row[i] * (1.0 / c)
    ensures Sum(col) == 1.0
  {
    SumScale(row, 1.0 / c, col);
    DivIsMulInverse(1.0, c);
  }

  /**
   * The division is by rows: with moves only from state 0 to state 1,
   * column 0 of the probabilities holds an infinity instead of summing to 1.
   */
  lemma RowSumsAreNotColumnSums()
    ensures RowNormalisedByColumn([[0.0, 0.0], [1.0, 0.0]], 2)[1][0] == PosInf
    ensures RowNormalisedByColumn([[0.0, 0.0], [1.0, 0.0]], 2)[0][0] == NaN
  {
    var t := [[0.0, 0.0], [1.0, 0.0]];
    assert Sum(t[0]) == 0.0;
  }

  /** A state never entered (row j sums to 0) yields NaN or +inf in column j of the non-negative counts. */
  lemma UnenteredStateGivesNoProbability(t: Matrix, n: nat, j: nat)
    requires IsSquare(t, n) && j < n && Sum(t[j]) == 0.0
    requires forall a, b :: 0 <= a < n && 0 <= b < n ==> t[a][b] >= 0.0
    ensures forall i :: 0 <= i < n ==> RowNormalisedByColumn(t, n)[i][j] in {NaN, PosInf}
  {
  }

  /** `f` applied to each element in order, the first failure ending the loop. */
  function EachOf<X, T>(xs: seq<X>, f: X -> Result<T>): (r: Result<seq<T>>)
    ensures r.Success? <==> forall i :: 0 <= i < |xs| ==> f(xs[i]).Success?
    ensures r.Success? ==> |r.value| == |xs|
    ensures r.Success? ==> forall i :: 0 <= i < |xs| ==> f(xs[i]) == Success(r.value[i])
    decreases |xs|
  {
    if |xs| == 0 then Success([])
    else
      var k := |xs| - 1;
      assert forall i :: 0 <= i < k ==> xs[..k][i] == xs[i];
      var init :- EachOf(xs[..k], f);
      var y :- f(xs[k]);
      Success(init + [y])
  }

  /**
   * One more round of the loop: a success appends its value, and a failure
   * on element k is the result for the whole sequence.
   */
  lemma EachOfStep<X, T>(xs: seq<X>, k: nat, f: X -> Result<T>, done: seq<T>)
    requires k < |xs| && EachOf(xs[..k], f) == Success(done)
    ensures f(xs[k]).Success? ==> EachOf(xs[..k + 1], f) == Success(done + [f(xs[k]).value])
    ensures f(xs[k]).Failure? ==> EachOf(xs, f) == Failure(f(xs[k]).error)
  {
    assert xs[..k + 1][..k] == xs[..k];
    if f(xs[k]).Failure? {
      EachOfStops(xs, k, f);
    }
  }

  lemma {:induction false} EachOfStops<X, T>(xs: seq<X>, k: nat, f: X -> Result<T>)
    requires k < |xs| && EachOf(xs[..k], f).Success? && f(xs[k]).Failure?
    ensures EachOf(xs, f) == Failure(f(xs[k]).error)
    decreases |xs|
  {
    assert xs[..k + 1][..k] == xs[..k];
    if k + 1 < |xs| {
      var n := |xs| - 1;
      assert xs[..n][..k] == xs[..k];
      assert xs[..n][k] == xs[k];
      EachOfStops(xs[..n], k, f);
    } else {
      assert xs[..k + 1] == xs;
    }
  }

  /** The pipeline on the recording read from prefix + path. */
  function PathCounts(load: string -> seq<Sample>, s: AoiSettings, prefix: string): (count: string -> Result<Matrix>)
    ensures forall path :: count(path) == PipelineCounts(load(prefix + path), s)
  {
    path => PipelineCounts(load(prefix + path), s)
  }

  /** The class counts of one class's recordings, in order, stopping at the first failure. */
  function ClassCounts(paths: seq<string>, load: string -> seq<Sample>, s: AoiSettings, prefix: string): (r: Result<seq<Matrix>>)
    ensures r.Success? <==> forall f :: 0 <= f < |paths| ==> PipelineCounts(load(prefix + paths[f]), s).Success?
    ensures r.Success? ==> |r.value| == |paths|
    ensures r.Success? ==> forall f :: 0 <= f < |paths| ==> PipelineCounts(load(prefix + paths[f]), s) == Success(r.value[f])
    ensures r.Success? ==> forall f :: 0 <= f < |r.value| ==> IsSquare(r.value[f], MatrixSizeOf(s))
  {
    EachOf(paths, PathCounts(load, s, prefix))
  }

  /** The class loop body: the counts of one (name, paths) class. */
  function ClassCountsOf(load: string -> seq<Sample>, s: AoiSettings, prefix: string)
    : (count: ((string, seq<string>)) -> Result<seq<Matrix>>)
    ensures forall c: (string, seq<string>) :: count(c) == ClassCounts(c.1, load, s, prefix)
  {
    (c: (string, seq<string>)) => ClassCounts(c.1, load, s, prefix)
  }

  /** The counts of every class, class by class. */
  function AllClassCounts(classes: seq<(string, seq<string>)>, load: string -> seq<Sample>, s: AoiSettings, prefix: string): (r: Result<seq<seq<Matrix>>>)
    ensures r.Success? <==> forall c :: 0 <= c < |classes| ==> ClassCounts(classes[c].1, load, s, prefix).Success?
    ensures r.Success? ==> |r.value| == |classes|
    ensures r.Success? ==> forall c :: 0 <= c < |classes| ==> ClassCounts(classes[c].1, load, s, prefix) == Success(r.value[c])
    ensures r.Success? ==> SquareCounts(r.value, MatrixSizeOf(s))
  {
    EachOf(classes, ClassCountsOf(load, s, prefix))
  }

  /** Every matrix of every class is n-by-n. */
  predicate SquareCounts(counts: seq<seq<Matrix>>, n: nat) {
    forall c, f :: 0 <= c < |counts| && 0 <= f < |counts[c]| ==> IsSquare(counts[c][f], n)
  }

  lemma SquareCountsAppend(init: seq<seq<Matrix>>, ms: seq<Matrix>, n: nat)
    requires SquareCounts(init, n) && forall f :: 0 <= f < |ms| ==> IsSquare(ms[f], n)
    ensures SquareCounts(init + [ms], n)
  {
    var r := init + [ms];
    forall c, f | 0 <= c < |r| && 0 <= f < |r[c]| ensures IsSquare(r[c][f], n) {
      if c < |init| { assert r[c] == init[c]; } else { assert r[c] == ms; }
    }
  }

  lemma SquareCountsPrefix(counts: seq<seq<Matrix>>, n: nat, k: nat)
    requires SquareCounts(counts, n) && k <= |counts|
    ensures SquareCounts(counts[..k], n)
  {
    forall c, f | 0 <= c < k && 0 <= f < |counts[..k][c]| ensures IsSquare(counts[..k][c][f], n) {
      assert counts[..k][c] == counts[c];
    }
  }

  /** The probability dict from the per-class counts. */
  function ProbabilityMap(classes: seq<(string, seq<string>)>, counts: seq<seq<Matrix>>, n: nat): (r: map<string, FMatrix>)
    requires |counts| == |classes| && SquareCounts(counts, n)
    ensures forall c :: 0 <= c < |classes| ==> classes[c].0 in r
    ensures forall k :: k in r ==> exists c :: 0 <= c < |classes| && classes[c].0 == k
    decreases |classes|
  {
    if |classes| == 0 then map[]
    else
      var k := |classes| - 1;
      SquareCountsPrefix(counts, n, k);
      ProbabilityMap(classes[..k], counts[..k], n)[classes[k].0 := RowNormalisedByColumn(MatSum(counts[k], n), n)]
  }

  predicate DistinctKeys(classes: seq<(string, seq<string>)>) {
    forall a, b :: 0 <= a < b < |classes| ==> classes[a].0 != classes[b].0
  }

  /** Each class's entry is computed from that class's own recordings. */
  lemma {:induction false} ProbabilityMapEntry(classes: seq<(string, seq<string>)>, counts: seq<seq<Matrix>>, n: nat, c: nat)
    requires |counts| == |classes| && DistinctKeys(classes) && c < |classes| && SquareCounts(counts, n)
    ensures ProbabilityMap(classes, counts, n)[classes[c].0] == RowNormalisedByColumn(MatSum(counts[c], n), n)
    decreases |classes|
  {
    var k := |classes| - 1;
    if c < k {
      SquareCountsPrefix(counts, n, k);
      assert classes[..k][c] == classes[c] && counts[..k][c] == counts[c];
      assert classes[c].0 != classes[k].0;
      ProbabilityMapEntry(classes[..k], counts[..k], n, c);
    }
  }

  /** `get_classes_probabilities`: an empty class makes the axis-1 sum of a scalar fail. */
  function ClassesProbabilitiesOf(classes: seq<(string, seq<string>)>, load: string -> seq<Sample>,
                                  settings: Option<AoiSettings>, mainPath: Option<string>): Result<map<string, FMatrix>>
  {
    var s := SettingsOrDefault(settings);
    var prefix := if mainPath.Some? then mainPath.value else "./";
    var counts :- AllClassCounts(classes, load, s, prefix);
    if exists c :: 0 <= c < |classes| && |classes[c].1| == 0 then Failure(ValueError)
    else Success(ProbabilityMap(classes, counts, MatrixSizeOf(s)))
  }

  /** The inner loop of `get_classes_probabilities` over one class's recordings. */
  method ClassMatrices(paths: seq<string>, load: string -> seq<Sample>, s: AoiSettings, prefix: string)
    returns (r: Result<seq<Matrix>>)
    ensures r == ClassCounts(paths, load, s, prefix)
  {
    ghost var count := PathCounts(load, s, prefix);
    var classSeq: seq<Matrix> := [];
    for f := 0 to |paths|
      invariant EachOf(paths[..f], count) == Success(classSeq)
    {
      var m := GetTransitionMatrix(load(prefix + paths[f]), Some(s));
      assert m == count(paths[f]);
      EachOfStep(paths, f, count, classSeq);
      if m.Failure? {
        return Failure(m.error);
      }
      classSeq := classSeq + [m.value];
    }
    assert paths[..|paths|] == paths;
    r := Success(classSeq);
  }

  /** The class loop (appending to `class_seq`), then the two comprehensions. */
  method GetClassesProbabilities(classes: seq<(string, seq<string>)>, load: string -> seq<Sample>,
                                 settings: Option<AoiSettings>, mainPath: Option<string>)
    returns (r: Result<map<string, FMatrix>>)
    ensures r == ClassesProbabilitiesOf(classes, load, settings, mainPath)
  {
    var prefix := if mainPath.Some? then mainPath.value else "./";
    var s := SettingsOrDefault(settings);
    ghost var count := ClassCountsOf(load, s, prefix);
    var counts: seq<seq<Matrix>> := [];
    for c := 0 to |classes|
      invariant EachOf(classes[..c], count) == Success(counts)
    {
      var classSeq := ClassMatrices(classes[c].1, load, s, prefix);
      ClassStep(classes, c, load, settings, mainPath, counts, classSeq);
      if classSeq.Failure? {
        return Failure(classSeq.error);
      }
      counts := counts + [classSeq.value];
    }
    assert classes[..|classes|] == classes;
    ProbabilitiesOfCounts(classes, load, settings, mainPath, counts);
    if exists c :: 0 <= c < |classes| && |classes[c].1| == 0 {
      return Failure(ValueError);
    }
    r := Success(ProbabilityMap(classes, counts, MatrixSizeOf(s)));
  }

  /** One round of the class loop: a class that fails is the result of the whole call. */
  lemma ClassStep(classes: seq<(string, seq<string>)>, c: nat, load: string -> seq<Sample>,
                  settings: Option<AoiSettings>, mainPath: Option<string>, counts: seq<seq<Matrix>>, classSeq: Result<seq<Matrix>>)
    requires c < |classes|
    requires EachOf(classes[..c], ClassCountsOf(load, SettingsOrDefault(settings),
                                                if mainPath.Some? then mainPath.value else "./")) == Success(counts)
    requires classSeq == ClassCounts(classes[c].1, load, SettingsOrDefault(settings), if mainPath.Some? then mainPath.value else "./")
    ensures classSeq.Success? ==>
      EachOf(classes[..c + 1], ClassCountsOf(load, SettingsOrDefault(settings),
                                             if mainPath.Some? then mainPath.value else "./")) == Success(counts + [classSeq.value])
    ensures classSeq.Failure? ==> ClassesProbabilitiesOf(classes, load, settings, mainPath) == Failure(classSeq.error)
  {
    var s := SettingsOrDefault(settings);
    var prefix := if mainPath.Some? then mainPath.value else "./";
    var count := ClassCountsOf(load, s, prefix);
    assert classSeq == count(classes[c]);
    EachOfStep(classes, c, count, counts);
    if classSeq.Failure? {
      assert AllClassCounts(classes, load, s, prefix) == Failure(classSeq.error);
    }
  }

  /** Once every class is counted, only the empty-class check stands between the counts and the map. */
  lemma ProbabilitiesOfCounts(classes: seq<(string, seq<string>)>, load: string -> seq<Sample>,
                              settings: Option<AoiSettings>, mainPath: Option<string>, counts: seq<seq<Matrix>>)
    requires EachOf(classes, ClassCountsOf(load, SettingsOrDefault(settings),
                                           if mainPath.Some? then mainPath.value else "./")) == Success(counts)
    ensures |counts| == |classes|
    ensures SquareCounts(counts, MatrixSizeOf(SettingsOrDefault(settings)))
    ensures ClassesProbabilitiesOf(classes, load, settings, mainPath) ==
      if exists c :: 0 <= c < |classes| && |classes[c].1| == 0 then Failure(ValueError)
      else Success(ProbabilityMap(classes, counts, MatrixSizeOf(SettingsOrDefault(settings))))
  {
    var s := SettingsOrDefault(settings);
    var prefix := if mainPath.Some? then mainPath.value else "./";
    assert AllClassCounts(classes, load, s, prefix) == Success(counts);
  }

  /** The terms `M * log(P)` row by row, as nansum sees the flattened array. */
  function Terms(m: Matrix, p: FMatrix, n: nat, ln: real -> real): (ts: seq<Float>)
    requires IsSquare(m, n) && |p| == n && forall i :: 0 <= i < n ==> |p[i]| == n
    ensures |ts| == n * n
    decreases n
  {
    RowTerms(m, p, n, n, ln)
  }

  function RowTerms(m: Matrix, p: FMatrix, n: nat, rows: nat, ln: real -> real): (ts: seq<Float>)
    requires IsSquare(m, n) && |p| == n && forall i :: 0 <= i < n ==> |p[i]| == n
    requires rows <= n
    ensures |ts| == rows * n
    decreases rows
  {
    if rows == 0 then []
    else
      RowTerms(m, p, n, rows - 1, ln) + seq(n, j requires 0 <= j < n => Scale(m[rows - 1][j], Log(ln, p[rows - 1][j])))
  }

  /** `np.nansum(M * np.log(P))`; shapes that do not match raise ValueError. */
  function LogLikelihood(m: Matrix, n: nat, p: FMatrix, ln: real -> real): (r: Result<Float>)
    requires IsSquare(m, n)
    ensures r.Success? <==> |p| == n && forall i :: 0 <= i < n ==> |p[i]| == n
  {
    if |p| == n && forall i :: 0 <= i < n ==> |p[i]| == n then Success(NanSum(Terms(m, p, n, ln)))
    else Failure(ValueError)
  }

  /**
   * Cells with a zero count contribute nothing: probabilities that differ
   * only where the count is 0 give the same estimate.
   */
  lemma {:induction false} ZeroCountsContributeNothing(m: Matrix, n: nat, p: FMatrix, p': FMatrix, ln: real -> real)
    requires IsSquare(m, n)
    requires |p| == n && |p'| == n && forall i :: 0 <= i < n ==> |p[i]| == n && |p'[i]| == n
    requires forall i, j :: 0 <= i < n && 0 <= j < n && m[i][j] != 0.0 ==> p[i][j] == p'[i][j]
    ensures LogLikelihood(m, n, p, ln) == LogLikelihood(m, n, p', ln)
  {
    RowTermsAgree(m, p, p', n, n, ln);
    assert Terms(m, p, n, ln) == RowTerms(m, p, n, n, ln);
    assert Terms(m, p', n, ln) == RowTerms(m, p', n, n, ln);
    NanSumIgnoresNeutral(Terms(m, p, n, ln), Terms(m, p', n, ln));
  }

  lemma {:induction false} RowTermsAgree(m: Matrix, p: FMatrix, p': FMatrix, n: nat, rows: nat, ln: real -> real)
    requires IsSquare(m, n)
    requires |p| == n && |p'| == n && forall i :: 0 <= i < n ==> |p[i]| == n && |p'[i]| == n
    requires forall i, j :: 0 <= i < n && 0 <= j < n && m[i][j] != 0.0 ==> p[i][j] == p'[i][j]
    requires rows <= n
    ensures var ts, ts' := RowTerms(m, p, n, rows, ln), RowTerms(m, p', n, rows, ln);
      forall k :: 0 <= k < |ts| ==> ts[k] == ts'[k] || (Neutral(ts[k]) && Neutral(ts'[k]))
    decreases rows
  {
    if rows > 0 {
      RowTermsAgree(m, p, p', n, rows - 1, ln);
      var init := RowTerms(m, p, n, rows - 1, ln);
      var ts, ts' := RowTerms(m, p, n, rows, ln), RowTerms(m, p', n, rows, ln);
      forall k | 0 <= k < |ts| ensures ts[k] == ts'[k] || (Neutral(ts[k]) && Neutral(ts'[k])) {
        if k < |init| {
          assert ts[k] == init[k];
          assert ts'[k] == RowTerms(m, p', n, rows - 1, ln)[k];
        } else {
          var j := k - |init|;
          assert ts[k] == Scale(m[rows - 1][j], Log(ln, p[rows - 1][j]));
          assert ts'[k] == Scale(m[rows - 1][j], Log(ln, p'[rows - 1][j]));
          if m[rows - 1][j] == 0.0 {
            ZeroScaleIsNeutral(Log(ln, p[rows - 1][j]));
            ZeroScaleIsNeutral(Log(ln, p'[rows - 1][j]));
          }
        }
      }
    }
  }

  /** `get_likelyhood_estimation`: one estimate per class key, or the first error. */
  function LikelihoodEstimationOf(raw: seq<Sample>, probabilities: map<string, FMatrix>, settings: Option<AoiSettings>,
                                  ln: real -> real): (r: Result<map<string, Float>>)
    ensures r.Success? ==> r.value.Keys == probabilities.Keys
  {
    var s := SettingsOrDefault(settings);
    var m :- PipelineCounts(raw, s);
    EstimatesOf(m, MatrixSizeOf(s), probabilities, ln)
  }

  /** The dict comprehension over the classes: a class whose matrix has the wrong shape raises ValueError. */
  function EstimatesOf(m: Matrix, n: nat, probabilities: map<string, FMatrix>, ln: real -> real): (r: Result<map<string, Float>>)
    requires IsSquare(m, n)
    ensures r.Success? <==> forall k :: k in probabilities ==> LogLikelihood(m, n, probabilities[k], ln).Success?
    ensures r.Failure? ==> r.error == ValueError
    ensures r.Success? ==> r.value.Keys == probabilities.Keys
    ensures r.Success? ==> forall k :: k in probabilities ==> r.value[k] == NanSum(Terms(m, probabilities[k], n, ln))
  {
    if exists k :: k in probabilities && LogLikelihood(m, n, probabilities[k], ln).Failure? then Failure(ValueError)
    else Success(map k | k in probabilities :: LogLikelihood(m, n, probabilities[k], ln).value)
  }

  /** The estimate for a class is the nansum of count times log probability over all cells. */
  lemma LikelihoodEstimationEntry(raw: seq<Sample>, probabilities: map<string, FMatrix>, settings: Option<AoiSettings>,
                                  ln: real -> real, k: string)
    requires LikelihoodEstimationOf(raw, probabilities, settings, ln).Success? && k in probabilities
    ensures var s := SettingsOrDefault(settings);
      var n := MatrixSizeOf(s);
      PipelineCounts(raw, s).Success? &&
      LikelihoodEstimationOf(raw, probabilities, settings, ln).value[k] ==
        NanSum(Terms(PipelineCounts(raw, s).value, probabilities[k], n, ln))
  {
    var s := SettingsOrDefault(settings);
    var m := PipelineCounts(raw, s);
    assert m.Success?;
    assert LikelihoodEstimationOf(raw, probabilities, settings, ln) == EstimatesOf(m.value, MatrixSizeOf(s), probabilities, ln);
  }
}
