/**
 * The event detectors of modules/python/eyevents/detector.py. `IVT` of
 * modules/python/trajectory/__init__.py is the same code and is modelled by
 * the same function. The threshold is `settings['oculus']['velocity_threshold']`.
 */
module Detector {
  import opened Common
  import opened Frames

  /**
   * The label of one `velAng` cell. The comparison is strict; NaN compares
   * false and so is a fixation; comparing a string with a number raises.
   */
  function LabelOf(c: Cell, threshold: real): (r: Result<string>)
    ensures r == Success("Saccade") <==> c.Value? && c.v > threshold
    ensures r == Success("Fixation") <==> (c.Value? && c.v <= threshold) || c.Missing?
    ensures r.Failure? <==> c.Text?
    ensures r.Failure? ==> r.error == TypeError
  {
    match c
    case Value(v) => Success(if v > threshold then "Saccade" else "Fixation")
    case Missing => Success("Fixation")
    case Text(_) => Failure(TypeError)
  }

  /** The `event` column: one label per cell, or the error of the first string cell. */
  function Labels(col: seq<Cell>, threshold: real): (r: Result<seq<Cell>>)
    ensures r.Success? <==> forall i :: 0 <= i < |col| ==> !col[i].Text?
    ensures r.Failure? ==> r.error == TypeError
    ensures r.Success? ==> |r.value| == |col|
    ensures r.Success? ==> forall i :: 0 <= i < |col| ==> r.value[i] == Text(LabelOf(col[i], threshold).value)
    decreases |col|
  {
    if |col| == 0 then Success([])
    else
      var init :- Labels(col[..|col| - 1], threshold);
      var last :- LabelOf(col[|col| - 1], threshold);
      assert forall i :: 0 <= i < |col| - 1 ==> col[..|col| - 1][i] == col[i];
      Success(init + [Text(last)])
  }

  /**
   * `Detector.IVT(df, settings)`: a copy of the frame with an `event`
   * column labelling each row by its own `velAng`; the helper column
   * `above_threshold` is dropped again.
   */
  function IVT(f: Frame, threshold: real): (r: Result<Frame>)
    requires Rectangular(f)
    ensures r.Success? <==> ("velAng" in f.columns &&
      forall i :: 0 <= i < |f.rows| ==> !f.rows[i][IndexOf(f.columns, "velAng").value].Text?)
    ensures r.Failure? ==> r.error == if "velAng" in f.columns then TypeError else KeyError
    ensures r.Success? ==> var out := r.value;
      Rectangular(out) && |out.rows| == |f.rows| && "event" in out.columns && "above_threshold" !in out.columns &&
      (forall c :: c in out.columns <==> (c in f.columns || c == "event") && c != "above_threshold")
    ensures r.Success? ==> var out := r.value; var e := IndexOf(out.columns, "event").value;
      forall i :: 0 <= i < |f.rows| ==>
        out.rows[i][e] == Text(LabelOf(f.rows[i][IndexOf(f.columns, "velAng").value], threshold).value)
  {
    match IndexOf(f.columns, "velAng")
    case None => Failure(KeyError)
    case Some(j) =>
      var labels :- Labels(Column(f, j), threshold);
      var labelled := Assign(f, "event", labels);
      var out := DropAll(labelled, "above_threshold");
      IVTEventColumn(labelled, out);
      Success(out)
  }

  /** Dropping the helper column keeps every row of the `event` column. */
  lemma IVTEventColumn(labelled: Frame, out: Frame)
    requires Rectangular(labelled) && "event" in labelled.columns
    requires out == DropAll(labelled, "above_threshold")
    ensures "event" in out.columns
    ensures forall i :: 0 <= i < |out.rows| ==>
      out.rows[i][IndexOf(out.columns, "event").value] == labelled.rows[i][IndexOf(labelled.columns, "event").value]
  {
    var ks := Kept(labelled.columns, "above_threshold");
    var e := IndexOf(labelled.columns, "event").value;
    KeptComplete(labelled.columns, "above_threshold", e);
    var t :| 0 <= t < |ks| && ks[t] == e;
    assert forall m :: 0 <= m < t ==> out.columns[m] != "event" by {
      forall m | 0 <= m < t ensures out.columns[m] != "event" {
        assert ks[m] < e;
        assert labelled.columns[..e][ks[m]] == labelled.columns[ks[m]];
      }
      assert forall m :: 0 <= m < t ==> out.columns[..t][m] == out.columns[m];
    }
    assert "event" !in out.columns[..t];
    IndexOfAt(out.columns, "event", t);
  }

  /** Writing `event` and dropping the helper column leaves every other column of a frame without repeated labels as it was. */
  lemma AssignThenDropKeeps(f: Frame, col: seq<Cell>, out: Frame)
    requires Rectangular(f) && Distinct(f.columns) && |col| == |f.rows|
    requires out == DropAll(Assign(f, "event", col), "above_threshold")
    ensures forall i, t :: 0 <= i < |out.rows| && 0 <= t < |out.columns| && out.columns[t] != "event" ==>
      out.columns[t] in f.columns && out.rows[i][t] == f.rows[i][IndexOf(f.columns, out.columns[t]).value]
  {
    var labelled := Assign(f, "event", col);
    var ks := Kept(labelled.columns, "above_threshold");
    assert out == Project(labelled, ks);
    var e := IndexOf(labelled.columns, "event").value;
    forall i, t | 0 <= i < |out.rows| && 0 <= t < |out.columns| && out.columns[t] != "event"
      ensures out.columns[t] in f.columns && out.rows[i][t] == f.rows[i][IndexOf(f.columns, out.columns[t]).value]
    {
      var k := ks[t];
      assert labelled.columns[k] == out.columns[t];
      assert k < |labelled.columns|;
      if "event" in f.columns {
        assert labelled.columns == f.columns;
      } else {
        assert labelled.columns == f.columns + ["event"];
        assert labelled.columns[|f.columns|] == "event";
      }
      assert k < |f.columns|;
      assert f.columns[k] == out.columns[t];
      assert k != e;
      assert out.rows[i][t] == labelled.rows[i][k];
      assert labelled.rows[i][k] == f.rows[i][k];
      IndexOfDistinct(f.columns, k);
    }
  }

  /** In a frame without repeated labels every column but `event` keeps its cells. */
  lemma IVTKeepsOtherColumns(f: Frame, threshold: real)
    requires Rectangular(f) && Distinct(f.columns) && IVT(f, threshold).Success?
    ensures var out := IVT(f, threshold).value;
      forall i, t :: 0 <= i < |out.rows| && 0 <= t < |out.columns| && out.columns[t] != "event" ==>
        out.columns[t] in f.columns && out.rows[i][t] == f.rows[i][IndexOf(f.columns, out.columns[t]).value]
  {
    var j := IndexOf(f.columns, "velAng").value;
    var labels := Labels(Column(f, j), threshold).value;
    AssignThenDropKeeps(f, labels, IVT(f, threshold).value);
  }

  /** `Detector.Blinker`: not implemented. */
  function Blinker(f: Frame): (r: Result<Frame>)
    ensures r.Failure? && r.error == NotImplementedError
  {
    Failure(NotImplementedError)
  }

  /** `Detector.IDT`: not implemented. */
  function IDT(f: Frame): (r: Result<Frame>)
    ensures r.Failure? && r.error == NotImplementedError
  {
    Failure(NotImplementedError)
  }

  /** `Detector.ANH`: not implemented. */
  function ANH(f: Frame): (r: Result<Frame>)
    ensures r.Failure? && r.error == NotImplementedError
  {
    Failure(NotImplementedError)
  }
}
