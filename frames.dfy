/**
 * A pandas data frame as the preprocessing code uses it: a list of column
 * labels and rows of cells, positionally. Labels may repeat, as in pandas;
 * a read or a write of one labelled column uses the first column with
 * that label.
 */
module Frames {
  import opened Common

  /** A cell: a number, a string, or a missing value (NaN). */
  datatype Cell = Value(v: real) | Text(s: string) | Missing

  datatype Frame = Frame(columns: seq<string>, rows: seq<seq<Cell>>)

  /** Every row has one cell per column. */
  predicate Rectangular(f: Frame) {
    forall i :: 0 <= i < |f.rows| ==> |f.rows[i]| == |f.columns|
  }

  predicate Distinct(s: seq<string>) {
    forall i, j :: 0 <= i < j < |s| ==> s[i] != s[j]
  }

  /** The position of the first column labelled `name`. */
  function IndexOf(cols: seq<string>, name: string): (r: Option<nat>)
    ensures r.None? <==> name !in cols
    ensures r.Some? ==> r.value < |cols| && cols[r.value] == name && name !in cols[..r.value]
  {
    if |cols| == 0 then None
    else if cols[0] == name then Some(0)
    else
      match IndexOf(cols[1..], name)
      case None => None
      case Some(k) =>
        assert cols[..k + 1] == [cols[0]] + cols[1..][..k];
        Some(k + 1)
  }

  /** The first column of a label is the one no earlier column carries. */
  lemma IndexOfAt(cols: seq<string>, name: string, k: nat)
    requires k < |cols| && cols[k] == name && name !in cols[..k]
    ensures IndexOf(cols, name) == Some(k)
  {
    var j := IndexOf(cols, name).value;
    assert forall m :: 0 <= m < k ==> cols[m] != name by {
      assert forall m :: 0 <= m < k ==> cols[..k][m] == cols[m];
    }
    assert forall m :: 0 <= m < j ==> cols[m] != name by {
      assert forall m :: 0 <= m < j ==> cols[..j][m] == cols[m];
    }
  }

  /** In a frame without repeated labels the first column of a label is its only one. */
  lemma IndexOfDistinct(cols: seq<string>, k: nat)
    requires Distinct(cols) && k < |cols|
    ensures IndexOf(cols, cols[k]) == Some(k)
  {
  }

  function Column(f: Frame, j: nat): (col: seq<Cell>)
    requires Rectangular(f) && j < |f.columns|
    ensures |col| == |f.rows| && forall i :: 0 <= i < |f.rows| ==> col[i] == f.rows[i][j]
  {
    seq(|f.rows|, i requires 0 <= i < |f.rows| => f.rows[i][j])
  }

  /** The frame with column `j` replaced by `col`. */
  function SetColumn(f: Frame, j: nat, col: seq<Cell>): (g: Frame)
    requires Rectangular(f) && j < |f.columns| && |col| == |f.rows|
    ensures Rectangular(g) && g.columns == f.columns && |g.rows| == |f.rows|
    ensures forall i, k :: 0 <= i < |g.rows| && 0 <= k < |g.columns| ==>
      g.rows[i][k] == if k == j then col[i] else f.rows[i][k]
  {
    Frame(f.columns, seq(|f.rows|, i requires 0 <= i < |f.rows| => f.rows[i][j := col[i]]))
  }

  /** `df[name] = col`: the first column labelled `name` is overwritten, or a column is appended. */
  function Assign(f: Frame, name: string, col: seq<Cell>): (g: Frame)
    requires Rectangular(f) && |col| == |f.rows|
    ensures Rectangular(g) && |g.rows| == |f.rows|
    ensures g.columns == if name in f.columns then f.columns else f.columns + [name]
    ensures IndexOf(g.columns, name).Some?
    ensures forall i :: 0 <= i < |g.rows| ==> g.rows[i][IndexOf(g.columns, name).value] == col[i]
    ensures forall i, k :: 0 <= i < |g.rows| && 0 <= k < |f.columns| && k != IndexOf(g.columns, name).value ==>
      g.rows[i][k] == f.rows[i][k]
  {
    match IndexOf(f.columns, name)
    case Some(j) => SetColumn(f, j, col)
    case None =>
      var g := Frame(f.columns + [name], seq(|f.rows|, i requires 0 <= i < |f.rows| => f.rows[i] + [col[i]]));
      assert IndexOf(g.columns, name) == Some(|f.columns|) by {
        assert g.columns[..|f.columns|] == f.columns;
      }
      g
  }

  /** The positions, in order, whose label satisfies `keep`. */
  function Where(cols: seq<string>, keep: string -> bool): (ks: seq<nat>)
    ensures forall t :: 0 <= t < |ks| ==> ks[t] < |cols| && keep(cols[ks[t]])
    ensures forall s, t :: 0 <= s < t < |ks| ==> ks[s] < ks[t]
    decreases |cols|
  {
    if |cols| == 0 then []
    else
      var init := Where(cols[..|cols| - 1], keep);
      if keep(cols[|cols| - 1]) then init + [|cols| - 1] else init
  }

  /** Every position whose label satisfies `keep` is listed. */
  lemma {:induction false} WhereComplete(cols: seq<string>, keep: string -> bool, k: nat)
    requires k < |cols| && keep(cols[k])
    ensures k in Where(cols, keep)
    decreases |cols|
  {
    var n := |cols| - 1;
    if k < n {
      WhereComplete(cols[..n], keep, k);
    }
  }

  /** Without `keep` true of a label, nothing is listed. */
  lemma {:induction false} WhereNone(cols: seq<string>, keep: string -> bool)
    requires forall k :: 0 <= k < |cols| ==> !keep(cols[k])
    ensures Where(cols, keep) == []
    decreases |cols|
  {
    if |cols| > 0 {
      WhereNone(cols[..|cols| - 1], keep);
    }
  }

  /** The positions, in order, whose label is not `name`. */
  function Kept(cols: seq<string>, name: string): (ks: seq<nat>)
    ensures forall t :: 0 <= t < |ks| ==> ks[t] < |cols| && cols[ks[t]] != name
    ensures forall s, t :: 0 <= s < t < |ks| ==> ks[s] < ks[t]
  {
    Where(cols, (c: string) => c != name)
  }

  /** Every position whose label is not `name` is kept. */
  lemma KeptComplete(cols: seq<string>, name: string, k: nat)
    requires k < |cols| && cols[k] != name
    ensures k in Kept(cols, name)
  {
    WhereComplete(cols, (c: string) => c != name, k);
  }

  /** The frame made of the columns at positions `ks`, in that order. */
  function Project(f: Frame, ks: seq<nat>): (g: Frame)
    requires Rectangular(f) && forall t :: 0 <= t < |ks| ==> ks[t] < |f.columns|
    ensures Rectangular(g) && |g.rows| == |f.rows| && |g.columns| == |ks|
    ensures forall t :: 0 <= t < |ks| ==> g.columns[t] == f.columns[ks[t]]
    ensures forall i, t :: 0 <= i < |f.rows| && 0 <= t < |ks| ==> g.rows[i][t] == f.rows[i][ks[t]]
  {
    Frame(seq(|ks|, t requires 0 <= t < |ks| => f.columns[ks[t]]),
          seq(|f.rows|, i requires 0 <= i < |f.rows| => seq(|ks|, t requires 0 <= t < |ks| => f.rows[i][ks[t]])))
  }

  /** Dropping every column labelled `name` (no error when there is none). */
  function DropAll(f: Frame, name: string): (g: Frame)
    requires Rectangular(f)
    ensures Rectangular(g) && |g.rows| == |f.rows| && name !in g.columns
    ensures forall c :: c in g.columns <==> c in f.columns && c != name
  {
    var ks := Kept(f.columns, name);
    var g := Project(f, ks);
    forall c | c in f.columns && c != name ensures c in g.columns {
      var k :| 0 <= k < |f.columns| && f.columns[k] == c;
      KeptComplete(f.columns, name, k);
      var t :| 0 <= t < |ks| && ks[t] == k;
      assert g.columns[t] == c;
    }
    g
  }

  /** `df.drop(name, 1)`: KeyError when no column carries the label. */
  function Drop(f: Frame, name: string): (r: Result<Frame>)
    requires Rectangular(f)
    ensures r.Failure? <==> name !in f.columns
    ensures r.Failure? ==> r.error == KeyError
    ensures r.Success? ==> r.value == DropAll(f, name)
  {
    if name in f.columns then Success(DropAll(f, name)) else Failure(KeyError)
  }

  /** A present value: anything but a missing one. */
  predicate Present(c: Cell) {
    !c.Missing?
  }

  /**
   * `fillna(method='bfill')` on one column: a missing cell takes the next
   * present value below it, when there is one.
   */
  function BFill(s: seq<Cell>): (r: seq<Cell>)
    ensures |r| == |s|
    ensures forall i :: 0 <= i < |s| && Present(s[i]) ==> r[i] == s[i]
    decreases |s|
  {
    if |s| == 0 then []
    else
      var rest := BFill(s[1..]);
      assert forall i :: 1 <= i < |s| && Present(s[i]) ==> rest[i - 1] == s[i] by {
        assert forall i :: 1 <= i < |s| ==> s[1..][i - 1] == s[i];
      }
      [if s[0].Missing? && |rest| > 0 then rest[0] else s[0]] + rest
  }

  /** `fillna(method='ffill')`: a missing cell takes the last present value above it. */
  function FFill(s: seq<Cell>): (r: seq<Cell>)
    ensures |r| == |s|
    ensures forall i :: 0 <= i < |s| && Present(s[i]) ==> r[i] == s[i]
    decreases |s|
  {
    if |s| == 0 then []
    else
      var init := FFill(s[..|s| - 1]);
      init + [if s[|s| - 1].Missing? && |init| > 0 then init[|init| - 1] else s[|s| - 1]]
  }

  /** After a back-fill a cell is missing exactly when nothing at or below it is present. */
  lemma {:induction false} BFillMissing(s: seq<Cell>, i: nat)
    requires i < |s|
    ensures BFill(s)[i].Missing? <==> forall j :: i <= j < |s| ==> !Present(s[j])
    decreases |s|
  {
    var rest := BFill(s[1..]);
    if i > 0 {
      BFillMissing(s[1..], i - 1);
      assert BFill(s)[i] == rest[i - 1];
      assert forall j :: i <= j < |s| ==> s[j] == s[1..][j - 1];
      if !(forall j :: i <= j < |s| ==> !Present(s[j])) {
        var j :| i <= j < |s| && Present(s[j]);
        assert Present(s[1..][j - 1]);
      }
    } else if |s| > 1 {
      BFillMissing(s[1..], 0);
      assert forall j :: 1 <= j < |s| ==> s[j] == s[1..][j - 1];
      if !(forall j :: 0 <= j < |s| ==> !Present(s[j])) {
        var j :| 0 <= j < |s| && Present(s[j]);
        if j > 0 {
          assert Present(s[1..][j - 1]);
        }
      }
    }
  }

  /** After a forward fill a cell is missing exactly when nothing at or above it is present. */
  lemma {:induction false} FFillMissing(s: seq<Cell>, i: nat)
    requires i < |s|
    ensures FFill(s)[i].Missing? <==> forall j :: 0 <= j <= i ==> !Present(s[j])
    decreases |s|
  {
    var n := |s| - 1;
    var init := FFill(s[..n]);
    if i < n {
      FFillMissing(s[..n], i);
      assert FFill(s)[i] == init[i];
      assert forall j :: 0 <= j <= i ==> s[j] == s[..n][j];
    } else if n > 0 {
      FFillMissing(s[..n], n - 1);
      assert forall j :: 0 <= j < n ==> s[j] == s[..n][j];
    }
  }

  /** `bfill` then `ffill`: no cell is left missing in a column with a present value, and present values stay. */
  function FillGaps(s: seq<Cell>): (r: seq<Cell>)
    ensures |r| == |s|
    ensures forall i :: 0 <= i < |s| && Present(s[i]) ==> r[i] == s[i]
  {
    FFill(BFill(s))
  }

  lemma FillGapsLeavesNoMissing(s: seq<Cell>, k: nat)
    requires k < |s| && Present(s[k])
    ensures forall i :: 0 <= i < |s| ==> Present(FillGaps(s)[i])
  {
    var b := BFill(s);
    forall i | 0 <= i < |s| ensures Present(FillGaps(s)[i]) {
      if i <= k {
        BFillMissing(s, i);
        FFillMissing(b, i);
        assert Present(b[i]);
      } else {
        BFillMissing(s, k);
        FFillMissing(b, i);
        assert Present(b[k]);
      }
    }
  }

  /** A column with no present value stays entirely missing. */
  lemma FillGapsOfEmptyColumn(s: seq<Cell>)
    requires forall i :: 0 <= i < |s| ==> !Present(s[i])
    ensures forall i :: 0 <= i < |s| ==> !Present(FillGaps(s)[i])
  {
    var b := BFill(s);
    forall i | 0 <= i < |s| ensures !Present(FillGaps(s)[i]) {
      forall j | 0 <= j <= i ensures !Present(b[j]) {
        BFillMissing(s, j);
      }
      FFillMissing(b, i);
    }
  }

  /** The frame with its columns replaced by `cols`, one list of cells per column. */
  function Rebuild(f: Frame, cols: seq<seq<Cell>>): (g: Frame)
    requires |cols| == |f.columns| && forall k :: 0 <= k < |cols| ==> |cols[k]| == |f.rows|
    ensures Rectangular(g) && g.columns == f.columns && |g.rows| == |f.rows|
    ensures forall k :: 0 <= k < |f.columns| ==> Column(g, k) == cols[k]
  {
    var g := Frame(f.columns, seq(|f.rows|, i requires 0 <= i < |f.rows| =>
      seq(|f.columns|, k requires 0 <= k < |f.columns| => cols[k][i])));
    assert forall k :: 0 <= k < |f.columns| ==> Column(g, k) == cols[k];
    g
  }

  /** `df.fillna(method='bfill').fillna(method='ffill')`, column by column. */
  function FillFrame(f: Frame): (g: Frame)
    requires Rectangular(f)
    ensures Rectangular(g) && g.columns == f.columns && |g.rows| == |f.rows|
    ensures forall k :: 0 <= k < |f.columns| ==> Column(g, k) == FillGaps(Column(f, k))
  {
    Rebuild(f, seq(|f.columns|, k requires 0 <= k < |f.columns| => FillGaps(Column(f, k))))
  }
}
