/**
 * The transition matrix of `Trajectory.get_transition_matrix`
 * (modules/python/AOI/Trajectory.py): consecutive AOI indices are counted
 * into a square matrix indexed [to][from], optionally divided by the column
 * sums with zero sums replaced by 1.
 */
module Transitions {
  import opened Common
  import opened Seqs

  /** A numpy 2-D array, row by row. */
  type Matrix = seq<seq<real>>

  predicate IsSquare(m: Matrix, n: nat) {
    |m| == n && forall i :: 0 <= i < n ==> |m[i]| == n
  }

  /** `np.zeros((n, n))`. */
  function Zeros(n: nat): (m: Matrix)
    ensures IsSquare(m, n)
    ensures forall i, j :: 0 <= i < n && 0 <= j < n ==> m[i][j] == 0.0
  {
    seq(n, _ => seq(n, _ => 0.0))
  }

  /** `m[i][j] += 1`. */
  function Bump(m: Matrix, n: nat, i: nat, j: nat): (r: Matrix)
    requires IsSquare(m, n) && i < n && j < n
    ensures IsSquare(r, n)
    ensures forall a, b :: 0 <= a < n && 0 <= b < n ==>
      r[a][b] == if a == i && b == j then m[a][b] + 1.0 else m[a][b]
  {
    m[i := m[i][j := m[i][j] + 1.0]]
  }

  /**
   * The counting loop indexes the matrix with every id of s, negative ids
   * counting from the end, as soon as s has a pair at all.
   */
  predicate Indexable(s: seq<int>, n: nat) {
    |s| < 2 || forall k :: 0 <= k < |s| ==> ValidPyIndex(s[k], n)
  }

  /** `zip(s[:-1], s[1:])`: the (from, to) moves of the sequence. */
  function Moves(s: seq<int>): (ps: seq<(int, int)>)
    ensures |ps| == if |s| == 0 then 0 else |s| - 1
    ensures forall k :: 0 <= k < |ps| ==> ps[k] == (s[k], s[k + 1])
  {
    if |s| < 2 then [] else seq(|s| - 1, k requires 0 <= k < |s| - 1 => (s[k], s[k + 1]))
  }

  /** The ids of s as the non-negative row numbers numpy reads them as. */
  function Rows(s: seq<int>, n: nat): (r: seq<int>)
    requires forall k :: 0 <= k < |s| ==> ValidPyIndex(s[k], n)
    ensures |r| == |s|
    ensures forall k :: 0 <= k < |s| ==> 0 <= r[k] < n && r[k] == PyIndex(s[k], n)
  {
    seq(|s|, k requires 0 <= k < |s| => PyIndex(s[k], n))
  }

  /** The count matrix after the loop has visited the moves of s. */
  function Counts(s: seq<int>, n: nat): (m: Matrix)
    requires Indexable(s, n)
    ensures IsSquare(m, n)
    decreases |s|
  {
    if |s| < 2 then Zeros(n)
    else
      var p := s[..|s| - 1];
      Bump(Counts(p, n), n, PyIndex(s[|s| - 1], n), PyIndex(s[|s| - 2], n))
  }

  lemma MovesOfPrefix(s: seq<int>)
    requires |s| >= 2
    ensures Moves(s) == Moves(s[..|s| - 1]) + [(s[|s| - 2], s[|s| - 1])]
  {
  }

  /**
   * Entry [i][j] counts the moves from row j to row i: counting is exactly the
   * multiplicity of the move (j, i) among the consecutive pairs.
   */
  lemma {:induction false} CountsAreMoves(s: seq<int>, n: nat, i: nat, j: nat)
    requires |s| >= 2 && Indexable(s, n) && i < n && j < n
    ensures Counts(s, n)[i][j] == multiset(Moves(Rows(s, n)))[(j, i)] as real
    decreases |s|
  {
    var p := s[..|s| - 1];
    MovesOfPrefix(Rows(s, n));
    assert Rows(s, n)[..|s| - 1] == Rows(p, n);
    if |s| == 2 {
      assert Moves(Rows(p, n)) == [];
    } else {
      CountsAreMoves(p, n, i, j);
    }
  }

  /** The sum of all entries. */
  function Total(m: Matrix): real {
    Sum(seq(|m|, i requires 0 <= i < |m| => Sum(m[i])))
  }

  lemma {:induction false} SumIncrement(s: seq<real>, j: nat)
    requires j < |s|
    ensures Sum(s[j := s[j] + 1.0]) == Sum(s) + 1.0
    decreases |s|
  {
    var n := |s| - 1;
    if j < n {
      SumIncrement(s[..n], j);
      assert s[j := s[j] + 1.0][..n] == s[..n][j := s[j] + 1.0];
    } else {
      assert s[j := s[j] + 1.0][..n] == s[..n];
    }
  }

  lemma BumpTotal(m: Matrix, n: nat, i: nat, j: nat)
    requires IsSquare(m, n) && i < n && j < n
    ensures Total(Bump(m, n, i, j)) == Total(m) + 1.0
  {
    var r := Bump(m, n, i, j);
    var rows := seq(|m|, a requires 0 <= a < |m| => Sum(m[a]));
    var rows' := seq(|r|, a requires 0 <= a < |r| => Sum(r[a]));
    SumIncrement(m[i], j);
    assert r[i] == m[i][j := m[i][j] + 1.0];
    assert rows' == rows[i := rows[i] + 1.0];
    SumIncrement(rows, i);
  }

  /** Each move adds exactly one: the counts total len(s) - 1, or 0 for an empty s. */
  lemma {:induction false} CountsTotal(s: seq<int>, n: nat)
    requires Indexable(s, n)
    ensures Total(Counts(s, n)) == |Moves(s)| as real
    decreases |s|
  {
    if |s| < 2 {
      var z := Zeros(n);
      var rows := seq(|z|, a requires 0 <= a < |z| => Sum(z[a]));
      forall a | 0 <= a < n ensures rows[a] == 0.0 {
        SumOfZeros(z[a]);
      }
      SumOfZeros(rows);
    } else {
      var p := s[..|s| - 1];
      CountsTotal(p, n);
      BumpTotal(Counts(p, n), n, PyIndex(s[|s| - 1], n), PyIndex(s[|s| - 2], n));
    }
  }

  lemma {:induction false} SumOfZeros(s: seq<real>)
    requires forall k :: 0 <= k < |s| ==> s[k] == 0.0
    ensures Sum(s) == 0.0
    decreases |s|
  {
    if |s| > 0 {
      SumOfZeros(s[..|s| - 1]);
    }
  }

  /** Column j of a square matrix. */
  function Column(m: Matrix, n: nat, j: nat): (c: seq<real>)
    requires IsSquare(m, n) && j < n
    ensures |c| == n && forall i :: 0 <= i < n ==> c[i] == m[i][j]
  {
    seq(n, i requires 0 <= i < n => m[i][j])
  }

  /** `sum(matrix)[j]`: adding the rows up elementwise gives the column sums. */
  function ColSum(m: Matrix, n: nat, j: nat): real
    requires IsSquare(m, n) && j < n
  {
    Sum(Column(m, n, j))
  }

  /** `colsums[colsums == 0] = 1`. */
  function Guard(c: real): (g: real)
    ensures g != 0.0
    ensures c != 0.0 ==> g == c
  {
    if c == 0.0 then 1.0 else c
  }

  /** `matrix /= colsums`: each entry divided by its column's guarded sum. */
  function ColumnNormalised(m: Matrix, n: nat): (r: Matrix)
    requires IsSquare(m, n)
    ensures IsSquare(r, n)
  {
    seq(n, i requires 0 <= i < n => seq(n, j requires 0 <= j < n => m[i][j] / Guard(ColSum(m, n, j))))
  }

  /** A column with a non-zero sum sums to 1 after normalisation. */
  lemma NormalisedColumnSumsToOne(m: Matrix, n: nat, j: nat)
    requires IsSquare(m, n) && j < n && ColSum(m, n, j) != 0.0
    ensures ColSum(ColumnNormalised(m, n), n, j) == 1.0
  {
    var c := ColSum(m, n, j);
    var r := ColumnNormalised(m, n);
    forall i | 0 <= i < n ensures Column(r, n, j)[i] == Column(m, n, j)[i] * (1.0 / c) {
      assert r[i][j] == m[i][j] / c;
    }
    SumScale(Column(m, n, j), 1.0 / c, Column(r, n, j));
  }

  /** A column that sums to 0 is divided by 1, so it keeps its entries; an all-zero column stays all-zero. */
  lemma ZeroColumnUnchanged(m: Matrix, n: nat, j: nat)
    requires IsSquare(m, n) && j < n && ColSum(m, n, j) == 0.0
    ensures forall i :: 0 <= i < n ==> ColumnNormalised(m, n)[i][j] == m[i][j]
  {
  }

  /** Counts are never negative. */
  lemma {:induction false} CountsNonNegative(s: seq<int>, n: nat)
    requires Indexable(s, n)
    ensures forall i, j :: 0 <= i < n && 0 <= j < n ==> Counts(s, n)[i][j] >= 0.0
    decreases |s|
  {
    if |s| >= 2 {
      CountsNonNegative(s[..|s| - 1], n);
    }
  }

  /**
   * The whole of get_transition_matrix after the AOI sequence is known. The
   * built-in `sum` over the rows of a 0-by-0 matrix is the int 0, so the
   * zero guard `colsums[colsums == 0] = 1` is an item assignment on an int.
   */
  function TransitionMatrixOf(s: seq<int>, n: nat, toProbabilities: bool): (r: Result<Matrix>)
    ensures r.Success? <==> Indexable(s, n) && !(toProbabilities && n == 0)
    ensures r.Failure? ==> r.error == if Indexable(s, n) then TypeError else IndexError
    ensures r.Success? ==> IsSquare(r.value, n)
    ensures r.Success? && !toProbabilities ==> r.value == Counts(s, n)
  {
    if !Indexable(s, n) then Failure(IndexError)
    else if toProbabilities && n == 0 then Failure(TypeError)
    else if toProbabilities then Success(ColumnNormalised(Counts(s, n), n))
    else Success(Counts(s, n))
  }

  /** The counting loop over a zero-initialised array. */
  method CountTransitions(s: seq<int>, n: nat) returns (r: Result<Matrix>)
    ensures Indexable(s, n) ==> r == Success(Counts(s, n))
    ensures !Indexable(s, n) ==> r == Failure(IndexError)
  {
    var m := new real[n, n]((_, _) => 0.0);
    if |s| >= 2 {
      for k := 1 to |s|
        invariant Indexable(s[..k], n)
        invariant forall a, b :: 0 <= a < n && 0 <= b < n ==> m[a, b] == Counts(s[..k], n)[a][b]
      {
        var from, to := s[k - 1], s[k];
        if !ValidPyIndex(from, n) || !ValidPyIndex(to, n) {
          return Failure(IndexError);
        }
        var i, j := PyIndex(to, n), PyIndex(from, n);
        CountsStep(s, n, k);
        m[i, j] := m[i, j] + 1.0;
      }
      assert s[..|s|] == s;
    } else {
      assert forall a, b :: 0 <= a < n && 0 <= b < n ==> m[a, b] == Counts(s, n)[a][b];
    }
    var counts := ToMatrix(m, n);
    if Indexable(s, n) {
      SameEntries(counts, Counts(s, n), n);
    }
    r := Success(counts);
  }

  /** One more step of the counting loop: the prefix stays indexable and its count matrix gains the move into s[k]. */
  lemma CountsStep(s: seq<int>, n: nat, k: nat)
    requires 1 <= k < |s| && Indexable(s[..k], n)
    requires ValidPyIndex(s[k - 1], n) && ValidPyIndex(s[k], n)
    ensures Indexable(s[..k + 1], n)
    ensures Counts(s[..k + 1], n) == Bump(Counts(s[..k], n), n, PyIndex(s[k], n), PyIndex(s[k - 1], n))
  {
    var p := s[..k + 1];
    assert p[..k] == s[..k];
    assert forall q :: 0 <= q < k ==> p[q] == s[..k][q];
  }

  /** Square matrices with the same entries are equal. */
  lemma SameEntries(a: Matrix, b: Matrix, n: nat)
    requires IsSquare(a, n) && IsSquare(b, n)
    requires forall i, j :: 0 <= i < n && 0 <= j < n ==> a[i][j] == b[i][j]
    ensures a == b
  {
    forall i | 0 <= i < n ensures a[i] == b[i] {
    }
  }

  /** The contents of an n-by-n array. */
  function ToMatrix(m: array2<real>, n: nat): (r: Matrix)
    requires m.Length0 == n && m.Length1 == n
    reads m
    ensures IsSquare(r, n)
    ensures forall a, b :: 0 <= a < n && 0 <= b < n ==> r[a][b] == m[a, b]
  {
    seq(n, a requires 0 <= a < n reads m => seq(n, b requires 0 <= b < n reads m => m[a, b]))
  }

  /** `colsums = sum(matrix)` followed by `colsums[colsums == 0] = 1`. */
  method GuardedColumnSums(c: Matrix, n: nat) returns (g: seq<real>)
    requires IsSquare(c, n)
    ensures |g| == n
    ensures forall b :: 0 <= b < n ==> g[b] == Guard(ColSum(c, n, b))
  {
    var colsums := new real[n];
    for j := 0 to n
      invariant forall b :: 0 <= b < j ==> colsums[b] == ColSum(c, n, b)
    {
      var total := 0.0;
      for i := 0 to n
        invariant total == Sum(Column(c, n, j)[..i])
      {
        assert Column(c, n, j)[..i + 1][..i] == Column(c, n, j)[..i];
        total := total + c[i][j];
      }
      assert Column(c, n, j)[..n] == Column(c, n, j);
      colsums[j] := total;
    }
    for j := 0 to n
      invariant forall b :: 0 <= b < n ==> colsums[b] == if b < j then Guard(ColSum(c, n, b)) else ColSum(c, n, b)
    {
      if colsums[j] == 0.0 {
        colsums[j] := 1.0;
      }
    }
    g := colsums[..];
  }

  /** `matrix /= colsums`, in place on a copy of the count matrix. */
  method NormaliseColumns(c: Matrix, n: nat) returns (r: Matrix)
    requires IsSquare(c, n)
    ensures r == ColumnNormalised(c, n)
  {
    var g := GuardedColumnSums(c, n);
    var m := new real[n, n]((a, b) requires 0 <= a < n && 0 <= b < n => c[a][b]);
    for i := 0 to n
      invariant forall a, b :: 0 <= a < n && 0 <= b < n ==>
        m[a, b] == if a < i then c[a][b] / g[b] else c[a][b]
    {
      for j := 0 to n
        invariant forall a, b :: 0 <= a < n && 0 <= b < n ==>
          m[a, b] == if a < i || (a == i && b < j) then c[a][b] / g[b] else c[a][b]
      {
        m[i, j] := m[i, j] / g[j];
      }
    }
    r := ToMatrix(m, n);
    SameEntries(r, ColumnNormalised(c, n), n);
  }

  /** `get_transition_matrix` from the AOI index sequence on. */
  method BuildTransitionMatrix(s: seq<int>, n: nat, toProbabilities: bool) returns (r: Result<Matrix>)
    ensures r == TransitionMatrixOf(s, n, toProbabilities)
  {
    r := CountTransitions(s, n);
    if r.Success? && toProbabilities && n == 0 {
      r := Failure(TypeError);
    } else if r.Success? && toProbabilities {
      var p := NormaliseColumns(r.value, n);
      r := Success(p);
    }
  }

  /**
   * The AOI index sequence: with `empty_aoi` unset only ids strictly below
   * cells survive, then every id is shifted down by one.
   */
  function AoiIndices(aois: seq<int>, cells: nat, emptyAoi: bool): (s: seq<int>)
    ensures |s| <= |aois|
  {
    var kept := if emptyAoi then aois else Filter(aois, (a: int) => a < cells);
    seq(|kept|, k requires 0 <= k < |kept| => kept[k] - 1)
  }

  /** `n_aois = cells + int(empty_aoi)`. */
  function MatrixSize(cells: nat, emptyAoi: bool): nat {
    cells + if emptyAoi then 1 else 0
  }

  /**
   * Without `empty_aoi` an id survives iff it is below cells: the last grid
   * cell (id cells) is dropped together with the catch-all (id cells + 1).
   */
  lemma FilterDropsLastCell(aois: seq<int>, cells: nat)
    ensures forall a :: a + 1 in aois && a + 1 < cells <==> a in AoiIndices(aois, cells, false)
  {
    var p := (a: int) => a < cells;
    var kept := Filter(aois, p);
    FilterMembership(aois, p);
    forall a ensures a + 1 in aois && a + 1 < cells <==> a in AoiIndices(aois, cells, false) {
      var s := AoiIndices(aois, cells, false);
      if a in s {
        var k :| 0 <= k < |s| && s[k] == a;
        assert kept[k] == a + 1;
      }
      if a + 1 in aois && a + 1 < cells {
        assert a + 1 in kept;
        var k :| 0 <= k < |kept| && kept[k] == a + 1;
        assert s[k] == a;
      }
    }
  }

  /**
   * AOI ids from the grid (1 .. cells + 1) never make the counting loop fail:
   * with `empty_aoi` they index a (cells + 1)-square matrix, and without it
   * the survivors index a cells-square one.
   */
  lemma GridIdsIndexable(aois: seq<int>, cells: nat, emptyAoi: bool)
    requires forall k :: 0 <= k < |aois| ==> 1 <= aois[k] <= cells + 1
    ensures Indexable(AoiIndices(aois, cells, emptyAoi), MatrixSize(cells, emptyAoi))
  {
    if !emptyAoi {
      var p := (a: int) => a < cells;
      var kept := Filter(aois, p);
      forall k | 0 <= k < |kept| ensures 1 <= kept[k] < cells {
        assert kept[k] in aois;
      }
    }
  }

  /**
   * With no cells and no empty AOI every id is filtered out and the matrix is
   * 0-by-0: the raw counts are the empty matrix, and asking for
   * probabilities is a TypeError.
   */
  lemma NoCellsNoProbabilities(aois: seq<int>)
    requires forall k :: 0 <= k < |aois| ==> aois[k] >= 0
    ensures TransitionMatrixOf(AoiIndices(aois, 0, false), MatrixSize(0, false), true) == Failure(TypeError)
    ensures TransitionMatrixOf(AoiIndices(aois, 0, false), MatrixSize(0, false), false) == Success([])
  {
  }

  /** An AOI id of 0, which no cell claimed, becomes index -1 and lands in the last row and column. */
  lemma NoAoiWrapsToLast(n: nat)
    requires n > 0
    ensures ValidPyIndex(0 - 1, n) && PyIndex(0 - 1, n) == n - 1
  {
  }
}
