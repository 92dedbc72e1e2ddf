/**
 * Reductions over sequences of reals (sum, product, minimum, maximum, mean)
 * and the sorted list of distinct keys that pandas' groupby iterates over.
 */
module Seqs {

  /** Sum of a sequence, accumulated left to right as numpy does. */
  function Sum(s: seq<real>): real
    decreases |s|
  {
    if |s| == 0 then 0.0 else Sum(s[..|s| - 1]) + s[|s| - 1]
  }

  /** Product of a sequence. */
  function Product(s: seq<real>): real
    decreases |s|
  {
    if |s| == 0 then 1.0 else Product(s[..|s| - 1]) * s[|s| - 1]
  }

  function MinOf(s: seq<real>): (m: real)
    requires |s| > 0
    ensures m in s
    ensures forall i :: 0 <= i < |s| ==> m <= s[i]
    decreases |s|
  {
    if |s| == 1 then s[0]
    else
      var m' := MinOf(s[..|s| - 1]);
      assert s[..|s| - 1] + [s[|s| - 1]] == s;
      if s[|s| - 1] < m' then s[|s| - 1] else m'
  }

  function MaxOf(s: seq<real>): (m: real)
    requires |s| > 0
    ensures m in s
    ensures forall i :: 0 <= i < |s| ==> s[i] <= m
    decreases |s|
  {
    if |s| == 1 then s[0]
    else
      var m' := MaxOf(s[..|s| - 1]);
      assert s[..|s| - 1] + [s[|s| - 1]] == s;
      if s[|s| - 1] > m' then s[|s| - 1] else m'
  }

  lemma {:induction false} SumBetween(s: seq<real>, lo: real, hi: real)
    requires forall i :: 0 <= i < |s| ==> lo <= s[i] <= hi
    ensures |s| as real * lo <= Sum(s) <= |s| as real * hi
    decreases |s|
  {
    if |s| > 0 {
      var n := |s| - 1;
      SumBetween(s[..n], lo, hi);
      assert |s| as real * lo == n as real * lo + lo;
      assert |s| as real * hi == n as real * hi + hi;
    }
  }

  lemma {:induction false} SumNonNegative(s: seq<real>)
    requires forall i :: 0 <= i < |s| ==> 0.0 <= s[i]
    ensures 0.0 <= Sum(s)
    decreases |s|
  {
    if |s| > 0 {
      SumNonNegative(s[..|s| - 1]);
    }
  }

  lemma DivBetween(total: real, n: real, lo: real, hi: real)
    requires n > 0.0 && n * lo <= total <= n * hi
    ensures lo <= total / n <= hi
  {
    assert total / n - lo == (total - n * lo) / n;
    assert hi - total / n == (n * hi - total) / n;
  }

  /** The arithmetic mean (pandas Series.mean on a series without NaN). */
  function Mean(s: seq<real>): (m: real)
    requires |s| > 0
    ensures MinOf(s) <= m <= MaxOf(s)
  {
    var n := |s| as real;
    SumBetween(s, MinOf(s), MaxOf(s));
    DivBetween(Sum(s), n, MinOf(s), MaxOf(s));
    Sum(s) / n
  }

  /** Appending a term adds it to the sum. */
  lemma SumAppend(s: seq<real>, x: real)
    ensures Sum(s + [x]) == Sum(s) + x
  {
    assert (s + [x])[..|s|] == s;
  }

  lemma ProductAppend(s: seq<real>, x: real)
    ensures Product(s + [x]) == Product(s) * x
  {
    assert (s + [x])[..|s|] == s;
  }

  lemma {:induction false} ProductHasZero(s: seq<real>, k: nat)
    requires k < |s| && s[k] == 0.0
    ensures Product(s) == 0.0
    decreases |s|
  {
    if k < |s| - 1 {
      ProductHasZero(s[..|s| - 1], k);
    }
  }

  lemma {:induction false} SumAdd(s: seq<real>, t: seq<real>, u: seq<real>)
    requires |s| == |t| == |u|
    requires forall i :: 0 <= i < |s| ==> u[i] == s[i] + t[i]
    ensures Sum(u) == Sum(s) + Sum(t)
    decreases |s|
  {
    if |s| > 0 {
      var n := |s| - 1;
      SumAdd(s[..n], t[..n], u[..n]);
    }
  }

  lemma {:induction false} SumScale(s: seq<real>, c: real, u: seq<real>)
    requires |s| == |u|
    requires forall i :: 0 <= i < |s| ==> u[i] == s[i] * c
    ensures Sum(u) == Sum(s) * c
    decreases |s|
  {
    if |s| > 0 {
      var n := |s| - 1;
      SumScale(s[..n], c, u[..n]);
    }
  }

  lemma {:induction false} SumOfEqual(s: seq<real>, t: seq<real>)
    requires |s| == |t|
    requires forall i :: 0 <= i < |s| ==> s[i] == t[i]
    ensures Sum(s) == Sum(t)
  {
    assert s == t;
  }

  /** The elements of s that satisfy p, in their original order. */
  function Filter<T>(s: seq<T>, p: T -> bool): (r: seq<T>)
    ensures |r| <= |s|
    ensures forall i :: 0 <= i < |r| ==> r[i] in s && p(r[i])
    ensures forall i :: 0 <= i < |s| && p(s[i]) ==> s[i] in r
    decreases |s|
  {
    if |s| == 0 then []
    else (if p(s[0]) then [s[0]] else []) + Filter(s[1..], p)
  }

  function MinInt(s: seq<int>): (m: int)
    requires |s| > 0
    ensures m in s
    ensures forall i :: 0 <= i < |s| ==> m <= s[i]
    decreases |s|
  {
    if |s| == 1 then s[0]
    else
      var m' := MinInt(s[1..]);
      assert forall i :: 1 <= i < |s| ==> s[i] == s[1..][i - 1];
      if s[0] < m' then s[0] else m'
  }

  /**
   * The distinct values of s in increasing order: the order in which pandas'
   * groupby yields its groups.
   */
  function SortedDistinct(s: seq<int>): (r: seq<int>)
    ensures forall i, j :: 0 <= i < j < |r| ==> r[i] < r[j]
    ensures forall k :: k in r <==> k in s
    decreases |s|
  {
    if |s| == 0 then []
    else
      var m := MinInt(s);
      var p := x => x != m;
      var rest := Filter(s, p);
      FilterMembership(s, p);
      FilterShorter(s, p, m);
      var r := SortedDistinct(rest);
      assert forall j :: 0 <= j < |r| ==> m < r[j] by {
        forall j | 0 <= j < |r| ensures m < r[j] { assert r[j] in r; }
      }
      [m] + r
  }

  lemma FilterMembership<T>(s: seq<T>, p: T -> bool)
    ensures forall x :: x in Filter(s, p) <==> x in s && p(x)
  {
    var r := Filter(s, p);
    forall x ensures x in r <==> x in s && p(x) {
      if x in r {
        var i :| 0 <= i < |r| && r[i] == x;
      }
      if x in s && p(x) {
        var i :| 0 <= i < |s| && s[i] == x;
      }
    }
  }

  lemma {:induction false} FilterShorter<T>(s: seq<T>, p: T -> bool, x: T)
    requires x in s && !p(x)
    ensures |Filter(s, p)| < |s|
    decreases |s|
  {
    if s[0] != x {
      FilterShorter(s[1..], p, x);
    }
  }
}
