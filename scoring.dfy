/**
 * Cross-trajectory scoring of modules/python/eyevents/trajectories.py and
 * modules/python/eyevents/extended_trajectories.py: the directory suffix,
 * the argument guards, the file and short-name lists, the likelihood and
 * log-likelihood of one trajectory's counts under another's probabilities,
 * and the square tables of them. The two files share this code; the
 * directory listing is the parameter `listing`.
 */
module Scoring {
  import opened Common
  import opened Seqs
  import opened Transitions
  import opened EyeventsUtils

  // ------------------------------------------------------------ directory

  predicate EndsWithSeparator(d: string) {
    |d| > 0 && (d[|d| - 1] == '/' || d[|d| - 1] == '\\')
  }

  /** `if directory[-1] not in ['/', '\\']: directory += '/'`; an empty string has no `[-1]`. */
  function NormaliseDirectory(d: string): (r: Result<string>)
    ensures r.Failure? <==> |d| == 0
    ensures r.Failure? ==> r.error == IndexError
    ensures r.Success? ==> EndsWithSeparator(r.value) && d <= r.value
    ensures r.Success? && EndsWithSeparator(d) ==> r.value == d
    ensures r.Success? && !EndsWithSeparator(d) ==> r.value == d + "/"
  {
    if |d| == 0 then Failure(IndexError)
    else if d[|d| - 1] in ['/', '\\'] then Success(d)
    else Success(d + "/")
  }

  /** Normalising twice is normalising once. */
  lemma NormaliseIdempotent(d: string)
    requires |d| > 0
    ensures NormaliseDirectory(NormaliseDirectory(d).value) == NormaliseDirectory(d)
  {
  }

  /** `files` and `shortnames`: the listing under the directory, and the short name of each. */
  datatype Listing = Listing(files: seq<string>, shortnames: seq<string>)

  function ListingOf(directory: string, listing: seq<string>): (r: Listing)
    ensures |r.files| == |listing| && |r.shortnames| == |listing|
    ensures forall k :: 0 <= k < |listing| ==> r.files[k] == directory + listing[k]
    ensures forall k :: 0 <= k < |listing| ==> r.shortnames[k] == GetShortname(r.files[k])
  {
    var files := seq(|listing|, k requires 0 <= k < |listing| => directory + listing[k]);
    Listing(files, seq(|listing|, k requires 0 <= k < |listing| => GetShortname(files[k])))
  }

  /** `Trajectories(directory, ...)` up to the construction of the trajectories. */
  function TrajectoriesListing(directory: string, listing: seq<string>): (r: Result<Listing>)
    ensures r.Failure? <==> |directory| == 0
    ensures r.Success? ==> r.value == ListingOf(NormaliseDirectory(directory).value, listing)
  {
    var d :- NormaliseDirectory(directory);
    Success(ListingOf(d, listing))
  }

  /**
   * The guards of `ExtendedTrajectories(directory, settings, stimulus_pathes)`:
   * no stimulus list raises TypeError before the directory is looked at;
   * a stimulus count other than the file count raises ValueError before
   * any trajectory is built. The result pairs each file with its stimulus.
   */
  function ExtendedListing(directory: string, stimulusPathes: Option<seq<string>>, listing: seq<string>)
    : (r: Result<seq<(string, string)>>)
    ensures stimulusPathes.None? ==> r == Failure(TypeError)
    ensures stimulusPathes.Some? && |directory| == 0 ==> r == Failure(IndexError)
    ensures stimulusPathes.Some? && |directory| > 0 && |stimulusPathes.value| != |listing| ==> r == Failure(ValueError)
    ensures r.Success? <==> stimulusPathes.Some? && |directory| > 0 && |stimulusPathes.value| == |listing|
    ensures r.Success? ==> var files := ListingOf(NormaliseDirectory(directory).value, listing).files;
      |r.value| == |listing| && forall k :: 0 <= k < |listing| ==> r.value[k] == (files[k], stimulusPathes.value[k])
  {
    if stimulusPathes.None? then Failure(TypeError)
    else
      var l :- TrajectoriesListing(directory, listing);
      var stims := stimulusPathes.value;
      if |stims| != |l.shortnames| then Failure(ValueError)
      else Success(seq(|listing|, k requires 0 <= k < |listing| => (l.files[k], stims[k])))
  }

  /** A listed `name.ext` under a plain directory written without its trailing `/` has the short name `name`. */
  lemma ShortnameOfListedFile(directory: string, listing: seq<string>, k: nat, name: string, ext: string)
    requires |directory| > 0 && directory[|directory| - 1] != '/'
    requires '.' !in directory && '\\' !in directory
    requires k < |listing| && listing[k] == name + "." + ext
    requires '.' !in name && '\\' !in name && '/' !in name && '.' !in ext
    ensures TrajectoriesListing(directory, listing).value.shortnames[k] == name
  {
    assert directory[|directory| - 1] != '\\';
    var files := TrajectoriesListing(directory, listing).value.files;
    assert files[k] == directory + "/" + name + "." + ext;
    ShortnameOfFile(directory, name, ext);
  }

  // ---------------------------------------------------- likelihood scores

  predicate SameShape(a: Matrix, b: Matrix) {
    |a| == |b| && forall i :: 0 <= i < |a| ==> |a[i]| == |b[i]|
  }

  /** `a * b` elementwise. */
  function Products(a: Matrix, b: Matrix): (p: Matrix)
    requires SameShape(a, b)
    ensures SameShape(p, a)
    ensures forall i, j :: 0 <= i < |a| && 0 <= j < |a[i]| ==> p[i][j] == a[i][j] * b[i][j]
  {
    seq(|a|, i requires 0 <= i < |a| => seq(|a[i]|, j requires 0 <= j < |a[i]| => a[i][j] * b[i][j]))
  }

  /** The cells row after row, as numpy reduces a whole array. */
  function Flatten(m: Matrix): (f: seq<real>)
    decreases |m|
  {
    if |m| == 0 then [] else Flatten(m[..|m| - 1]) + m[|m| - 1]
  }

  /** Every cell occurs in the flattened array. */
  lemma {:induction false} FlattenHas(m: Matrix, i: nat, j: nat)
    requires i < |m| && j < |m[i]|
    ensures m[i][j] in Flatten(m)
    decreases |m|
  {
    var n := |m| - 1;
    if i < n {
      FlattenHas(m[..n], i, j);
      assert m[..n][i] == m[i];
    } else {
      assert Flatten(m)[|Flatten(m[..n])| + j] == m[i][j];
    }
  }

  /** Matrices that agree cell by cell flatten alike. */
  lemma {:induction false} FlattenSame(a: Matrix, b: Matrix)
    requires SameShape(a, b)
    requires forall i, j :: 0 <= i < |a| && 0 <= j < |a[i]| ==> a[i][j] == b[i][j]
    ensures Flatten(a) == Flatten(b)
    decreases |a|
  {
    if |a| > 0 {
      var n := |a| - 1;
      assert forall i :: 0 <= i < n ==> a[..n][i] == a[i] && b[..n][i] == b[i];
      FlattenSame(a[..n], b[..n]);
      assert a[n] == b[n];
    }
  }

  /** A product with a zero factor is zero. */
  lemma ProductOfZeroMember(s: seq<real>)
    requires 0.0 in s
    ensures Product(s) == 0.0
  {
    var k :| 0 <= k < |s| && s[k] == 0.0;
    ProductHasZero(s, k);
  }

  /** `np.product(transitions * probabilities)`; arrays of different shapes raise ValueError. */
  function Likelihood(transitions: Matrix, probabilities: Matrix): (r: Result<real>)
    ensures r.Success? <==> SameShape(transitions, probabilities)
    ensures r.Failure? ==> r.error == ValueError
  {
    if !SameShape(transitions, probabilities) then Failure(ValueError)
    else Success(Product(Flatten(Products(transitions, probabilities))))
  }

  /** `np.sum(transitions * log_probabilities)`. */
  function LogLikelihood(transitions: Matrix, logProbabilities: Matrix): (r: Result<real>)
    ensures r.Success? <==> SameShape(transitions, logProbabilities)
    ensures r.Failure? ==> r.error == ValueError
  {
    if !SameShape(transitions, logProbabilities) then Failure(ValueError)
    else Success(Sum(Flatten(Products(transitions, logProbabilities))))
  }

  /** A single cell with no count, or with probability zero, makes the whole likelihood zero. */
  lemma LikelihoodZeroCell(transitions: Matrix, probabilities: Matrix, i: nat, j: nat)
    requires SameShape(transitions, probabilities) && i < |transitions| && j < |transitions[i]|
    requires transitions[i][j] == 0.0 || probabilities[i][j] == 0.0
    ensures Likelihood(transitions, probabilities) == Success(0.0)
  {
    var p := Products(transitions, probabilities);
    assert p[i][j] == 0.0;
    FlattenHas(p, i, j);
    ProductOfZeroMember(Flatten(p));
  }

  /**
   * Cells with no count contribute nothing: log-probabilities that differ
   * only where the count is zero give the same log-likelihood, and
   * likewise for the likelihood.
   */
  lemma ZeroCountsContributeNothing(transitions: Matrix, p: Matrix, q: Matrix)
    requires SameShape(transitions, p) && SameShape(transitions, q)
    requires forall i, j :: 0 <= i < |transitions| && 0 <= j < |transitions[i]| && transitions[i][j] != 0.0 ==> p[i][j] == q[i][j]
    ensures LogLikelihood(transitions, p) == LogLikelihood(transitions, q)
    ensures Likelihood(transitions, p) == Likelihood(transitions, q)
  {
    FlattenSame(Products(transitions, p), Products(transitions, q));
  }

  // -------------------------------------------------------------- tables

  /** What the tables read of one trajectory. */
  datatype Scores = Scores(
    transitionCount: Matrix, transitionProbability: Matrix, transitionLogProbability: Matrix, entropy: real)

  /** Whether the pair (row, col) of the tables can be scored. */
  predicate Compatible(row: Scores, col: Scores) {
    SameShape(row.transitionCount, col.transitionProbability) &&
    SameShape(row.transitionCount, col.transitionLogProbability)
  }

  /**
   * The nested loops over `shortnames`: entry (r, c) scores the counts of
   * trajectory r under the (log-)probabilities of trajectory c. The first
   * pair that cannot be scored raises ValueError.
   */
  method PairwiseTables(shortnames: seq<string>, trajectories: map<string, Scores>) returns (r: Result<(Matrix, Matrix)>)
    requires forall k :: 0 <= k < |shortnames| ==> shortnames[k] in trajectories
    ensures r.Success? <==> forall a, b :: 0 <= a < |shortnames| && 0 <= b < |shortnames| ==>
      Compatible(trajectories[shortnames[a]], trajectories[shortnames[b]])
    ensures r.Failure? ==> r.error == ValueError
    ensures r.Success? ==> var n := |shortnames|; var (lik, logLik) := r.value;
      IsSquare(lik, n) && IsSquare(logLik, n) &&
      forall a, b :: 0 <= a < n && 0 <= b < n ==>
        var row, col := trajectories[shortnames[a]], trajectories[shortnames[b]];
        Success(lik[a][b]) == Likelihood(row.transitionCount, col.transitionProbability) &&
        Success(logLik[a][b]) == LogLikelihood(row.transitionCount, col.transitionLogProbability)
  {
    var n := |shortnames|;
    var lik := new real[n, n]((_, _) => 0.0);
    var logLik := new real[n, n]((_, _) => 0.0);
    for a := 0 to n
      invariant forall a', b' :: 0 <= a' < a && 0 <= b' < n ==>
        Scored(trajectories[shortnames[a']], trajectories[shortnames[b']], lik[a', b'], logLik[a', b'])
    {
      var o := ScoreRow(shortnames, trajectories, lik, logLik, a);
      if o.Fail? {
        return Failure(o.error);
      }
    }
    r := Success((ToMatrix(lik, n), ToMatrix(logLik, n)));
  }

  /** The inner loop for row a: every column scored, or ValueError at the first pair that cannot be. */
  method ScoreRow(shortnames: seq<string>, trajectories: map<string, Scores>, lik: array2<real>, logLik: array2<real>, a: nat)
    returns (o: Outcome)
    requires forall k :: 0 <= k < |shortnames| ==> shortnames[k] in trajectories
    requires lik != logLik && a < |shortnames|
    requires lik.Length0 == lik.Length1 == logLik.Length0 == logLik.Length1 == |shortnames|
    modifies lik, logLik
    ensures o == Pass || o == Fail(ValueError)
    ensures o == Pass ==> forall b :: 0 <= b < |shortnames| ==>
      Scored(trajectories[shortnames[a]], trajectories[shortnames[b]], lik[a, b], logLik[a, b])
    ensures o != Pass ==> exists b :: 0 <= b < |shortnames| && !Compatible(trajectories[shortnames[a]], trajectories[shortnames[b]])
    ensures forall a', b :: 0 <= a' < |shortnames| && 0 <= b < |shortnames| && a' != a ==>
      lik[a', b] == old(lik[a', b]) && logLik[a', b] == old(logLik[a', b])
  {
    var n := |shortnames|;
    var row := trajectories[shortnames[a]];
    for b := 0 to n
      invariant forall b' :: 0 <= b' < b ==> Scored(row, trajectories[shortnames[b']], lik[a, b'], logLik[a, b'])
      invariant forall a', b' :: 0 <= a' < n && 0 <= b' < n && a' != a ==>
        lik[a', b'] == old(lik[a', b']) && logLik[a', b'] == old(logLik[a', b'])
    {
      var col := trajectories[shortnames[b]];
      var l := Likelihood(row.transitionCount, col.transitionProbability);
      if l.Failure? {
        assert !Compatible(row, trajectories[shortnames[b]]);
        return Fail(l.error);
      }
      lik[a, b] := l.value;
      var ll := LogLikelihood(row.transitionCount, col.transitionLogProbability);
      if ll.Failure? {
        assert !Compatible(row, trajectories[shortnames[b]]);
        return Fail(ll.error);
      }
      logLik[a, b] := ll.value;
    }
    o := Pass;
  }

  /** Cell (row, col) of the two tables holds the scores of that pair. */
  predicate Scored(row: Scores, col: Scores, l: real, ll: real) {
    Compatible(row, col) &&
    Success(l) == Likelihood(row.transitionCount, col.transitionProbability) &&
    Success(ll) == LogLikelihood(row.transitionCount, col.transitionLogProbability)
  }

  /** `df_entropies`: one entropy per short name, in short-name order. */
  function EntropyColumn(shortnames: seq<string>, trajectories: map<string, Scores>): (e: seq<real>)
    requires forall k :: 0 <= k < |shortnames| ==> shortnames[k] in trajectories
    ensures |e| == |shortnames|
    ensures forall k :: 0 <= k < |shortnames| ==> e[k] == trajectories[shortnames[k]].entropy
  {
    seq(|shortnames|, k requires 0 <= k < |shortnames| => trajectories[shortnames[k]].entropy)
  }
}
