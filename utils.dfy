/**
 * The geometry and path helpers of modules/python/eyevents/utils.py: the
 * short name of a file path, the squared distance, the orientation
 * determinant, the polar-angle quicksort and the Graham scan. `atan2` and
 * `sqrt` are parameters; the random pivot is a parameter that may pick any
 * index; the global `anchor` is passed explicitly.
 */
module EyeventsUtils {
  import opened Common

  // ---------------------------------------------------------------- names

  /** `s.replace('..', '_')`: non-overlapping pairs, scanned from the left. */
  function ReplaceDoubleDot(s: string): (r: string)
    ensures |r| <= |s|
    ensures forall c :: c != '.' && c != '_' ==> (c in r <==> c in s)
    ensures |s| > 0 && s[0] == '.' && (|s| == 1 || s[1] != '.') ==> |r| > 0 && r[0] == '.'
    ensures |r| > 0 && r[0] == '.' ==> |s| > 0 && s[0] == '.' && (|s| == 1 || s[1] != '.')
    decreases |s|
  {
    if |s| >= 2 && s[0] == '.' && s[1] == '.' then "_" + ReplaceDoubleDot(s[2..])
    else if |s| == 0 then ""
    else [s[0]] + ReplaceDoubleDot(s[1..])
  }

  /** After the replacement no two dots are adjacent. */
  lemma {:induction false} NoDoubleDotLeft(s: string)
    ensures var r := ReplaceDoubleDot(s); forall i :: 0 <= i < |r| - 1 ==> !(r[i] == '.' && r[i + 1] == '.')
    decreases |s|
  {
    if |s| >= 2 && s[0] == '.' && s[1] == '.' {
      NoDoubleDotLeft(s[2..]);
      var r := ReplaceDoubleDot(s);
      assert r[1..] == ReplaceDoubleDot(s[2..]);
    } else if |s| > 0 {
      NoDoubleDotLeft(s[1..]);
      var r := ReplaceDoubleDot(s);
      assert r[1..] == ReplaceDoubleDot(s[1..]);
    }
  }

  /** `s.split(c)`. */
  function Split(s: string, c: char): (r: seq<string>)
    ensures |r| >= 1
    ensures forall k :: 0 <= k < |r| ==> c !in r[k]
    ensures c in s ==> |r| >= 2
    decreases |s|
  {
    if |s| == 0 then [""]
    else
      var rest := Split(s[1..], c);
      assert s == [s[0]] + s[1..];
      if s[0] == c then [""] + rest
      else [[s[0]] + rest[0]] + rest[1..]
  }

  /** Without the separator the string is its only piece. */
  lemma {:induction false} SplitWithoutSeparator(s: string, c: char)
    ensures c !in s <==> Split(s, c) == [s]
    decreases |s|
  {
    if |s| > 0 {
      SplitWithoutSeparator(s[1..], c);
      assert s == [s[0]] + s[1..];
    }
  }

  /** The last piece is a suffix of the string. */
  lemma {:induction false} LastSplitIsSuffix(s: string, c: char)
    ensures var r := Split(s, c); |r[|r| - 1]| <= |s| && r[|r| - 1] == s[|s| - |r[|r| - 1]|..]
    decreases |s|
  {
    if |s| > 0 {
      LastSplitIsSuffix(s[1..], c);
      SplitWithoutSeparator(s[1..], c);
      assert s == [s[0]] + s[1..];
    }
  }

  /** `sep.join(parts)`. */
  function Join(parts: seq<string>, sep: string): string
    decreases |parts|
  {
    if |parts| == 0 then ""
    else if |parts| == 1 then parts[0]
    else parts[0] + sep + Join(parts[1..], sep)
  }

  /** Joining the pieces with the separator gives back the string. */
  lemma {:induction false} JoinSplit(s: string, c: char)
    ensures Join(Split(s, c), [c]) == s
    decreases |s|
  {
    if |s| > 0 {
      JoinSplit(s[1..], c);
      var rest := Split(s[1..], c);
      if s[0] == c {
        assert s == [c] + s[1..];
      } else if |rest| == 1 {
        assert s == [s[0]] + s[1..];
      } else {
        assert rest == [rest[0]] + rest[1..];
        assert s == [s[0]] + s[1..];
      }
    }
  }

  /** `s.split(c)[-1]`: the part after the last `c`. */
  function LastPiece(s: string, c: char): (r: string)
    ensures c !in r
    ensures |r| <= |s| && r == s[|s| - |r|..]
    ensures c !in s ==> r == s
  {
    var parts := Split(s, c);
    LastSplitIsSuffix(s, c);
    SplitWithoutSeparator(s, c);
    parts[|parts| - 1]
  }

  lemma SuffixKeepsAbsent(s: string, r: string, c: char)
    requires |r| <= |s| && r == s[|s| - |r|..] && c !in s
    ensures c !in r
  {
    forall i | 0 <= i < |r| ensures r[i] != c {
      assert r[i] == s[|s| - |r| + i];
    }
  }

  /** `s.split(c1)[-1].split(c2)[-1]`. */
  function LastComponent(s: string, c1: char, c2: char): (r: string)
    ensures c1 !in r && c2 !in r
  {
    var a := LastPiece(s, c1);
    var b := LastPiece(a, c2);
    SuffixKeepsAbsent(a, b, c1);
    b
  }

  /** `get_shortname(path)`. */
  function GetShortname(path: string): (r: string)
    ensures '/' !in r && '\\' !in r
  {
    var buf := Split(ReplaceDoubleDot(path), '.');
    if |buf| < 2 then LastComponent(path, '/', '\\')
    else LastComponent(Join(buf[..|buf| - 1], "_"), '\\', '/')
  }

  /** A dot-free prefix passes through the replacement unchanged. */
  lemma {:induction false} ReplaceSkipsDotFree(x: string, y: string)
    requires '.' !in x
    ensures ReplaceDoubleDot(x + y) == x + ReplaceDoubleDot(y)
    decreases |x|
  {
    if |x| > 0 {
      assert (x + y)[0] == x[0] && x[0] != '.';
      assert (x + y)[1..] == x[1..] + y;
      ReplaceSkipsDotFree(x[1..], y);
      assert ReplaceDoubleDot(x + y) == [x[0]] + ReplaceDoubleDot(x[1..] + y);
      assert x == [x[0]] + x[1..];
      assert [x[0]] + (x[1..] + ReplaceDoubleDot(y)) == x + ReplaceDoubleDot(y);
    } else {
      assert x + y == y;
    }
  }

  /** A dot not followed by another dot is kept. */
  lemma SingleDotKept(s: string)
    requires |s| == 0 || s[0] != '.'
    ensures ReplaceDoubleDot("." + s) == "." + ReplaceDoubleDot(s)
  {
    assert ("." + s)[1..] == s;
  }

  lemma DotFreeUnchanged(s: string)
    requires '.' !in s
    ensures ReplaceDoubleDot(s) == s
  {
    ReplaceSkipsDotFree(s, "");
    assert s + "" == s;
  }

  /** A separator after a separator-free head: the head is the first piece. */
  lemma {:induction false} SplitAfterHead(x: string, y: string, c: char)
    requires c !in x
    ensures Split(x + [c] + y, c) == [x] + Split(y, c)
    decreases |x|
  {
    if |x| > 0 {
      assert (x + [c] + y)[1..] == x[1..] + [c] + y;
      SplitAfterHead(x[1..], y, c);
      assert x == [x[0]] + x[1..];
    } else {
      assert x + [c] + y == [c] + y;
      assert ([c] + y)[1..] == y;
    }
  }

  /** Whatever precedes the last separator does not matter to the last piece. */
  lemma LastPieceAfter(x: string, y: string, c: char)
    ensures LastPiece(x + [c] + y, c) == LastPiece(y, c)
  {
    LastSplitAfter(x, y, c);
  }

  lemma {:induction false} LastSplitAfter(x: string, y: string, c: char)
    ensures var r, q := Split(x + [c] + y, c), Split(y, c); r[|r| - 1] == q[|q| - 1]
    decreases |x|
  {
    var s := x + [c] + y;
    if |x| > 0 {
      assert s[1..] == x[1..] + [c] + y;
      assert c in s[1..] by {
        assert s[1..][|x| - 1] == c;
      }
      LastSplitAfter(x[1..], y, c);
    } else {
      assert s == [c] + y;
      assert s[1..] == y;
    }
  }

  /** A path without a dot (and without backslashes) keeps only its last component. */
  lemma ShortnameWithoutDot(path: string)
    requires '.' !in path && '\\' !in path
    ensures GetShortname(path) == LastPiece(path, '/')
  {
    ReplaceSkipsDotFree(path, "");
    assert path + "" == path;
    SplitWithoutSeparator(path, '.');
    SuffixKeepsAbsent(path, LastPiece(path, '/'), '\\');
  }

  /** `dir/name.ext` gives `name`: the directory and the extension go. */
  lemma ShortnameOfFile(dir: string, name: string, ext: string)
    requires '.' !in dir && '\\' !in dir
    requires '.' !in name && '\\' !in name && '/' !in name
    requires '.' !in ext
    ensures GetShortname(dir + "/" + name + "." + ext) == name
  {
    var head := dir + "/" + name;
    assert dir + "/" + name + "." + ext == head + ("." + ext);
    assert '.' !in head && '\\' !in head;
    ReplaceSkipsDotFree(head, "." + ext);
    SingleDotKept(ext);
    DotFreeUnchanged(ext);
    assert head + ("." + ext) == head + ['.'] + ext;
    SplitAfterHead(head, ext, '.');
    SplitWithoutSeparator(ext, '.');
    assert Join([head], "_") == head;
    SplitWithoutSeparator(head, '\\');
    LastPieceAfter(dir, name, '/');
    SplitWithoutSeparator(name, '/');
  }

  /** `a.b.c` gives `a_b`: the inner dots become underscores. */
  lemma ShortnameJoinsParts(a: string, b: string, c: string)
    requires '.' !in a && '\\' !in a && '/' !in a
    requires |b| > 0 && '.' !in b && '\\' !in b && '/' !in b
    requires '.' !in c
    ensures GetShortname(a + "." + b + "." + c) == a + "_" + b
  {
    var path := a + "." + b + "." + c;
    ThreePartsUnreplaced(a, b, c);
    ThreePartsSplit(a, b, c);
    var joined := a + "_" + b;
    assert [a, b, c][..2] == [a, b];
    assert Join([a, b], "_") == joined;
    assert '\\' !in joined && '/' !in joined;
    SplitWithoutSeparator(joined, '\\');
    SplitWithoutSeparator(joined, '/');
  }

  /** The part after the first dot of a.b.c passes through the replacement unchanged. */
  lemma DotTailUnreplaced(b: string, c: string)
    requires |b| > 0 && '.' !in b && '.' !in c
    ensures ReplaceDoubleDot("." + (b + ("." + c))) == "." + (b + ("." + c))
  {
    SingleDotKept(c);
    DotFreeUnchanged(c);
    ReplaceSkipsDotFree(b, "." + c);
    assert (b + ("." + c))[0] == b[0];
    SingleDotKept(b + ("." + c));
  }

  lemma ThreePartsUnreplaced(a: string, b: string, c: string)
    requires '.' !in a && |b| > 0 && '.' !in b && '.' !in c
    ensures ReplaceDoubleDot(a + "." + b + "." + c) == a + "." + b + "." + c
  {
    DotTailUnreplaced(b, c);
    ReplaceSkipsDotFree(a, "." + (b + ("." + c)));
    DottedAssoc(a, b, c);
  }

  lemma DottedAssoc(a: string, b: string, c: string)
    ensures a + "." + b + "." + c == a + ("." + (b + ("." + c)))
  {
  }

  lemma ThreePartsSplit(a: string, b: string, c: string)
    requires '.' !in a && '.' !in b && '.' !in c
    ensures Split(a + "." + b + "." + c, '.') == [a, b, c]
  {
    assert a + "." + b + "." + c == a + ['.'] + (b + ['.'] + c);
    SplitAfterHead(a, b + ['.'] + c, '.');
    SplitAfterHead(b, c, '.');
    SplitWithoutSeparator(c, '.');
  }

  // ------------------------------------------------------------- geometry

  datatype Point = Point(x: real, y: real)

  function Square(a: real): real {
    a * a
  }

  /** `distance(p0, p1)`: the squared Euclidean distance. */
  function Distance(p0: Point, p1: Point): real {
    Square(p0.y - p1.y) + Square(p0.x - p1.x)
  }

  lemma SquareNonNegative(a: real)
    ensures Square(a) >= 0.0
    ensures a != 0.0 ==> Square(a) > 0.0
    ensures Square(-a) == Square(a)
  {
    if a < 0.0 {
      SquarePositive(-a);
      assert Square(-a) == Square(a);
    } else if a > 0.0 {
      SquarePositive(a);
    }
  }

  lemma SquarePositive(a: real)
    requires a > 0.0
    ensures Square(a) > 0.0
  {
    calc {
      Square(a);
    ==
      a * a;
    > { assert a * a > 0.0 * a; }
      0.0;
    }
  }

  /** A squared distance is non-negative, symmetric and 0 only between equal points. */
  lemma DistanceIsMetricLike(p: Point, q: Point)
    ensures Distance(p, q) >= 0.0
    ensures Distance(p, q) == Distance(q, p)
    ensures Distance(p, q) == 0.0 ==> p == q
    ensures p == q ==> Distance(p, q) == 0.0
  {
    SquareNonNegative(p.y - q.y);
    SquareNonNegative(p.x - q.x);
    assert q.y - p.y == -(p.y - q.y) && q.x - p.x == -(p.x - q.x);
    if Distance(p, q) == 0.0 {
      assert p.x == q.x && p.y == q.y;
    }
  }

  /** `det(p1, p2, p3)`: twice the signed area, positive for a left turn. */
  function Det(p1: Point, p2: Point, p3: Point): real {
    (p2.x - p1.x) * (p3.y - p1.y) - (p2.y - p1.y) * (p3.x - p1.x)
  }

  /** Swapping the last two points flips the sign; a repeated point gives 0. */
  lemma DetAntisymmetric(p1: Point, p2: Point, p3: Point)
    ensures Det(p1, p2, p3) == -Det(p1, p3, p2)
    ensures Det(p1, p1, p3) == 0.0 && Det(p1, p2, p2) == 0.0
  {
  }

  /** `polar_angle(p0, anchor)`. */
  function PolarAngle(atan2: (real, real) -> real, p0: Point, anchor: Point): real {
    atan2(p0.y - anchor.y, p0.x - anchor.x)
  }

  /** The radicand of Heron's formula for side lengths a, b, c. */
  function Heron(a: real, b: real, c: real): real {
    var p := (a + b + c) / 2.0;
    p * (p - a) * (p - b) * (p - c)
  }

  /** `geron`: Heron's formula on the three vertices, with `sqrt` a parameter. */
  function Geron(sqrt: real -> real, p0: Point, p1: Point, p2: Point): real {
    var a := sqrt(Distance(p1, p0));
    var b := sqrt(Distance(p2, p1));
    var c := sqrt(Distance(p0, p2));
    sqrt(Heron(a, b, c))
  }

  lemma HeronRotation(a: real, b: real, c: real)
    ensures Heron(b, c, a) == Heron(a, b, c)
  {
    var p := (a + b + c) / 2.0;
    assert (b + c + a) / 2.0 == p;
    ProductRotation(p, p - a, p - b, p - c);
  }

  lemma ProductRotation(p: real, u: real, v: real, w: real)
    ensures p * v * w * u == p * u * v * w
  {
    assert p * v * w * u == (p * v * w) * u;
    assert (p * v * w) * u == u * (p * v * w);
  }

  /** The area does not depend on which vertex the triangle starts from. */
  lemma GeronRotation(sqrt: real -> real, p0: Point, p1: Point, p2: Point)
    ensures Geron(sqrt, p1, p2, p0) == Geron(sqrt, p0, p1, p2)
  {
    HeronRotation(sqrt(Distance(p1, p0)), sqrt(Distance(p2, p1)), sqrt(Distance(p0, p2)));
  }

  // ------------------------------------------------------------- sorting

  /**
   * The two keys of the polar sort: `angle` is `polar_angle(., anchor)` and
   * `dist` is `distance(., anchor)`, for the anchor `graham_scan` has chosen.
   */
  predicate KeyLeq(angle: Point -> real, dist: Point -> real, p: Point, q: Point) {
    angle(p) < angle(q) || (angle(p) == angle(q) && dist(p) <= dist(q))
  }

  predicate KeyOrdered(angle: Point -> real, dist: Point -> real, s: seq<Point>) {
    forall i, j :: 0 <= i < j < |s| ==> KeyLeq(angle, dist, s[i], s[j])
  }

  predicate Ordered(key: Point -> real, s: seq<Point>) {
    forall i, j :: 0 <= i < j < |s| ==> key(s[i]) <= key(s[j])
  }

  /** Insertion of one point into a list sorted by `key`. */
  function InsertBy(key: Point -> real, p: Point, s: seq<Point>): (r: seq<Point>)
    requires Ordered(key, s)
    ensures Ordered(key, r)
    ensures multiset(r) == multiset(s) + multiset{p}
    decreases |s|
  {
    if |s| == 0 then [p]
    else if key(p) <= key(s[0]) then [p] + s
    else
      var rest := InsertBy(key, p, s[1..]);
      assert s == [s[0]] + s[1..];
      HeadBelowInserted(key, p, s, rest);
      ConsOrdered(key, s[0], rest);
      [s[0]] + rest
  }

  /** The head of a sorted list stays below everything once a larger point joins its tail. */
  lemma HeadBelowInserted(key: Point -> real, p: Point, s: seq<Point>, rest: seq<Point>)
    requires |s| > 0 && Ordered(key, s) && key(s[0]) < key(p)
    requires multiset(rest) == multiset(s[1..]) + multiset{p}
    ensures forall q :: q in rest ==> key(s[0]) <= key(q)
  {
    forall q | q in rest ensures key(s[0]) <= key(q) {
      assert q in multiset(rest);
      if q != p {
        assert q in multiset(s[1..]);
        var i :| 0 <= i < |s[1..]| && s[1..][i] == q;
        assert s[i + 1] == q;
      }
    }
  }

  lemma ConsOrdered(key: Point -> real, x: Point, rest: seq<Point>)
    requires Ordered(key, rest) && forall q :: q in rest ==> key(x) <= key(q)
    ensures Ordered(key, [x] + rest)
  {
    var r := [x] + rest;
    forall i, j | 0 <= i < j < |r| ensures key(r[i]) <= key(r[j]) {
      assert r[j] == rest[j - 1];
      if i > 0 {
        assert r[i] == rest[i - 1];
      } else {
        assert rest[j - 1] in rest;
      }
    }
  }

  /** `sorted(equal, key=distance)`. */
  function SortBy(key: Point -> real, s: seq<Point>): (r: seq<Point>)
    ensures Ordered(key, r)
    ensures multiset(r) == multiset(s)
    decreases |s|
  {
    if |s| == 0 then []
    else
      assert s == [s[0]] + s[1..];
      InsertBy(key, s[0], SortBy(key, s[1..]))
  }

  /**
   * The three lists of `quicksort`'s loop over `a`: the points whose angle is
   * below, equal to and above the pivot's, each in input order.
   */
  function PartitionOf(a: seq<Point>, angle: Point -> real, pivAng: real): (r: (seq<Point>, seq<Point>, seq<Point>))
    ensures multiset(r.0) + multiset(r.1) + multiset(r.2) == multiset(a)
    ensures forall q :: q in r.0 ==> angle(q) < pivAng
    ensures forall q :: q in r.1 ==> angle(q) == pivAng
    ensures forall q :: q in r.2 ==> angle(q) > pivAng
    decreases |a|
  {
    if |a| == 0 then ([], [], [])
    else
      var x := a[|a| - 1];
      var (s, e, l) := PartitionOf(a[..|a| - 1], angle, pivAng);
      assert a == a[..|a| - 1] + [x];
      if angle(x) < pivAng then (s + [x], e, l)
      else if angle(x) == pivAng then (s, e + [x], l)
      else (s, e, l + [x])
  }

  /** The partition loop of `quicksort`: three lists, by angle against the pivot's. */
  method Partition(a: seq<Point>, angle: Point -> real, pivAng: real)
    returns (smaller: seq<Point>, equal: seq<Point>, larger: seq<Point>)
    ensures (smaller, equal, larger) == PartitionOf(a, angle, pivAng)
    ensures multiset(smaller) + multiset(equal) + multiset(larger) == multiset(a)
    ensures forall q :: q in smaller ==> angle(q) < pivAng
    ensures forall q :: q in equal ==> angle(q) == pivAng
    ensures forall q :: q in larger ==> angle(q) > pivAng
  {
    smaller, equal, larger := [], [], [];
    for i := 0 to |a|
      invariant (smaller, equal, larger) == PartitionOf(a[..i], angle, pivAng)
    {
      assert a[..i + 1][..i] == a[..i];
      var ptAng := angle(a[i]);
      if ptAng < pivAng {
        smaller := smaller + [a[i]];
      } else if ptAng == pivAng {
        equal := equal + [a[i]];
      } else {
        larger := larger + [a[i]];
      }
    }
    assert a[..|a|] == a;
  }

  /** The pivot lands in the middle list, so both outer lists are shorter than the input. */
  lemma PivotInMiddle(a: seq<Point>, angle: Point -> real, k: nat)
    requires k < |a|
    ensures var (s, e, l) := PartitionOf(a, angle, angle(a[k])); |s| < |a| && |l| < |a|
  {
    var (s, e, l) := PartitionOf(a, angle, angle(a[k]));
    assert a[k] in multiset(a);
    assert a[k] !in s && a[k] !in l;
    assert a[k] in multiset(e);
    assert |multiset(a)| == |s| + |e| + |l|;
  }

  /**
   * What `quicksort(a)` returns when the random pivot of each call on a list
   * `b` is `b[pivot(b) % len(b)]`: whatever the pivots, a permutation of `a`
   * in (angle, distance) order.
   */
  function PolarSort(a: seq<Point>, angle: Point -> real, dist: Point -> real, pivot: seq<Point> -> nat): (r: seq<Point>)
    ensures multiset(r) == multiset(a)
    ensures KeyOrdered(angle, dist, r)
    decreases |a|
  {
    if |a| <= 1 then a
    else
      var pivAng := angle(a[pivot(a) % |a|]);
      var (smaller, equal, larger) := PartitionOf(a, angle, pivAng);
      PivotInMiddle(a, angle, pivot(a) % |a|);
      var low := PolarSort(smaller, angle, dist, pivot);
      var high := PolarSort(larger, angle, dist, pivot);
      var mid := SortBy(dist, equal);
      JoinOrdered(angle, dist, pivAng, smaller, equal, larger, low, mid, high);
      low + mid + high
  }

  /** The three sorted parts, joined, are a sorted permutation of the partitioned list. */
  lemma JoinOrdered(angle: Point -> real, dist: Point -> real, pivAng: real,
                    smaller: seq<Point>, equal: seq<Point>, larger: seq<Point>,
                    low: seq<Point>, mid: seq<Point>, high: seq<Point>)
    requires forall q :: q in smaller ==> angle(q) < pivAng
    requires forall q :: q in equal ==> angle(q) == pivAng
    requires forall q :: q in larger ==> angle(q) > pivAng
    requires multiset(low) == multiset(smaller) && KeyOrdered(angle, dist, low)
    requires multiset(mid) == multiset(equal) && Ordered(dist, mid)
    requires multiset(high) == multiset(larger) && KeyOrdered(angle, dist, high)
    ensures KeyOrdered(angle, dist, low + mid + high)
  {
    forall q | q in low ensures angle(q) < pivAng {
      assert q in multiset(smaller);
    }
    forall q | q in mid ensures angle(q) == pivAng {
      assert q in multiset(equal);
    }
    forall q | q in high ensures angle(q) > pivAng {
      assert q in multiset(larger);
    }
    ConcatOrdered(angle, dist, pivAng, low, mid, high);
  }

  /**
   * `quicksort(a)`: the recursion of the source, which computes `PolarSort`.
   * `pivot` stands for `randint`: any index `pivot(b) % len(b)` may be picked.
   */
  method Quicksort(a: seq<Point>, angle: Point -> real, dist: Point -> real, pivot: seq<Point> -> nat)
    returns (r: seq<Point>)
    ensures r == PolarSort(a, angle, dist, pivot)
    ensures multiset(r) == multiset(a)
    ensures KeyOrdered(angle, dist, r)
    decreases |a|
  {
    if |a| <= 1 {
      return a;
    }
    var pivAng := angle(a[pivot(a) % |a|]);
    var smaller, equal, larger := Partition(a, angle, pivAng);
    PivotInMiddle(a, angle, pivot(a) % |a|);
    var low := Quicksort(smaller, angle, dist, pivot);
    var high := Quicksort(larger, angle, dist, pivot);
    var mid := SortBy(dist, equal);
    r := low + mid + high;
  }

  lemma ConcatOrdered(angle: Point -> real, dist: Point -> real, pivAng: real, low: seq<Point>, mid: seq<Point>, high: seq<Point>)
    requires KeyOrdered(angle, dist, low) && Ordered(dist, mid) && KeyOrdered(angle, dist, high)
    requires forall q :: q in low ==> angle(q) < pivAng
    requires forall q :: q in mid ==> angle(q) == pivAng
    requires forall q :: q in high ==> angle(q) > pivAng
    ensures KeyOrdered(angle, dist, low + mid + high)
  {
    var r := low + mid + high;
    forall i, j | 0 <= i < j < |r| ensures KeyLeq(angle, dist, r[i], r[j]) {
      if i < |low| {
        assert r[i] in low;
      } else if i < |low| + |mid| {
        assert r[i] in mid;
      } else {
        assert r[i] in high;
      }
      if j < |low| {
        assert r[j] in low;
      } else if j < |low| + |mid| {
        assert r[j] in mid;
      } else {
        assert r[j] in high;
      }
    }
  }

  // --------------------------------------------------------- Graham scan

  /** Every three consecutive points make a strict left turn. */
  predicate LeftTurns(h: seq<Point>) {
    forall k :: 0 <= k < |h| - 2 ==> Det(h[k], h[k + 1], h[k + 2]) > 0.0
  }

  /** The lowest point, the leftmost among the lowest. */
  predicate IsAnchor(a: Point, points: seq<Point>) {
    a in points && forall q :: q in points ==> Below(a, q)
  }

  predicate Below(a: Point, q: Point) {
    a.y < q.y || (a.y == q.y && a.x <= q.x)
  }

  /** The anchor of a non-empty point list. */
  function Lowest(points: seq<Point>): (a: Point)
    requires |points| > 0
    ensures IsAnchor(a, points)
    decreases |points|
  {
    if |points| == 1 then points[0]
    else
      var b := Lowest(points[1..]);
      assert points == [points[0]] + points[1..];
      if Below(points[0], b) then points[0] else b
  }

  /** At most one point of a list is its anchor. */
  lemma AnchorUnique(a: Point, b: Point, points: seq<Point>)
    requires IsAnchor(a, points) && IsAnchor(b, points)
    ensures a == b
  {
    assert Below(a, b) && Below(b, a);
  }

  function FirstIndex(s: seq<Point>, p: Point): (k: nat)
    requires p in s
    ensures k < |s| && s[k] == p && p !in s[..k]
  {
    if s[0] == p then 0 else assert s == [s[0]] + s[1..]; 1 + FirstIndex(s[1..], p)
  }

  /** The first loop of `graham_scan`: the index of the lowest, then leftmost, point. */
  method LowestIndex(points: seq<Point>) returns (minIdx: Option<nat>)
    ensures minIdx.None? <==> |points| == 0
    ensures minIdx.Some? ==> minIdx.value < |points| && IsAnchor(points[minIdx.value], points)
  {
    minIdx := None;
    for i := 0 to |points|
      invariant minIdx.None? <==> i == 0
      invariant minIdx.Some? ==> minIdx.value < i
      invariant minIdx.Some? ==> forall j :: 0 <= j < i ==> Below(points[minIdx.value], points[j])
    {
      var (x, y) := (points[i].x, points[i].y);
      if minIdx.None? || y < points[minIdx.value].y {
        minIdx := Some(i);
      }
      if y == points[minIdx.value].y && x < points[minIdx.value].x {
        minIdx := Some(i);
      }
    }
    if minIdx.Some? {
      var a := points[minIdx.value];
      forall q | q in points ensures Below(a, q) {
        var j :| 0 <= j < |points| && points[j] == q;
      }
    }
  }

  /**
   * The inner `while` of `graham_scan`: drop the last hull point while the
   * last two points and `s` make no left turn, stopping at a single point.
   * The result is a prefix of the hull that turns left towards `s`.
   */
  function Backtrack(h: seq<Point>, s: Point): (r: seq<Point>)
    ensures |r| <= |h| && r == h[..|r|]
    ensures |h| >= 1 ==> |r| >= 1 && (|r| == 1 || Det(r[|r| - 2], r[|r| - 1], s) > 0.0)
    decreases |h|
  {
    if |h| < 2 || Det(h[|h| - 2], h[|h| - 1], s) > 0.0 then h
    else Backtrack(h[..|h| - 1], s)
  }

  /**
   * The hull after the outer loop has taken `sortedPts[1..k]`: it starts as
   * the anchor and the first sorted point, and each further point is
   * appended once the hull has backtracked.
   */
  function HullAfter(anchor: Point, sortedPts: seq<Point>, k: nat): seq<Point>
    requires 1 <= k <= |sortedPts|
    decreases k
  {
    if k == 1 then [anchor, sortedPts[0]]
    else Backtrack(HullAfter(anchor, sortedPts, k - 1), sortedPts[k - 1]) + [sortedPts[k - 1]]
  }

  /** Backtracking, then appending, keeps the first point and the left turns. */
  lemma BacktrackAppend(prev: seq<Point>, s: Point)
    requires |prev| >= 2 && LeftTurns(prev)
    ensures var h := Backtrack(prev, s) + [s];
      |h| >= 2 && h[0] == prev[0] && LeftTurns(h) && Within(h, s, prev)
  {
    var b := Backtrack(prev, s);
    var h := b + [s];
    assert b == prev[..|b|];
    forall i | 0 <= i < |h| - 2 ensures Det(h[i], h[i + 1], h[i + 2]) > 0.0 {
      if i + 2 < |b| {
        assert h[i] == prev[i] && h[i + 1] == prev[i + 1] && h[i + 2] == prev[i + 2];
      }
    }
    forall q | q in h ensures q == s || q in prev {
      if q != s {
        assert q in b;
      }
    }
  }

  /** Every point of `h` is the anchor or a point of `pts`. */
  predicate Within(h: seq<Point>, anchor: Point, pts: seq<Point>) {
    forall q :: q in h ==> q == anchor || q in pts
  }

  /** The shape of every hull the scan builds, from the anchor over `pts`. */
  predicate HullShape(h: seq<Point>, anchor: Point, pts: seq<Point>) {
    |h| >= 2 && h[0] == anchor && LeftTurns(h) && Within(h, anchor, pts)
  }

  /** Every hull the loop builds keeps the anchor first, has two points or more, and turns left. */
  lemma {:induction false} HullAfterShape(anchor: Point, sortedPts: seq<Point>, k: nat)
    requires 1 <= k <= |sortedPts|
    ensures HullShape(HullAfter(anchor, sortedPts, k), anchor, sortedPts[..k])
  {
    if k > 1 {
      HullAfterShape(anchor, sortedPts, k - 1);
      HullAfterStep(anchor, sortedPts, k);
    } else {
      assert sortedPts[0] in sortedPts[..1];
    }
  }

  /** One round of the outer loop keeps the shape. */
  lemma HullAfterStep(anchor: Point, sortedPts: seq<Point>, k: nat)
    requires 1 < k <= |sortedPts|
    requires HullShape(HullAfter(anchor, sortedPts, k - 1), anchor, sortedPts[..k - 1])
    ensures HullShape(HullAfter(anchor, sortedPts, k), anchor, sortedPts[..k])
  {
    var prev := HullAfter(anchor, sortedPts, k - 1);
    var s := sortedPts[k - 1];
    BacktrackAppend(prev, s);
    var h := Backtrack(prev, s) + [s];
    assert h == HullAfter(anchor, sortedPts, k);
    assert sortedPts[..k] == sortedPts[..k - 1] + [s];
    WithinAppend(h, prev, anchor, s, sortedPts[..k - 1]);
  }

  /** A hull of old points and `s` lies within the old points followed by `s`. */
  lemma WithinAppend(h: seq<Point>, prev: seq<Point>, anchor: Point, s: Point, pts: seq<Point>)
    requires Within(h, s, prev) && Within(prev, anchor, pts)
    ensures Within(h, anchor, pts + [s])
  {
    forall q | q in h ensures q == anchor || q in pts + [s] {
      if q != s && q != anchor {
        assert q in prev;
        assert q in pts;
      }
    }
  }

  /** `graham_scan`'s hull from the anchor and the sorted points without it. */
  function ScanOf(anchor: Point, sortedPts: seq<Point>): seq<Point>
    requires |sortedPts| >= 1
  {
    HullAfter(anchor, sortedPts, |sortedPts|)
  }

  /** The backtracking loop of `graham_scan` over the points after the first. */
  method ScanHull(anchor: Point, sortedPts: seq<Point>) returns (hull: seq<Point>)
    requires |sortedPts| >= 1
    ensures hull == ScanOf(anchor, sortedPts)
    ensures |hull| >= 2 && hull[0] == anchor
    ensures LeftTurns(hull)
    ensures forall q :: q in hull ==> q == anchor || q in sortedPts
  {
    hull := [anchor, sortedPts[0]];
    for k := 1 to |sortedPts|
      invariant hull == HullAfter(anchor, sortedPts, k)
    {
      var s := sortedPts[k];
      HullAfterShape(anchor, sortedPts, k);
      ghost var start := hull;
      while Det(hull[|hull| - 2], hull[|hull| - 1], s) <= 0.0
        invariant |hull| >= 2 && Backtrack(hull, s) == Backtrack(start, s)
        decreases |hull|
      {
        hull := hull[..|hull| - 1];
        if |hull| < 2 {
          break;
        }
      }
      assert hull == Backtrack(start, s);
      hull := hull + [s];
    }
    HullAfterShape(anchor, sortedPts, |sortedPts|);
    assert sortedPts[..|sortedPts|] == sortedPts;
  }

  /** `polar_angle(p, anchor)` and `distance(p, anchor)`, the two sort keys. */
  function AngleFrom(atan2: (real, real) -> real, anchor: Point): Point -> real {
    p => PolarAngle(atan2, p, anchor)
  }

  function DistanceFrom(anchor: Point): Point -> real {
    p => Distance(p, anchor)
  }

  /**
   * The hull `graham_scan` returns for at least two points: the scan from the
   * anchor over the polar-sorted points with one copy of the anchor deleted.
   * It starts at the anchor, holds at least two input points and turns left
   * at every vertex.
   */
  function GrahamHull(points: seq<Point>, atan2: (real, real) -> real, pivot: seq<Point> -> nat): (h: seq<Point>)
    requires |points| >= 2
    ensures |h| >= 2 && h[0] == Lowest(points) && IsAnchor(h[0], points)
    ensures forall q :: q in h ==> q in points
    ensures LeftTurns(h)
  {
    var anchor := Lowest(points);
    var sorted := PolarSort(points, AngleFrom(atan2, anchor), DistanceFrom(anchor), pivot);
    assert anchor in multiset(sorted);
    var sortedPts := DeleteFirst(sorted, anchor);
    assert |sortedPts| == |points| - 1 by {
      assert |multiset(sorted)| == |multiset(points)|;
    }
    HullPointsFromInput(anchor, sorted, sortedPts, points);
    ScanOf(anchor, sortedPts)
  }

  /** The scan of the sorted points keeps the anchor first, turns left and takes only input points. */
  lemma HullPointsFromInput(anchor: Point, sorted: seq<Point>, sortedPts: seq<Point>, points: seq<Point>)
    requires anchor in points && |sortedPts| >= 1
    requires multiset(sorted) == multiset(points) && multiset(sortedPts) == multiset(sorted) - multiset{anchor}
    ensures var h := ScanOf(anchor, sortedPts);
      |h| >= 2 && h[0] == anchor && LeftTurns(h) && forall q :: q in h ==> q in points
  {
    HullAfterShape(anchor, sortedPts, |sortedPts|);
    assert sortedPts[..|sortedPts|] == sortedPts;
    forall q | q in ScanOf(anchor, sortedPts) ensures q in points {
      if q != anchor {
        assert q in multiset(sortedPts);
        assert q in multiset(points);
      }
    }
  }

  /**
   * `graham_scan(points)`. An empty list reaches `points[None]`
   * (TypeError); a single point leaves nothing after the anchor
   * (IndexError on `sorted_pts[0]`). Otherwise the result is `GrahamHull`.
   */
  method GrahamScan(points: seq<Point>, atan2: (real, real) -> real, pivot: seq<Point> -> nat)
    returns (r: Result<seq<Point>>)
    ensures |points| == 0 <==> r == Failure(TypeError)
    ensures |points| == 1 <==> r == Failure(IndexError)
    ensures r.Success? <==> |points| >= 2
    ensures r.Success? ==> r.value == GrahamHull(points, atan2, pivot)
    ensures r.Success? ==> |r.value| >= 2 && IsAnchor(r.value[0], points)
    ensures r.Success? ==> forall q :: q in r.value ==> q in points
    ensures r.Success? ==> LeftTurns(r.value)
  {
    var minIdx := LowestIndex(points);
    if minIdx.None? {
      return Failure(TypeError);
    }
    var anchor := points[minIdx.value];
    AnchorUnique(anchor, Lowest(points), points);
    var sorted := Quicksort(points, AngleFrom(atan2, anchor), DistanceFrom(anchor), pivot);
    var sortedPts := DeleteFirst(sorted, anchor);
    assert |sortedPts| == |points| - 1 by {
      assert |multiset(sorted)| == |multiset(points)|;
    }
    if |sortedPts| == 0 {
      return Failure(IndexError);
    }
    var hull := ScanHull(anchor, sortedPts);
    r := Success(hull);
  }

  /** `del s[s.index(p)]`. */
  function DeleteFirst(s: seq<Point>, p: Point): (r: seq<Point>)
    requires p in multiset(s)
    ensures |r| == |s| - 1
    ensures multiset(r) == multiset(s) - multiset{p}
  {
    var k := FirstIndex(s, p);
    assert s == s[..k] + [p] + s[k + 1..];
    s[..k] + s[k + 1..]
  }
}
