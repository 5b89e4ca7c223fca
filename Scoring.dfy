/** Segment-pair intersection weights, intersection counts and the fitness of
    a solution (lower is better). */
module Scoring {
  import opened Geometry

  function Min(a: int, b: int): int { if a <= b then a else b }
  function Max(a: int, b: int): int { if a <= b then b else a }

  /** Weight of one pair of segments. Collinear vertical (or horizontal)
      segments score the number of grid units their ranges share; any other
      pair scores 1 when the cross-product test says they straddle each
      other (touching included), else 0. */
  function Intersect(s1: Segment, s2: Segment): (r: int)
    ensures 0 <= r
    ensures (!(s1.start.x == s1.end.x == s2.start.x == s2.end.x) &&
             !(s1.start.y == s1.end.y == s2.start.y == s2.end.y)) ==> r <= 1
  {
    var a, b, c, d := s1.start, s1.end, s2.start, s2.end;
    if a.x == b.x == c.x == d.x then
      var lo := Max(Min(a.y, b.y), Min(c.y, d.y));
      var hi := Min(Max(a.y, b.y), Max(c.y, d.y));
      if lo <= hi then Abs(lo - hi) + 1 else 0
    else if a.y == b.y == c.y == d.y then
      var lo := Max(Min(a.x, b.x), Min(c.x, d.x));
      var hi := Min(Max(a.x, b.x), Max(c.x, d.x));
      if lo <= hi then Abs(lo - hi) + 1 else 0
    else
      if Straddle(s2, a, b) && Straddle(s1, c, d) then 1 else 0
  }

  /** Cross product of the direction of `s` with the vector from `p` to the
      end of `s`: its sign tells on which side of the line through `s` the
      point `p` lies. */
  function Side(s: Segment, p: Point): int {
    (s.end.y - s.start.y) * (s.end.x - p.x) - (s.end.x - s.start.x) * (s.end.y - p.y)
  }

  /** `p` and `q` are not strictly on the same side of the line through `s`. */
  predicate Straddle(s: Segment, p: Point, q: Point) {
    Side(s, p) * Side(s, q) <= 0
  }

  /** The integers from `lo` to `hi` inclusive. */
  function Range(lo: int, hi: int): set<int>
    decreases hi - lo
  {
    if lo > hi then {} else Range(lo, hi - 1) + {hi}
  }

  lemma {:induction false} InRange(lo: int, hi: int, k: int)
    ensures k in Range(lo, hi) <==> lo <= k <= hi
    decreases hi - lo
  {
    if lo <= hi { InRange(lo, hi - 1, k); }
  }

  lemma {:induction false} RangeSize(lo: int, hi: int)
    ensures |Range(lo, hi)| == if lo <= hi then hi - lo + 1 else 0
    decreases hi - lo
  {
    if lo <= hi {
      RangeSize(lo, hi - 1);
      InRange(lo, hi - 1, hi);
    }
  }

  lemma RangeMeet(lo1: int, hi1: int, lo2: int, hi2: int)
    ensures Range(lo1, hi1) * Range(lo2, hi2) == Range(Max(lo1, lo2), Min(hi1, hi2))
  {
    forall k
      ensures k in Range(lo1, hi1) * Range(lo2, hi2) <==> k in Range(Max(lo1, lo2), Min(hi1, hi2))
    {
      InRange(lo1, hi1, k);
      InRange(lo2, hi2, k);
      InRange(Max(lo1, lo2), Min(hi1, hi2), k);
    }
  }

  /** The y values covered by a segment (its grid rows). */
  function Rows(s: Segment): set<int> {
    Range(Min(s.start.y, s.end.y), Max(s.start.y, s.end.y))
  }

  /** The x values covered by a segment (its grid columns). */
  function Columns(s: Segment): set<int> {
    Range(Min(s.start.x, s.end.x), Max(s.start.x, s.end.x))
  }

  /** Two segments on one vertical line score the number of grid rows they share. */
  lemma CollinearVerticalCountsSharedRows(s1: Segment, s2: Segment)
    requires s1.start.x == s1.end.x == s2.start.x == s2.end.x
    ensures Intersect(s1, s2) == |Rows(s1) * Rows(s2)|
  {
    var lo := Max(Min(s1.start.y, s1.end.y), Min(s2.start.y, s2.end.y));
    var hi := Min(Max(s1.start.y, s1.end.y), Max(s2.start.y, s2.end.y));
    RangeMeet(Min(s1.start.y, s1.end.y), Max(s1.start.y, s1.end.y),
              Min(s2.start.y, s2.end.y), Max(s2.start.y, s2.end.y));
    RangeSize(lo, hi);
  }

  /** Two segments on one horizontal line score the number of grid columns they share. */
  lemma CollinearHorizontalCountsSharedColumns(s1: Segment, s2: Segment)
    requires s1.start.y == s1.end.y == s2.start.y == s2.end.y
    ensures Intersect(s1, s2) == |Columns(s1) * Columns(s2)|
  {
    var lo := Max(Min(s1.start.x, s1.end.x), Min(s2.start.x, s2.end.x));
    var hi := Min(Max(s1.start.x, s1.end.x), Max(s2.start.x, s2.end.x));
    RangeMeet(Min(s1.start.x, s1.end.x), Max(s1.start.x, s1.end.x),
              Min(s2.start.x, s2.end.x), Max(s2.start.x, s2.end.x));
    RangeSize(lo, hi);
  }

  /** The weight does not depend on the order of the two segments. */
  lemma IntersectSymmetric(s1: Segment, s2: Segment)
    ensures Intersect(s1, s2) == Intersect(s2, s1)
  {
  }

  /** Sign facts behind the cross-product test. */
  lemma ScaledProductSign(u: int, m: int, n: int)
    requires u != 0
    ensures (u * m) * (u * n) <= 0 <==> m * n <= 0
  {
    assert (u * m) * (u * n) == (u * u) * (m * n);
    assert u * u > 0;
    if m * n <= 0 {
      assert (u * u) * (m * n) <= 0;
    } else {
      assert (u * u) * (m * n) > 0;
    }
  }

  lemma BetweenSign(t: int, e1: int, e2: int)
    ensures (t - e1) * (t - e2) <= 0 <==> Min(e1, e2) <= t <= Max(e1, e2)
  {
    var m, n := t - e1, t - e2;
    if m > 0 && n > 0 { assert m * n > 0; }
    else if m < 0 && n < 0 { assert m * n > 0; }
    else if m >= 0 && n <= 0 { assert m * n <= 0; }
    else { assert m * n <= 0; }
  }

  /** A non-degenerate vertical segment and a non-degenerate horizontal one
      score 1 exactly when they share a grid point. */
  lemma PerpendicularScoresSharedPoint(s1: Segment, s2: Segment)
    requires VLine(s1) && !Degenerate(s1)
    requires HLine(s2) && !Degenerate(s2)
    ensures Intersect(s1, s2) == if s1.start.x in Columns(s2) && s2.start.y in Rows(s1) then 1 else 0
  {
    assert Intersect(s1, s2) == if Straddle(s2, s1.start, s1.end) && Straddle(s1, s2.start, s2.end) then 1 else 0;
    HorizontalStraddledByVertical(s1, s2);
    VerticalStraddledByHorizontal(s1, s2);
  }

  /** The end points of a vertical segment lie on both sides of the line
      through a horizontal one exactly when that line's row is among its rows. */
  lemma HorizontalStraddledByVertical(s1: Segment, s2: Segment)
    requires VLine(s1) && HLine(s2) && !Degenerate(s2)
    ensures Straddle(s2, s1.start, s1.end) <==> s2.start.y in Rows(s1)
  {
    var a, b, c, d := s1.start, s1.end, s2.start, s2.end;
    var dx1 := d.x - c.x;
    assert Side(s2, a) == (-dx1) * (c.y - a.y) && Side(s2, b) == (-dx1) * (c.y - b.y);
    ScaledProductSign(-dx1, c.y - a.y, c.y - b.y);
    BetweenSign(c.y, a.y, b.y);
    InRange(Min(a.y, b.y), Max(a.y, b.y), c.y);
  }

  /** The end points of a horizontal segment lie on both sides of the line
      through a vertical one exactly when that line's column is among its columns. */
  lemma VerticalStraddledByHorizontal(s1: Segment, s2: Segment)
    requires VLine(s1) && !Degenerate(s1) && HLine(s2)
    ensures Straddle(s1, s2.start, s2.end) <==> s1.start.x in Columns(s2)
  {
    var a, b, c, d := s1.start, s1.end, s2.start, s2.end;
    var dy0 := b.y - a.y;
    assert Side(s1, c) == dy0 * (a.x - c.x) && Side(s1, d) == dy0 * (a.x - d.x);
    ScaledProductSign(dy0, a.x - c.x, a.x - d.x);
    BetweenSign(a.x, c.x, d.x);
    InRange(Min(c.x, d.x), Max(c.x, d.x), a.x);
  }

  /** Non-degenerate vertical segments on two different vertical lines score 0. */
  lemma ParallelVerticalApartScoresZero(s1: Segment, s2: Segment)
    requires VLine(s1) && VLine(s2) && !Degenerate(s2)
    requires s1.start.x != s2.start.x
    ensures Intersect(s1, s2) == 0
  {
    var a, b := s1.start, s1.end;
    var u := s2.end.y - s2.start.y;
    var m := s2.end.x - a.x;
    assert Side(s2, a) == u * m && Side(s2, b) == u * m;
    assert u * m != 0;
    assert (u * m) * (u * m) > 0;
  }

  /** The worked example: rows [2,5] and [4,8] on one vertical line share
      rows 4 and 5. */
  lemma SharedRowsExample()
    ensures Intersect(Segment(Point(3, 2), Point(3, 5)), Segment(Point(3, 8), Point(3, 4))) == 2
  {
  }

  /** Sum of the weights of `a` against every segment of `segsB`. */
  function RowSum(a: Segment, segsB: seq<Segment>): (r: int)
    ensures r >= 0
  {
    if segsB == [] then 0 else Intersect(a, segsB[0]) + RowSum(a, segsB[1..])
  }

  /** Sum of the weights of every segment of `segsA` against every segment of
      `segsB` (the two inner loops over a pair of paths). */
  function CrossCount(segsA: seq<Segment>, segsB: seq<Segment>): (r: int)
    ensures r >= 0
  {
    if segsA == [] then 0 else RowSum(segsA[0], segsB) + CrossCount(segsA[1..], segsB)
  }

  /** Sum of the weights of every segment of `segsA` against the single segment `b`. */
  function ColumnSum(segsA: seq<Segment>, b: Segment): (r: int)
    ensures r >= 0
  {
    if segsA == [] then 0 else Intersect(segsA[0], b) + ColumnSum(segsA[1..], b)
  }

  lemma {:induction false} ColumnSumIsRowSum(segsA: seq<Segment>, b: Segment)
    ensures ColumnSum(segsA, b) == RowSum(b, segsA)
  {
    if segsA != [] {
      IntersectSymmetric(segsA[0], b);
      ColumnSumIsRowSum(segsA[1..], b);
    }
  }

  lemma {:induction false} CrossCountFirstColumn(segsA: seq<Segment>, b: Segment, segsB: seq<Segment>)
    ensures CrossCount(segsA, [b] + segsB) == ColumnSum(segsA, b) + CrossCount(segsA, segsB)
  {
    if segsA != [] {
      assert ([b] + segsB)[1..] == segsB;
      CrossCountFirstColumn(segsA[1..], b, segsB);
    }
  }

  /** The count between two paths does not depend on which path is visited
      first. */
  lemma {:induction false} CrossCountSymmetric(segsA: seq<Segment>, segsB: seq<Segment>)
    ensures CrossCount(segsA, segsB) == CrossCount(segsB, segsA)
  {
    if segsB == [] {
      EmptyCrossCount(segsA);
    } else {
      assert segsB == [segsB[0]] + segsB[1..];
      CrossCountFirstColumn(segsA, segsB[0], segsB[1..]);
      ColumnSumIsRowSum(segsA, segsB[0]);
      CrossCountSymmetric(segsA, segsB[1..]);
    }
  }

  lemma {:induction false} EmptyCrossCount(segsA: seq<Segment>)
    ensures CrossCount(segsA, []) == 0
  {
    if segsA != [] { EmptyCrossCount(segsA[1..]); }
  }

  /** Pairs within one path whose indices differ by at least 3. */
  function SelfCount(segs: seq<Segment>): (r: int)
    ensures r >= 0
    ensures |segs| <= 3 ==> r == 0
  {
    if |segs| <= 3 then 0 else RowSum(segs[0], segs[3..]) + SelfCount(segs[1..])
  }

  /** Sum over every unordered pair of distinct paths (first index lower). */
  function PathPairsCount(paths: seq<Path>): (r: int)
    ensures r >= 0
  {
    if paths == [] then 0 else FirstAgainstRest(paths[0], paths[1..]) + PathPairsCount(paths[1..])
  }

  function FirstAgainstRest(p: Path, rest: seq<Path>): (r: int)
    ensures r >= 0
  {
    if rest == [] then 0 else CrossCount(p.segments, rest[0].segments) + FirstAgainstRest(p, rest[1..])
  }

  function SelfCounts(paths: seq<Path>): (r: int)
    ensures r >= 0
  {
    if paths == [] then 0 else SelfCount(paths[0].segments) + SelfCounts(paths[1..])
  }

  /** Total intersection units of a solution. */
  function Intersections(paths: seq<Path>): (r: int)
    ensures r >= 0
  {
    PathPairsCount(paths) + SelfCounts(paths)
  }

  /** Fitness weights (declared as floats in the source, integers here). */
  datatype Weights = Weights(length: int, segment: int, intersection: int)

  const DefaultWeights := Weights(1, 20, 1000)

  predicate NonNegative(w: Weights) {
    w.length >= 0 && w.segment >= 0 && w.intersection >= 0
  }

  /** Sum over the paths of segment_weight * #segments + length_weight * cached length. */
  function PathCosts(paths: seq<Path>, w: Weights): int
  {
    if paths == [] then 0
    else w.segment * |paths[0].segments| + w.length * paths[0].length + PathCosts(paths[1..], w)
  }

  function Fitness(paths: seq<Path>, w: Weights): int
  {
    PathCosts(paths, w) + w.intersection * Intersections(paths)
  }

  /** With non-negative weights and lengths, fitness is bounded below by the
      weighted segment count and the weighted intersection units. */
  lemma FitnessLowerBound(paths: seq<Path>, w: Weights)
    requires NonNegative(w)
    requires forall k :: 0 <= k < |paths| ==> paths[k].length >= 0
    ensures Fitness(paths, w) >= w.segment * SegmentCount(paths) + w.intersection * Intersections(paths)
    ensures Fitness(paths, w) >= 0
  {
    CostsLowerBound(paths, w);
    MulNonNegative(w.intersection, Intersections(paths));
  }

  lemma MulNonNegative(a: int, b: int)
    requires a >= 0 && b >= 0
    ensures a * b >= 0
  {
  }

  function SegmentCount(paths: seq<Path>): nat {
    if paths == [] then 0 else |paths[0].segments| + SegmentCount(paths[1..])
  }

  lemma {:induction false} CostsLowerBound(paths: seq<Path>, w: Weights)
    requires NonNegative(w)
    requires forall k :: 0 <= k < |paths| ==> paths[k].length >= 0
    ensures PathCosts(paths, w) >= w.segment * SegmentCount(paths) >= 0
  {
    if paths != [] {
      CostsLowerBound(paths[1..], w);
      assert w.length * paths[0].length >= 0;
      assert w.segment * SegmentCount(paths)
          == w.segment * |paths[0].segments| + w.segment * SegmentCount(paths[1..]);
    }
  }

  /** Innermost loop of `__calculate_intersections`: one segment against a list. */
  method AddRow(a: Segment, segsB: seq<Segment>) returns (count: int)
    ensures count == RowSum(a, segsB)
  {
    count := 0;
    var j := 0;
    while j < |segsB|
      invariant 0 <= j <= |segsB|
      invariant count + RowSum(a, segsB[j..]) == RowSum(a, segsB)
    {
      assert segsB[j..][1..] == segsB[j + 1..];
      count := count + Intersect(a, segsB[j]);
      j := j + 1;
    }
  }

  /** Every segment of one path against every segment of another. */
  method AddCross(segsA: seq<Segment>, segsB: seq<Segment>) returns (count: int)
    ensures count == CrossCount(segsA, segsB)
  {
    count := 0;
    var k := 0;
    while k < |segsA|
      invariant 0 <= k <= |segsA|
      invariant count + CrossCount(segsA[k..], segsB) == CrossCount(segsA, segsB)
    {
      assert segsA[k..][1..] == segsA[k + 1..];
      var row := AddRow(segsA[k], segsB);
      count := count + row;
      k := k + 1;
    }
  }

  /** Every segment of a path against the segments at least three places
      later in the same path. */
  method AddSelf(segs: seq<Segment>) returns (count: int)
    ensures count == SelfCount(segs)
  {
    count := 0;
    var k := 0;
    while k + 3 < |segs|
      invariant 0 <= k <= |segs|
      invariant count + SelfCount(segs[k..]) == SelfCount(segs)
    {
      assert segs[k..][1..] == segs[k + 1..] && segs[k..][3..] == segs[k + 3..];
      var row := AddRow(segs[k], segs[k + 3..]);
      count := count + row;
      k := k + 1;
    }
  }

  /** `__calculate_intersections`: every pair of distinct paths, then every
      path against itself. */
  method CalculateIntersections(paths: seq<Path>) returns (count: int)
    ensures count == Intersections(paths)
  {
    var pairs := 0;
    var i := 0;
    while i < |paths|
      invariant 0 <= i <= |paths|
      invariant pairs + PathPairsCount(paths[i..]) == PathPairsCount(paths)
    {
      assert paths[i..][1..] == paths[i + 1..];
      var rest := paths[i + 1..];
      var row := 0;
      var j := 0;
      while j < |rest|
        invariant 0 <= j <= |rest|
        invariant row + FirstAgainstRest(paths[i], rest[j..]) == FirstAgainstRest(paths[i], rest)
      {
        assert rest[j..][1..] == rest[j + 1..];
        var cross := AddCross(paths[i].segments, rest[j].segments);
        row := row + cross;
        j := j + 1;
      }
      pairs := pairs + row;
      i := i + 1;
    }
    var self := 0;
    i := 0;
    while i < |paths|
      invariant 0 <= i <= |paths|
      invariant self + SelfCounts(paths[i..]) == SelfCounts(paths)
    {
      assert paths[i..][1..] == paths[i + 1..];
      var own := AddSelf(paths[i].segments);
      self := self + own;
      i := i + 1;
    }
    count := pairs + self;
  }

  /** `calculate_fitness`: per-path segment and length costs, then the
      weighted intersection units. */
  method CalculateFitness(paths: seq<Path>, w: Weights) returns (fitness: int)
    ensures fitness == Fitness(paths, w)
  {
    fitness := 0;
    var i := 0;
    while i < |paths|
      invariant 0 <= i <= |paths|
      invariant fitness + PathCosts(paths[i..], w) == PathCosts(paths, w)
    {
      assert paths[i..][1..] == paths[i + 1..];
      fitness := fitness + w.segment * |paths[i].segments|;
      fitness := fitness + w.length * paths[i].length;
      i := i + 1;
    }
    var units := CalculateIntersections(paths);
    fitness := fitness + w.intersection * units;
  }
}
