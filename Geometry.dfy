/** Integer grid geometry: points, segments, paths and their Manhattan length. */
module Geometry {

  /** A grid point; equality is value equality, as `Point.__eq__` compares coordinates. */
  datatype Point = Point(x: int, y: int)

  /** An ordered pair of points; equality compares both endpoints. */
  datatype Segment = Segment(start: Point, end: Point)

  /** Grid bounds: valid points lie in [0, width-1] x [0, height-1]. */
  datatype Board = Board(width: int, height: int)

  /** A routed path with its cached length (the `length` attribute). */
  datatype Path = Path(segments: seq<Segment>, length: int)

  function Abs(n: int): nat { if n < 0 then -n else n }

  /** The segment lies on a vertical line (equal x). */
  predicate VLine(s: Segment) { s.start.x == s.end.x }

  /** The segment lies on a horizontal line (equal y). */
  predicate HLine(s: Segment) { s.start.y == s.end.y }

  predicate AxisAligned(s: Segment) { VLine(s) || HLine(s) }

  predicate Degenerate(s: Segment) { s.start == s.end }

  predicate InBoard(p: Point, b: Board) {
    0 <= p.x < b.width && 0 <= p.y < b.height
  }

  /** Per-segment length as `calculate_length` measures it: |dy| when the x
      values agree, |dx| otherwise. For an axis-aligned segment this is its
      Manhattan length. */
  function SegmentLength(s: Segment): (r: nat)
    ensures AxisAligned(s) ==> r == Abs(s.end.x - s.start.x) + Abs(s.end.y - s.start.y)
    ensures r == 0 <==> Degenerate(s)
  {
    if VLine(s) then Abs(s.start.y - s.end.y) else Abs(s.start.x - s.end.x)
  }

  /** Sum of the segment lengths, accumulated front to back. */
  function Length(segs: seq<Segment>): nat
  {
    if segs == [] then 0 else Length(segs[..|segs| - 1]) + SegmentLength(segs[|segs| - 1])
  }

  /** `Path.calculate_length`: adds up the segment lengths front to back. */
  method CalculateLength(segs: seq<Segment>) returns (total: int)
    ensures total == Length(segs)
  {
    total := 0;
    var k := 0;
    while k < |segs|
      invariant 0 <= k <= |segs|
      invariant total == Length(segs[..k])
    {
      assert segs[..k + 1][..k] == segs[..k];
      total := total + SegmentLength(segs[k]);
      k := k + 1;
    }
    assert segs[..k] == segs;
  }

  /** Every segment starts where the previous one ends. */
  predicate Contiguous(segs: seq<Segment>) {
    forall k :: 0 < k < |segs| ==> segs[k - 1].end == segs[k].start
  }

  predicate AllAligned(segs: seq<Segment>) {
    forall k :: 0 <= k < |segs| ==> AxisAligned(segs[k])
  }

  function ManhattanDistance(p: Point, q: Point): nat {
    Abs(q.x - p.x) + Abs(q.y - p.y)
  }

  /** A contiguous axis-aligned path is never shorter than the Manhattan
      distance between its two ends. */
  lemma {:induction false} LengthAtLeastDistance(segs: seq<Segment>)
    requires segs != [] && Contiguous(segs) && AllAligned(segs)
    ensures Length(segs) >= ManhattanDistance(segs[0].start, segs[|segs| - 1].end)
  {
    var n := |segs|;
    if n > 1 {
      var init := segs[..n - 1];
      assert Contiguous(init) && AllAligned(init);
      LengthAtLeastDistance(init);
      assert init[n - 2].end == segs[n - 1].start;
    }
  }

  /** Length of a concatenation is the sum of the lengths. */
  lemma {:induction false} LengthAppend(a: seq<Segment>, b: seq<Segment>)
    ensures Length(a + b) == Length(a) + Length(b)
    decreases |b|
  {
    if b != [] {
      var n := |b|;
      assert (a + b)[..|a + b| - 1] == a + b[..n - 1];
      LengthAppend(a, b[..n - 1]);
    } else {
      assert a + b == a;
    }
  }

  /** The last element of a non-empty vertex list. */
  function Last(v: seq<Point>): Point
    requires v != []
  {
    v[|v| - 1]
  }

  /** The vertex view of a non-empty contiguous segment list: its first start
      point followed by every end point. */
  function Vertices(segs: seq<Segment>): (v: seq<Point>)
    requires segs != []
    ensures |v| == |segs| + 1 && v[0] == segs[0].start && Last(v) == segs[|segs| - 1].end
    ensures forall k :: 0 <= k < |segs| ==> v[k + 1] == segs[k].end
  {
    seq(|segs| + 1, k requires 0 <= k <= |segs| => if k == 0 then segs[0].start else segs[k - 1].end)
  }

  /** The segments joining consecutive vertices. */
  function SegmentsOf(v: seq<Point>): (segs: seq<Segment>)
    requires v != []
    ensures |segs| == |v| - 1 && Contiguous(segs)
    ensures segs != [] ==> segs[0].start == v[0] && segs[|segs| - 1].end == Last(v)
    ensures forall k :: 0 <= k < |segs| ==> segs[k].start == v[k] && segs[k].end == v[k + 1]
  {
    seq(|v| - 1, k requires 0 <= k < |v| - 1 => Segment(v[k], v[k + 1]))
  }

  /** Cutting the vertices strictly between `a - 1` and `b` out of a path
      replaces the segments between them by one segment joining the two. */
  lemma SegmentsOfSplice(u: seq<Point>, a: nat, b: nat)
    requires 1 <= a < b < |u|
    ensures SegmentsOf(u[..a] + u[b..])
         == SegmentsOf(u)[..a - 1] + [Segment(u[a - 1], u[b])] + SegmentsOf(u)[b..]
  {
    var w := u[..a] + u[b..];
    var segs := SegmentsOf(u);
    var lhs := SegmentsOf(w);
    var rhs := segs[..a - 1] + [Segment(u[a - 1], u[b])] + segs[b..];
    assert |lhs| == |rhs|;
    forall k | 0 <= k < |lhs|
      ensures lhs[k] == rhs[k]
    {
      if k < a - 1 {
        assert w[k] == u[k] && w[k + 1] == u[k + 1];
      } else if k == a - 1 {
        assert w[k] == u[a - 1] && w[k + 1] == u[b];
      } else {
        assert w[k] == u[k - a + b] && w[k + 1] == u[k + 1 - a + b];
        assert rhs[k] == segs[k - a + b];
      }
    }
  }

  /** The two views are inverse to each other on contiguous paths. */
  lemma VertexViewRoundTrip(segs: seq<Segment>)
    requires segs != [] && Contiguous(segs)
    ensures SegmentsOf(Vertices(segs)) == segs
  {
  }

  lemma SegmentViewRoundTrip(v: seq<Point>)
    requires |v| >= 2
    ensures Vertices(SegmentsOf(v)) == v
  {
  }
}
