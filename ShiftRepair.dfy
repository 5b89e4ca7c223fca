/** The geometry of `mutate_shift`, in the vertex view of a path: segment k
    joins vertices k and k+1. Consecutive segments of a path share one Point
    object, so moving the two endpoints of segment i in place moves the end of
    segment i-1 and the start of segment i+1 with them; a vertex sequence
    captures exactly that sharing. */
module ShiftRepair {
  import opened Geometry
  import opened Wrappers
  import PathGen

  /** Moves `p` by `delta` along x when the shifted segment is vertical, along y otherwise. */
  function Nudge(p: Point, vertical: bool, delta: int): Point {
    if vertical then Point(p.x + delta, p.y) else Point(p.x, p.y + delta)
  }

  /** Segment i translated perpendicular to itself:
      both of its endpoints move by the same signed amount. */
  function Shifted(v: seq<Point>, i: nat, delta: int): (w: seq<Point>)
    requires 1 <= i && i + 2 < |v|
    ensures |w| == |v| && w[0] == v[0] && Last(w) == Last(v)
    ensures forall k :: 0 <= k < |v| && k != i && k != i + 1 ==> w[k] == v[k]
  {
    var vertical := v[i].x == v[i + 1].x;
    v[i := Nudge(v[i], vertical, delta)][i + 1 := Nudge(v[i + 1], vertical, delta)]
  }

  /** Result of the predecessor-side repair: the vertices and how many
      segments were deleted. */
  datatype Repaired = Repaired(vertices: seq<Point>, deletions: nat)

  /** Predecessor-side repair of `mutate_shift`, applied when segment
      i-1 became zero-length. */
  function RepairBefore(w: seq<Point>, i: nat): (r: Repaired)
    requires 1 <= i && i + 2 < |w|
    ensures r.deletions <= 4 && r.deletions <= i + 1 && (r.deletions <= 2 ==> r.deletions <= i)
    ensures |r.vertices| == |w| - r.deletions
    ensures r.deletions <= 2 ==> r.vertices[i - r.deletions + 1] == w[i + 1]
    ensures r.vertices[0] == w[0] && Last(r.vertices) == Last(w)
  {
    if w[i - 1] == w[i] then
      if i >= 3 && w[i + 1] == w[i - 2] then Repaired(w[..i - 2] + w[i + 2..], 4)
      else if i >= 2 && w[i + 1] == w[i - 2] then Repaired(w[..i - 1] + w[i + 2..], 3)
      else if i >= 2 then Repaired(w[..i - 1] + w[i + 1..], 2)
      else Repaired(w[1..], 1)
    else Repaired(w, 0)
  }

  /** The successor-side repair of `mutate_shift`, applied when the
      segment after the shifted one (now at index j) became zero-length.
      When the shifted segment is first (j == 0) and closes a loop back to its
      own start, the loop is cut out and the path starts at the shifted
      segment's start; the source instead patches `segments[-1]`, the last
      segment (see `RepairAfterAsWritten`). */
  function RepairAfter(u: seq<Point>, j: nat): (r: seq<Point>)
    requires j + 2 < |u| && u[j + 1] == u[j + 2]
    ensures 2 <= |r| < |u|
    ensures r[0] == u[0] && Last(r) == Last(u)
  {
    if j + 3 < |u| - 1 && u[j] == u[j + 3] then
      if j == 0 then u[..1] + u[4..] else u[..j] + u[j + 4..]
    else if j + 2 < |u| - 1 && u[j] == u[j + 3] then
      if j == 0 then u[..1] + u[3..] else u[..j] + u[j + 3..]
    else if j + 2 < |u| - 1 then u[..j + 1] + u[j + 3..]
    else u[..j + 1] + u[j + 2..]
  }

  /** The successor-side repair as the source writes it, on the segment
      list: `segments[segment_i - 1]` with segment_i == 0 is the last segment. */
  function RepairAfterAsWritten(segs: seq<Segment>, j: nat): (r: seq<Segment>)
    requires j + 1 < |segs|
    ensures |r| < |segs|
  {
    var prev := if j == 0 then |segs| - 1 else j - 1;
    if j + 3 < |segs| && segs[j].start == segs[j + 3].start then
      var patched := segs[prev := Segment(segs[prev].start, segs[j + 3].end)];
      patched[..j] + patched[j + 4..]
    else if j + 2 < |segs| && segs[j].start == segs[j + 2].end then
      var patched := segs[prev := Segment(segs[prev].start, segs[j + 2].end)];
      patched[..j] + patched[j + 3..]
    else if j + 2 < |segs| then
      segs[..j] + [Segment(segs[j].start, segs[j + 2].end)] + segs[j + 3..]
    else
      segs[..j + 1] + segs[j + 2..]
  }

  /** Replacing element `i - 1` and cutting `[i, k)` out of a sequence. */
  lemma PatchAndCut<T>(s: seq<T>, i: nat, k: nat, x: T)
    requires 1 <= i <= k <= |s|
    ensures s[i - 1 := x][..i] + s[i - 1 := x][k..] == s[..i - 1] + [x] + s[k..]
  {
    var p := s[i - 1 := x];
    assert p[..i] == s[..i - 1] + [x];
    assert p[k..] == s[k..];
  }

  /** Case (a) of the successor repair, a four-segment loop closing on the
      shifted segment's start, away from the first segment. */
  lemma RepairAfterMatchesSourceLoop4(u: seq<Point>, j: nat)
    requires 1 <= j && j + 3 < |u| - 1 && u[j + 1] == u[j + 2] && u[j] == u[j + 3]
    ensures SegmentsOf(RepairAfter(u, j)) == RepairAfterAsWritten(SegmentsOf(u), j)
  {
    var segs := SegmentsOf(u);
    SegmentsOfSplice(u, j, j + 4);
    var x := Segment(segs[j - 1].start, segs[j + 3].end);
    assert x == Segment(u[j - 1], u[j + 4]);
    PatchAndCut(segs, j, j + 4, x);
  }

  /** Case (b), a three-segment loop closing on the final vertex, away from
      the first segment. */
  lemma RepairAfterMatchesSourceLoop3(u: seq<Point>, j: nat)
    requires 1 <= j && j + 3 == |u| - 1 && u[j + 1] == u[j + 2] && u[j] == u[j + 3]
    ensures SegmentsOf(RepairAfter(u, j)) == RepairAfterAsWritten(SegmentsOf(u), j)
  {
    var segs := SegmentsOf(u);
    SegmentsOfSplice(u, j, j + 3);
    var x := Segment(segs[j - 1].start, segs[j + 2].end);
    assert x == Segment(u[j - 1], u[j + 3]);
    assert segs[j].start == u[j] && segs[j + 2].end == u[j + 3];
    assert RepairAfter(u, j) == u[..j] + u[j + 3..];
    PatchAndCut(segs, j, j + 3, x);
  }

  /** Case (c): the shifted segment absorbs the
      segment after the collapsed one. */
  lemma RepairAfterMatchesSourceMerge(u: seq<Point>, j: nat)
    requires 1 <= j && j + 2 < |u| - 1 && u[j + 1] == u[j + 2] && u[j] != u[j + 3]
    ensures SegmentsOf(RepairAfter(u, j)) == RepairAfterAsWritten(SegmentsOf(u), j)
  {
    var segs := SegmentsOf(u);
    assert RepairAfter(u, j) == u[..j + 1] + u[j + 3..];
    assert RepairAfterAsWritten(segs, j) == segs[..j] + [Segment(u[j], u[j + 3])] + segs[j + 3..] by {
      assert segs[j].start == u[j] && segs[j + 2].end == u[j + 3];
      assert j + 3 < |segs| ==> segs[j + 3].start == u[j + 3];
    }
    SegmentsOfSplice(u, j + 1, j + 3);
  }

  /** Case (d): the collapsed segment is the last one
      and is dropped. */
  lemma RepairAfterMatchesSourceDrop(u: seq<Point>, j: nat)
    requires 1 <= j && j + 2 == |u| - 1 && u[j + 1] == u[j + 2]
    ensures SegmentsOf(RepairAfter(u, j)) == RepairAfterAsWritten(SegmentsOf(u), j)
  {
    var segs := SegmentsOf(u);
    SegmentsOfSplice(u, j + 1, j + 2);
    assert segs[..j + 1] == segs[..j] + [Segment(u[j], u[j + 2])];
  }

  /** Away from the first segment, the vertex-view successor repair is
      exactly the source's segment-list repair. */
  lemma RepairAfterMatchesSource(u: seq<Point>, j: nat)
    requires 1 <= j && j + 2 < |u| && u[j + 1] == u[j + 2]
    ensures SegmentsOf(RepairAfter(u, j)) == RepairAfterAsWritten(SegmentsOf(u), j)
  {
    if j + 3 < |u| - 1 && u[j] == u[j + 3] {
      RepairAfterMatchesSourceLoop4(u, j);
    } else if j + 2 < |u| - 1 && u[j] == u[j + 3] {
      RepairAfterMatchesSourceLoop3(u, j);
    } else if j + 2 < |u| - 1 {
      RepairAfterMatchesSourceMerge(u, j);
    } else {
      RepairAfterMatchesSourceDrop(u, j);
    }
  }

  /** The source's repair with the shifted segment first. Shifting segment 1
      of (0,0) (4,0) (4,4) (0,4) (0,0) (5,0) by 4 towards x = 0 collapses
      segment 0, leaving the loop (0,0) -> (0,4) -> (0,0) at the start; the
      source then patches `segments[-1]` and deletes four segments, leaving
      no segment at all, where cutting the loop leaves (0,0) -> (5,0). */
  lemma RepairAfterWrapCounterexample()
    ensures var v := [Point(0, 0), Point(4, 0), Point(4, 4), Point(0, 4), Point(0, 0), Point(5, 0)];
      var u := [Point(0, 0), Point(0, 4), Point(0, 4), Point(0, 0), Point(5, 0)];
      && RepairBefore(Shifted(v, 1, -4), 1) == Repaired(u, 1)
      && RepairAfterAsWritten(SegmentsOf(u), 0) == []
      && RepairAfter(u, 0) == [Point(0, 0), Point(5, 0)]
      && InModel(v, 1, -4) && ShiftAndRepair(v, 1, -4) == [Point(0, 0), Point(5, 0)]
  {
    var u := [Point(0, 0), Point(0, 4), Point(0, 4), Point(0, 0), Point(5, 0)];
    assert SegmentsOf(u)[0].start == SegmentsOf(u)[3].start;
  }

  /** The shift-and-repair applies within the model: the successor repair
      runs only with the shifted segment still in place (at most two segments
      deleted before it). */
  predicate InModel(v: seq<Point>, i: nat, delta: int)
    requires 1 <= i && i + 2 < |v|
  {
    var w := Shifted(v, i, delta);
    var rep := RepairBefore(w, i);
    var u, j := rep.vertices, i - rep.deletions;
    u[j + 1] == u[j + 2] ==> rep.deletions <= 2
  }

  /** `mutate_shift` with a fixed segment and a fixed signed shift, on the
      vertices of a path with at least three segments. */
  function ShiftAndRepair(v: seq<Point>, i: nat, delta: int): (r: seq<Point>)
    requires 1 <= i && i + 2 < |v| && InModel(v, i, delta)
    ensures 2 <= |r| <= |v|
    ensures r[0] == v[0] && Last(r) == Last(v)
  {
    var w := Shifted(v, i, delta);
    var rep := RepairBefore(w, i);
    var u, j := rep.vertices, i - rep.deletions;
    if u[j + 1] == u[j + 2] then RepairAfter(u, j) else u
  }

  /** When neither neighbour collapses to a point, the path keeps its
      segment count and only the two endpoints of segment i move, both by
      `delta` perpendicular to the segment. */
  lemma ShiftWithoutCollapse(v: seq<Point>, i: nat, delta: int)
    requires 1 <= i && i + 2 < |v|
    requires var w := Shifted(v, i, delta); w[i - 1] != w[i] && w[i + 1] != w[i + 2]
    ensures InModel(v, i, delta)
    ensures var r := ShiftAndRepair(v, i, delta);
      && |r| == |v|
      && (forall k :: 0 <= k < |v| && k != i && k != i + 1 ==> r[k] == v[k])
      && (v[i].x == v[i + 1].x ==>
            r[i] == Point(v[i].x + delta, v[i].y) && r[i + 1] == Point(v[i + 1].x + delta, v[i + 1].y))
      && (v[i].x != v[i + 1].x ==>
            r[i] == Point(v[i].x, v[i].y + delta) && r[i + 1] == Point(v[i + 1].x, v[i + 1].y + delta))
  {
  }

  /** Whether the segment with index k runs vertically in a path whose first
      segment is vertical exactly when `firstVertical`. */
  function Orientation(k: nat, firstVertical: bool): bool {
    (k % 2 == 0) == firstVertical
  }

  /** An even distance between two indices gives them the same orientation. */
  lemma OrientationEven(k: nat, d: nat, o: bool)
    requires d % 2 == 0
    ensures Orientation(k + d, o) == Orientation(k, o)
  {
  }

  predicate OnAxis(p: Point, q: Point, vertical: bool) {
    if vertical then p.x == q.x else p.y == q.y
  }

  /** The shape `pathfinding` produces: every segment lies on a grid line and
      the lines alternate between vertical and horizontal. Zero-length
      segments are allowed. */
  predicate ZigZag(v: seq<Point>, firstVertical: bool) {
    forall k :: 0 <= k < |v| - 1 ==> OnAxis(v[k], v[k + 1], Orientation(k, firstVertical))
  }

  lemma ShiftedZigZag(v: seq<Point>, i: nat, delta: int, o: bool)
    requires 1 <= i && i + 2 < |v| && v[i] != v[i + 1] && ZigZag(v, o)
    ensures ZigZag(Shifted(v, i, delta), o)
  {
    var w := Shifted(v, i, delta);
    assert OnAxis(v[i], v[i + 1], Orientation(i, o));
    assert (v[i].x == v[i + 1].x) == Orientation(i, o);
    forall k | 0 <= k < |w| - 1
      ensures OnAxis(w[k], w[k + 1], Orientation(k, o))
    {
      assert OnAxis(v[k], v[k + 1], Orientation(k, o));
      if k == i - 1 || k == i + 1 {
        assert Orientation(k, o) == !Orientation(i, o);
      }
    }
  }

  /** Dropping the first m vertices keeps the zigzag, flipping the starting
      orientation when m is odd. */
  lemma DropZigZag(v: seq<Point>, o: bool, m: nat)
    requires m < |v| && ZigZag(v, o)
    ensures ZigZag(v[m..], Orientation(m, o))
  {
    forall k | 0 <= k < |v[m..]| - 1
      ensures OnAxis(v[m..][k], v[m..][k + 1], Orientation(k, Orientation(m, o)))
    {
      assert OnAxis(v[k + m], v[k + m + 1], Orientation(k + m, o));
    }
  }

  /** Replacing the vertices strictly between a-1 and b by one segment from
      v[a-1] to v[b] keeps the zigzag when that segment lies on the line the
      orientation of index a-1 asks for and the tail keeps its parity. */
  lemma SpliceZigZag(v: seq<Point>, o: bool, a: nat, b: nat)
    requires 1 <= a <= b < |v| && ZigZag(v, o)
    requires (b - a) % 2 == 0 || b == |v| - 1
    requires OnAxis(v[a - 1], v[b], Orientation(a - 1, o))
    ensures ZigZag(v[..a] + v[b..], o)
  {
    var r := v[..a] + v[b..];
    forall k | 0 <= k < |r| - 1
      ensures OnAxis(r[k], r[k + 1], Orientation(k, o))
    {
      if k < a - 1 {
        assert r[k] == v[k] && r[k + 1] == v[k + 1];
        assert OnAxis(v[k], v[k + 1], Orientation(k, o));
      } else if k >= a {
        assert r[k] == v[k - a + b] && r[k + 1] == v[k + 1 - a + b];
        SpliceTail(v, o, a, b, k);
      }
    }
  }

  /** Past the splice, segment k of the result is segment k - a + b of the
      original, which has the same orientation. */
  lemma SpliceTail(v: seq<Point>, o: bool, a: nat, b: nat, k: nat)
    requires a <= b && a <= k && k - a + b + 1 < |v| && (b - a) % 2 == 0 && ZigZag(v, o)
    ensures OnAxis(v[k - a + b], v[k - a + b + 1], Orientation(k, o))
  {
    var m := k + (b - a);
    assert OnAxis(v[m], v[m + 1], Orientation(m, o));
    OrientationEven(k, b - a, o);
  }

  /** Cutting a four-segment loop that closes before the shifted segment
      keeps the zigzag. */
  lemma RepairBeforeZigZagLoop(w: seq<Point>, i: nat, o: bool)
    requires 3 <= i && i + 2 < |w| && w[i - 1] == w[i] && w[i + 1] == w[i - 2] && ZigZag(w, o)
    ensures ZigZag(w[..i - 2] + w[i + 2..], Orientation(4, o))
  {
    assert OnAxis(w[i - 3], w[i - 2], Orientation(i - 3, o));
    assert OnAxis(w[i + 1], w[i + 2], Orientation(i + 1, o));
    OrientationEven(i - 3, 4, o);
    SpliceZigZag(w, o, i - 2, i + 2);
  }

  /** Merging the segments around a collapsed predecessor keeps the zigzag. */
  lemma RepairBeforeZigZagMerge(w: seq<Point>, i: nat, o: bool)
    requires 2 <= i && i + 2 < |w| && w[i - 1] == w[i] && ZigZag(w, o)
    ensures ZigZag(w[..i - 1] + w[i + 1..], Orientation(2, o))
  {
    assert OnAxis(w[i - 2], w[i - 1], Orientation(i - 2, o));
    assert OnAxis(w[i], w[i + 1], Orientation(i, o));
    OrientationEven(i - 2, 2, o);
    SpliceZigZag(w, o, i - 1, i + 1);
  }

  /** The predecessor repair keeps the zigzag; each deleted segment flips
      the orientation the path starts with. */
  lemma RepairBeforeZigZag(w: seq<Point>, i: nat, o: bool)
    requires 1 <= i && i + 2 < |w| && ZigZag(w, o)
    ensures ZigZag(RepairBefore(w, i).vertices, Orientation(RepairBefore(w, i).deletions, o))
  {
    if w[i - 1] == w[i] {
      if i >= 3 && w[i + 1] == w[i - 2] {
        assert RepairBefore(w, i) == Repaired(w[..i - 2] + w[i + 2..], 4);
        RepairBeforeZigZagLoop(w, i, o);
      } else if i >= 2 && w[i + 1] == w[i - 2] {
        assert RepairBefore(w, i) == Repaired(w[..i - 1] + w[i + 2..], 3);
        assert w[..i - 1] + w[i + 2..] == w[3..];
        DropZigZag(w, o, 3);
      } else if i >= 2 {
        assert RepairBefore(w, i) == Repaired(w[..i - 1] + w[i + 1..], 2);
        RepairBeforeZigZagMerge(w, i, o);
      } else {
        assert RepairBefore(w, i) == Repaired(w[1..], 1);
        DropZigZag(w, o, 1);
      }
    }
  }

  /** Cutting a four-segment loop after the collapsed segment keeps the zigzag. */
  lemma RepairAfterZigZagLoop4(u: seq<Point>, j: nat, o: bool)
    requires j + 3 < |u| - 1 && u[j + 1] == u[j + 2] && u[j] == u[j + 3] && ZigZag(u, o)
    ensures ZigZag(RepairAfter(u, j), o) || ZigZag(RepairAfter(u, j), !o)
  {
    if j == 0 {
      assert RepairAfter(u, j) == u[..1] + u[4..];
      CutHeadLoopZigZag(u, o);
    } else {
      assert RepairAfter(u, j) == u[..j] + u[j + 4..];
      CutInnerLoopZigZag(u, j, o);
    }
  }

  /** A four-segment loop that starts at the first vertex is cut by keeping
      the first vertex and resuming after the loop. */
  lemma CutHeadLoopZigZag(u: seq<Point>, o: bool)
    requires 4 < |u| && u[0] == u[3] && ZigZag(u, o)
    ensures ZigZag(u[..1] + u[4..], Orientation(3, o))
  {
    assert u[..1] + u[4..] == u[3..] by {
      assert forall k :: 0 <= k < |u| - 3 ==> (u[..1] + u[4..])[k] == u[3..][k];
    }
    DropZigZag(u, o, 3);
  }

  /** A four-segment loop after vertex j - 1 is cut out whole. */
  lemma CutInnerLoopZigZag(u: seq<Point>, j: nat, o: bool)
    requires 1 <= j && j + 4 < |u| && u[j] == u[j + 3] && ZigZag(u, o)
    ensures ZigZag(u[..j] + u[j + 4..], o)
  {
    assert OnAxis(u[j - 1], u[j], Orientation(j - 1, o));
    assert OnAxis(u[j + 3], u[j + 4], Orientation(j + 3, o));
    OrientationEven(j - 1, 4, o);
    SpliceZigZag(u, o, j, j + 4);
  }

  /** Cutting a loop that closes on the final vertex keeps the zigzag. */
  lemma RepairAfterZigZagLoop3(u: seq<Point>, j: nat, o: bool)
    requires j + 3 == |u| - 1 && u[j + 1] == u[j + 2] && u[j] == u[j + 3] && ZigZag(u, o)
    ensures ZigZag(RepairAfter(u, j), o) || ZigZag(RepairAfter(u, j), !o)
  {
    if j == 0 {
      assert RepairAfter(u, j) == u[..1] + u[3..] == [u[0], u[0]];
    } else {
      assert RepairAfter(u, j) == u[..j] + u[j + 3..];
      assert OnAxis(u[j - 1], u[j], Orientation(j - 1, o));
      SpliceZigZag(u, o, j, j + 3);
    }
  }

  /** Merging the segments around a collapsed one, or dropping a collapsed
      last segment, keeps the zigzag. */
  lemma RepairAfterZigZagMerge(u: seq<Point>, j: nat, o: bool)
    requires j + 2 < |u| && u[j + 1] == u[j + 2] && ZigZag(u, o)
    requires !(j + 2 < |u| - 1 && u[j] == u[j + 3])
    ensures ZigZag(RepairAfter(u, j), o)
  {
    if j + 2 < |u| - 1 {
      assert RepairAfter(u, j) == u[..j + 1] + u[j + 3..];
      assert OnAxis(u[j], u[j + 1], Orientation(j, o));
      assert OnAxis(u[j + 2], u[j + 3], Orientation(j + 2, o));
      OrientationEven(j, 2, o);
      SpliceZigZag(u, o, j + 1, j + 3);
    } else {
      assert RepairAfter(u, j) == u[..j + 1] + u[j + 2..];
      assert OnAxis(u[j], u[j + 1], Orientation(j, o));
      SpliceZigZag(u, o, j + 1, j + 2);
    }
  }

  /** The successor repair keeps the zigzag; cutting a loop at the start
      may flip the orientation the path starts with. */
  lemma RepairAfterZigZag(u: seq<Point>, j: nat, o: bool)
    requires j + 2 < |u| && u[j + 1] == u[j + 2]
    requires ZigZag(u, o)
    ensures ZigZag(RepairAfter(u, j), o) || ZigZag(RepairAfter(u, j), !o)
  {
    if j + 3 < |u| - 1 && u[j] == u[j + 3] {
      RepairAfterZigZagLoop4(u, j, o);
    } else if j + 2 < |u| - 1 && u[j] == u[j + 3] {
      RepairAfterZigZagLoop3(u, j, o);
    } else {
      RepairAfterZigZagMerge(u, j, o);
    }
  }

  /** Shifting a segment of non-zero length keeps a zigzag path a zigzag:
      every segment of the result is still vertical or horizontal, and the
      two kinds still alternate. */
  lemma ShiftKeepsZigZag(v: seq<Point>, i: nat, delta: int, o: bool)
    requires 1 <= i && i + 2 < |v| && InModel(v, i, delta)
    requires v[i] != v[i + 1] && ZigZag(v, o)
    ensures ZigZag(ShiftAndRepair(v, i, delta), true) || ZigZag(ShiftAndRepair(v, i, delta), false)
  {
    var w := Shifted(v, i, delta);
    ShiftedZigZag(v, i, delta, o);
    var rep := RepairBefore(w, i);
    var o' := Orientation(rep.deletions, o);
    RepairBeforeZigZag(w, i, o);
    var u, j := rep.vertices, i - rep.deletions;
    if u[j + 1] == u[j + 2] {
      RepairAfterZigZag(u, j, o');
    }
  }

  /** Whether the segment to shift is moved along x (it is vertical). */
  predicate ShiftsAlongX(v: seq<Point>, i: nat)
    requires i + 1 < |v|
  {
    v[i].x == v[i + 1].x
  }

  /** Room between the segment and the low (left or upper) board edge. */
  function LowEdge(v: seq<Point>, i: nat): int
    requires i + 1 < |v|
  {
    if ShiftsAlongX(v, i) then v[i].x else v[i].y
  }

  /** Room between the segment and the high (right or lower) board edge. */
  function HighEdge(v: seq<Point>, i: nat, b: Board): int
    requires i + 1 < |v|
  {
    if ShiftsAlongX(v, i) then b.width - 1 - v[i].x else b.height - 1 - v[i].y
  }

  /** Direction choice of `mutate_shift`, from the override or the coin: an override of 0 forces a
      decrease, 1 forces an increase, anything else (or none) flips `coin`,
      declining a decrease towards an edge with no room and insisting on one
      when the other edge has no room. */
  predicate Decreases(v: seq<Point>, i: nat, b: Board, direction: Option<int>, coin: bool)
    requires i + 1 < |v|
  {
    direction == Some(0)
    || (((coin && LowEdge(v, i) != 0) || HighEdge(v, i, b) == 0) && direction != Some(1))
  }

  /** The room on the chosen side; a drawn shift length lies in [1, room]. */
  function Room(v: seq<Point>, i: nat, b: Board, direction: Option<int>, coin: bool): int
    requires i + 1 < |v|
  {
    if Decreases(v, i, b, direction, coin) then LowEdge(v, i) else HighEdge(v, i, b)
  }

  /** The signed shift `mutate_shift` applies: the override length when
      given, otherwise `randrange(1, room + 1)` drawn from `raw`; negative
      for a decrease. */
  function ShiftDelta(v: seq<Point>, i: nat, b: Board, length: Option<int>, direction: Option<int>,
                      coin: bool, raw: nat): (delta: int)
    requires i + 1 < |v|
    requires length.None? ==> Room(v, i, b, direction, coin) >= 1
    ensures Decreases(v, i, b, direction, coin) ==> delta <= 0 || (length.Some? && length.value < 0)
    ensures !Decreases(v, i, b, direction, coin) ==> delta >= 0 || (length.Some? && length.value < 0)
    ensures length.Some? ==> Abs(delta) == Abs(length.value)
    ensures length.None? ==> 1 <= Abs(delta) <= Room(v, i, b, direction, coin)
  {
    var amount := if length.Some? then length.value else PathGen.RandRange(raw, Room(v, i, b, direction, coin));
    if Decreases(v, i, b, direction, coin) then -amount else amount
  }

  /** On a board at least two cells wide and high, a random direction always
      finds room, so the length draw never fails. */
  lemma RandomDirectionHasRoom(v: seq<Point>, i: nat, b: Board, direction: Option<int>, coin: bool)
    requires i + 1 < |v| && b.width >= 2 && b.height >= 2 && InBoard(v[i], b)
    requires direction != Some(0) && direction != Some(1)
    ensures Room(v, i, b, direction, coin) >= 1
  {
  }

  /** A drawn shift keeps an axis-aligned segment on the board, and really moves it. */
  lemma DrawnShiftStaysOnBoard(v: seq<Point>, i: nat, b: Board, direction: Option<int>, coin: bool, raw: nat)
    requires 1 <= i && i + 2 < |v|
    requires InBoard(v[i], b) && InBoard(v[i + 1], b) && AxisAligned(Segment(v[i], v[i + 1]))
    requires Room(v, i, b, direction, coin) >= 1
    ensures var delta := ShiftDelta(v, i, b, None, direction, coin, raw);
      var w := Shifted(v, i, delta);
      && delta != 0
      && InBoard(w[i], b) && InBoard(w[i + 1], b)
  {
  }

  /** The shift with both overrides given, on a 20 x 20 board: the coin and
      the raw draw play no part. */
  function ShiftWith(v: seq<Point>, i: nat, length: int, direction: int, coin: bool, raw: nat): int
    requires i + 1 < |v|
  {
    ShiftDelta(v, i, Board(20, 20), Some(length), Some(direction), coin, raw)
  }

  /** Splices fixed by test_mutation_shift.py, one lemma per case, whatever
      the coin and the raw draw. */
  lemma ShiftTest1(coin: bool, raw: nat)
    ensures var v := [Point(0, 0), Point(4, 0), Point(4, 4), Point(8, 4), Point(8, 8)];
      var d := ShiftWith(v, 1, 4, 1, coin, raw);
      InModel(v, 1, d) && ShiftAndRepair(v, 1, d) == [Point(0, 0), Point(8, 0), Point(8, 8)]
  {
  }

  lemma ShiftTest2(coin: bool, raw: nat)
    ensures var v := [Point(0, 0), Point(0, 4), Point(4, 4), Point(4, 0)];
      var d := ShiftWith(v, 1, 4, 0, coin, raw);
      InModel(v, 1, d) && ShiftAndRepair(v, 1, d) == [Point(0, 0), Point(4, 0)]
  {
  }

  lemma ShiftTest3(coin: bool, raw: nat)
    ensures var v := [Point(0, 4), Point(4, 4), Point(4, 8), Point(8, 8), Point(8, 4), Point(12, 4)];
      var d := ShiftWith(v, 2, 4, 0, coin, raw);
      InModel(v, 2, d) && ShiftAndRepair(v, 2, d) == [Point(0, 4), Point(12, 4)]
  {
  }

  lemma ShiftTest4(coin: bool, raw: nat)
    ensures var v := [Point(0, 4), Point(4, 4), Point(4, 8), Point(8, 8), Point(8, 4), Point(12, 4)];
      var d := ShiftWith(v, 2, 2, 0, coin, raw);
      InModel(v, 2, d) && ShiftAndRepair(v, 2, d) == [Point(0, 4), Point(4, 4), Point(4, 6), Point(8, 6), Point(8, 4), Point(12, 4)]
  {
  }

  lemma ShiftTest5(coin: bool, raw: nat)
    ensures var v := [Point(6, 0), Point(6, 10), Point(5, 10), Point(5, 11), Point(6, 11)];
      var d := ShiftWith(v, 2, 1, 1, coin, raw);
      InModel(v, 2, d) && ShiftAndRepair(v, 2, d) == [Point(6, 0), Point(6, 11)]
  {
  }

  lemma ShiftTest6(coin: bool, raw: nat)
    ensures var v := [Point(6, 0), Point(6, 10), Point(5, 10), Point(5, 11), Point(6, 11)];
      var d := ShiftWith(v, 1, 1, 1, coin, raw);
      InModel(v, 1, d) && ShiftAndRepair(v, 1, d) == [Point(6, 0), Point(6, 11)]
  {
  }

  lemma ShiftTest7(coin: bool, raw: nat)
    ensures var v := [Point(0, 4), Point(4, 4), Point(4, 0), Point(8, 0), Point(8, 2), Point(6, 2)];
      var d := ShiftWith(v, 1, 4, 1, coin, raw);
      InModel(v, 1, d) && ShiftAndRepair(v, 1, d) == [Point(0, 4), Point(8, 4), Point(8, 2), Point(6, 2)]
  {
  }

  lemma ShiftTest8(coin: bool, raw: nat)
    ensures var v := [Point(0, 6), Point(0, 3), Point(3, 3), Point(3, 0), Point(6, 0), Point(6, 3), Point(4, 3), Point(4, 5)];
      var d := ShiftWith(v, 2, 3, 1, coin, raw);
      InModel(v, 2, d) && ShiftAndRepair(v, 2, d) == [Point(0, 6), Point(0, 3), Point(4, 3), Point(4, 5)]
  {
  }

  lemma ShiftTest9(coin: bool, raw: nat)
    ensures var v := [Point(0, 6), Point(0, 3), Point(3, 3), Point(3, 0), Point(6, 0), Point(6, 3), Point(4, 3), Point(4, 5)];
      var d := ShiftWith(v, 3, 3, 1, coin, raw);
      InModel(v, 3, d) && ShiftAndRepair(v, 3, d) == [Point(0, 6), Point(0, 3), Point(4, 3), Point(4, 5)]
  {
  }

  lemma ShiftTest10(coin: bool, raw: nat)
    ensures var v := [Point(0, 6), Point(0, 3), Point(3, 3), Point(3, 0), Point(6, 0), Point(6, 3), Point(4, 3), Point(4, 5)];
      var d := ShiftWith(v, 4, 3, 0, coin, raw);
      InModel(v, 4, d) && ShiftAndRepair(v, 4, d) == [Point(0, 6), Point(0, 3), Point(4, 3), Point(4, 5)]
  {
  }

  lemma ShiftTest11(coin: bool, raw: nat)
    ensures var v := [Point(0, 6), Point(0, 3), Point(3, 3), Point(3, 0), Point(6, 0), Point(6, 3), Point(4, 3), Point(4, 5)];
      var d := ShiftWith(v, 5, 3, 0, coin, raw);
      InModel(v, 5, d) && ShiftAndRepair(v, 5, d) == [Point(0, 6), Point(0, 3), Point(3, 3), Point(3, 0), Point(4, 0), Point(4, 5)]
  {
  }
}
