/** The randomized builder of contiguous axis-aligned paths (`pathfinding`).
    The random source is an oracle: one `Draw` per loop iteration holds the
    already-decided outcomes of the two `random()` calls and of `randrange`. */
module PathGen {
  import opened Geometry

  /** Which quarter of [0,1) `axis_choice` fell in: the source compares it with
      0.25, 0.5 and 0.75 only, so `axis_choice < 0.25` is `quarter == 0`,
      `axis_choice < 0.5` is `quarter <= 1`, `axis_choice < 0.75` is `quarter <= 2`. */
  type Quarter = q: int | 0 <= q < 4

  /** The random outcomes of one iteration: `toward` is `direction_choice <
      direction_probability`; `raw` picks the step length out of its range. */
  datatype Draw = Draw(quarter: Quarter, toward: bool, raw: nat)

  /** `randrange(1, bound + 1)`: some value in [1, bound]; every value of the
      range is reached by some `raw`. */
  function RandRange(raw: nat, bound: int): (r: int)
    requires bound >= 1
    ensures 1 <= r <= bound
    ensures raw < bound ==> r == raw + 1
  {
    1 + raw % bound
  }

  /** One chosen step: where it ends, how long it is, and whether it is horizontal. */
  datatype Move = Move(end: Point, length: nat, horizontal: bool)

  function MoveX(cur: Point, delta: int): Move {
    Move(Point(cur.x + delta, cur.y), Abs(delta), true)
  }

  function MoveY(cur: Point, delta: int): Move {
    Move(Point(cur.x, cur.y + delta), Abs(delta), false)
  }

  predicate BoardOk(b: Board) { b.width >= 2 && b.height >= 2 }

  /** A step of length at least 1 along one axis from `cur` that stays on the board. */
  predicate StepFrom(cur: Point, m: Move, b: Board) {
    && m.length >= 1 && InBoard(m.end, b)
    && (m.horizontal ==> m.end.y == cur.y && Abs(m.end.x - cur.x) == m.length)
    && (!m.horizontal ==> m.end.x == cur.x && Abs(m.end.y - cur.y) == m.length)
  }

  /** The step ends `m.length` closer to `end`: it goes toward `end` without passing it. */
  predicate Approaches(cur: Point, end: Point, m: Move) {
    ManhattanDistance(m.end, end) + m.length == ManhattanDistance(cur, end)
  }

  /** First segment, "toward target" draw. */
  function FirstToward(cur: Point, end: Point, b: Board, d: Draw): (m: Move)
    requires BoardOk(b) && InBoard(cur, b) && InBoard(end, b) && cur != end
    ensures StepFrom(cur, m, b)
    ensures cur.x == end.x || cur.y == end.y ==> Approaches(cur, end, m)
  {
    var ox, oy := end.x - cur.x, end.y - cur.y;
    if ox != 0 && oy != 0 then
      if d.quarter <= 1 then
        if ox > 0 then MoveX(cur, RandRange(d.raw, b.width - 1 - cur.x))
        else MoveX(cur, -RandRange(d.raw, cur.x))
      else
        if oy > 0 then MoveY(cur, RandRange(d.raw, b.height - 1 - cur.y))
        else MoveY(cur, -RandRange(d.raw, cur.y))
    else if ox == 0 then
      var len := RandRange(d.raw, Abs(oy));
      if oy > 0 then MoveY(cur, len) else MoveY(cur, -len)
    else
      var len := RandRange(d.raw, Abs(ox));
      if ox > 0 then MoveX(cur, len) else MoveX(cur, -len)
  }

  /** First segment, "random" draw: an axis and a
      direction, steered away from a board edge. */
  function FirstRandom(cur: Point, b: Board, d: Draw): (m: Move)
    requires BoardOk(b) && InBoard(cur, b)
    ensures StepFrom(cur, m, b)
  {
    var q := d.quarter;
    if (q == 0 && cur.x != b.width - 1) || (q <= 1 && cur.x == 0) then
      MoveX(cur, RandRange(d.raw, b.width - 1 - cur.x))
    else if q <= 1 && (cur.x != 0 || cur.x == b.width - 1) then
      MoveX(cur, -RandRange(d.raw, cur.x))
    else if (q <= 2 && cur.y != b.height - 1) || cur.y == 0 then
      MoveY(cur, RandRange(d.raw, b.height - 1 - cur.y))
    else
      MoveY(cur, -RandRange(d.raw, cur.y))
  }

  /** Later segment, "toward target" draw: the axis
      is the one the previous segment did not use. */
  function NextToward(cur: Point, end: Point, b: Board, lastH: bool, d: Draw): (m: Move)
    requires BoardOk(b) && InBoard(cur, b) && InBoard(end, b) && cur != end
    ensures StepFrom(cur, m, b) && m.horizontal == !lastH
    ensures (lastH && cur.x == end.x) || (!lastH && cur.y == end.y) ==> Approaches(cur, end, m)
  {
    var ox, oy := end.x - cur.x, end.y - cur.y;
    var q := d.quarter;
    if lastH then
      if ox == 0 then
        var len := RandRange(d.raw, Abs(oy));
        if oy > 0 then MoveY(cur, len) else MoveY(cur, -len)
      else if oy > 0 || (oy == 0 && q <= 1 && cur.y != b.height - 1) || cur.y == 0 then
        MoveY(cur, RandRange(d.raw, b.height - 1 - cur.y))
      else
        MoveY(cur, -RandRange(d.raw, cur.y))
    else
      if oy == 0 then
        var len := RandRange(d.raw, Abs(ox));
        if ox > 0 then MoveX(cur, len) else MoveX(cur, -len)
      else if ox > 0 || (ox == 0 && q <= 1 && cur.x != b.width - 1) || cur.x == 0 then
        MoveX(cur, RandRange(d.raw, b.width - 1 - cur.x))
      else
        MoveX(cur, -RandRange(d.raw, cur.x))
  }

  /** Later segment, "random" draw. */
  function NextRandom(cur: Point, b: Board, lastH: bool, d: Draw): (m: Move)
    requires BoardOk(b) && InBoard(cur, b)
    ensures StepFrom(cur, m, b) && m.horizontal == !lastH
  {
    if lastH then
      if (d.quarter <= 1 && cur.y != b.height - 1) || cur.y == 0 then
        MoveY(cur, RandRange(d.raw, b.height - 1 - cur.y))
      else MoveY(cur, -RandRange(d.raw, cur.y))
    else
      if (d.quarter <= 1 && cur.x != b.width - 1) || cur.x == 0 then
        MoveX(cur, RandRange(d.raw, b.width - 1 - cur.x))
      else MoveX(cur, -RandRange(d.raw, cur.x))
  }

  /** The choice of the next segment when the segment cap has not been
      reached. `first` is true while no segment exists yet; `lastH` says
      whether the previous segment was horizontal. */
  function FreeStep(cur: Point, end: Point, b: Board, first: bool, lastH: bool, d: Draw): (m: Move)
    requires BoardOk(b) && InBoard(cur, b) && InBoard(end, b)
    requires cur != end || (first && !d.toward)
    ensures StepFrom(cur, m, b)
    ensures !first ==> m.horizontal == !lastH
  {
    if first then
      if d.toward then FirstToward(cur, end, b, d) else FirstRandom(cur, b, d)
    else
      if d.toward then NextToward(cur, end, b, lastH, d) else NextRandom(cur, b, lastH, d)
  }

  /** Consecutive segments lie on lines of different orientation (a
      degenerate segment lies on both). */
  predicate Alternates(a: Segment, b: Segment) {
    (HLine(a) && VLine(b)) || (VLine(a) && HLine(b))
  }

  /** Where the next segment starts. */
  function Current(segs: seq<Segment>, start: Point): Point {
    if segs == [] then start else segs[|segs| - 1].end
  }

  /** Number of axes on which `p` still differs from `q`. */
  function Misaligned(p: Point, q: Point): nat {
    (if p.x != q.x then 1 else 0) + (if p.y != q.y then 1 else 0)
  }

  function MaxNat(a: nat, b: nat): nat { if a <= b then b else a }

  /** The prefix is kept in order, except that the end of its last segment
      may have been moved. */
  predicate KeepsPrefix(segs: seq<Segment>, prefix: seq<Segment>, start: Point) {
    && |prefix| <= |segs|
    && (forall k :: 0 <= k < |prefix| && k < |segs| - 1 ==> segs[k] == prefix[k])
    && (prefix != [] ==> segs[|prefix| - 1].start == prefix[|prefix| - 1].start)
    && (prefix == [] && segs != [] ==> segs[0].start == start)
  }

  /** Every generated segment (index at least |prefix|) but the last is
      non-degenerate, and each one lies across the line of its predecessor. */
  predicate GeneratedShape(segs: seq<Segment>, prefix: seq<Segment>) {
    && (forall k :: |prefix| <= k < |segs| - 1 ==> !Degenerate(segs[k]))
    && (forall k :: 0 < k < |segs| && |prefix| <= k ==> Alternates(segs[k - 1], segs[k]))
  }

  predicate OnBoard(segs: seq<Segment>, b: Board) {
    forall k :: 0 <= k < |segs| ==> InBoard(segs[k].start, b) && InBoard(segs[k].end, b)
  }

  /** The shape guarantees of a path under construction from `prefix`. */
  predicate Shaped(segs: seq<Segment>, prefix: seq<Segment>, start: Point, b: Board) {
    && KeepsPrefix(segs, prefix, start)
    && Contiguous(segs) && AllAligned(segs)
    && GeneratedShape(segs, prefix)
    && OnBoard(segs, b)
  }

  lemma LengthSnoc(segs: seq<Segment>, s: Segment)
    ensures Length(segs + [s]) == Length(segs) + SegmentLength(s)
  {
    assert (segs + [s])[..|segs|] == segs;
  }

  /** Every generated segment is non-degenerate (true until the in-place move). */
  predicate GeneratedProper(segs: seq<Segment>, prefix: seq<Segment>) {
    forall k :: |prefix| <= k < |segs| ==> !Degenerate(segs[k])
  }

  lemma AppendKeepsPrefix(segs: seq<Segment>, prefix: seq<Segment>, start: Point, s: Segment)
    requires KeepsPrefix(segs, prefix, start) && segs[..|prefix|] == prefix
    requires s.start == Current(segs, start)
    ensures KeepsPrefix(segs + [s], prefix, start) && (segs + [s])[..|prefix|] == prefix
  {
    assert (segs + [s])[..|prefix|] == segs[..|prefix|];
  }

  lemma AppendContiguous(segs: seq<Segment>, start: Point, s: Segment)
    requires Contiguous(segs) && s.start == Current(segs, start)
    ensures Contiguous(segs + [s])
  {
  }

  lemma AppendAlignedOnBoard(segs: seq<Segment>, b: Board, s: Segment)
    requires AllAligned(segs) && OnBoard(segs, b)
    requires AxisAligned(s) && InBoard(s.start, b) && InBoard(s.end, b)
    ensures AllAligned(segs + [s]) && OnBoard(segs + [s], b)
  {
  }

  lemma AppendGenerated(segs: seq<Segment>, prefix: seq<Segment>, s: Segment)
    requires GeneratedShape(segs, prefix) && GeneratedProper(segs, prefix) && AllAligned(segs)
    requires !Degenerate(s) && AxisAligned(s)
    requires segs != [] ==> (VLine(s) <==> !VLine(segs[|segs| - 1]))
    ensures GeneratedShape(segs + [s], prefix) && GeneratedProper(segs + [s], prefix)
  {
    var r := segs + [s];
    var n := |r|;
    forall k | 0 < k < n && |prefix| <= k
      ensures Alternates(r[k - 1], r[k])
    {
      if k == n - 1 {
        assert AxisAligned(segs[n - 2]);
      }
    }
  }

  /** A step drawn from `cur` is a segment of the step's length, vertical
      exactly when the step is not horizontal. */
  lemma StepSegment(cur: Point, m: Move, b: Board)
    requires StepFrom(cur, m, b)
    ensures SegmentLength(Segment(cur, m.end)) == m.length
    ensures m.horizontal == !VLine(Segment(cur, m.end))
  {
    if m.horizontal {
      assert HLine(Segment(cur, m.end));
    }
  }

  /** Appending a step from the current point keeps the shape guarantees. */
  lemma AppendStep(segs: seq<Segment>, prefix: seq<Segment>, start: Point, b: Board, lastH: bool, m: Move)
    requires Shaped(segs, prefix, start, b) && InBoard(start, b) && segs[..|prefix|] == prefix
    requires GeneratedProper(segs, prefix)
    requires segs != [] ==> lastH == !VLine(segs[|segs| - 1]) && m.horizontal == !lastH
    requires StepFrom(Current(segs, start), m, b)
    ensures var s := Segment(Current(segs, start), m.end);
            && Shaped(segs + [s], prefix, start, b)
            && GeneratedProper(segs + [s], prefix)
            && (segs + [s])[..|prefix|] == prefix
            && Length(segs + [s]) == Length(segs) + m.length
            && m.horizontal == !VLine(s)
  {
    var cur := Current(segs, start);
    var s := Segment(cur, m.end);
    assert InBoard(cur, b);
    StepSegment(cur, m, b);
    LengthSnoc(segs, s);
    AppendKeepsPrefix(segs, prefix, start, s);
    AppendContiguous(segs, start, s);
    AppendAlignedOnBoard(segs, b, s);
    AppendGenerated(segs, prefix, s);
  }

  /** The segments with the last one's end point replaced by `moved`. */
  function WithLastEnd(segs: seq<Segment>, moved: Point): (r: seq<Segment>)
    requires segs != []
    ensures |r| == |segs| && r[..|segs| - 1] == segs[..|segs| - 1]
    ensures r[|r| - 1] == Segment(segs[|segs| - 1].start, moved)
  {
    segs[..|segs| - 1] + [Segment(segs[|segs| - 1].start, moved)]
  }

  /** Moving the last segment's end to `moved`, along that segment's own
      line, keeps the shape guarantees. */
  lemma FixLast(segs: seq<Segment>, prefix: seq<Segment>, start: Point, b: Board, lastH: bool, moved: Point)
    requires Shaped(segs, prefix, start, b) && InBoard(moved, b) && segs != []
    requires GeneratedProper(segs, prefix)
    requires lastH == !VLine(segs[|segs| - 1])
    requires lastH ==> moved.y == segs[|segs| - 1].end.y
    requires !lastH ==> moved.x == segs[|segs| - 1].end.x
    ensures Shaped(WithLastEnd(segs, moved), prefix, start, b)
  {
    assert AxisAligned(segs[|segs| - 1]);
    FixLastPrefix(segs, prefix, start, moved);
    FixLastContiguous(segs, moved);
    FixLastAligned(segs, lastH, moved);
    FixLastAlternates(segs, prefix, lastH, moved);
    FixLastOnBoard(segs, b, moved);
  }

  lemma FixLastPrefix(segs: seq<Segment>, prefix: seq<Segment>, start: Point, moved: Point)
    requires segs != [] && KeepsPrefix(segs, prefix, start)
    ensures KeepsPrefix(WithLastEnd(segs, moved), prefix, start)
  {
    var r := WithLastEnd(segs, moved);
    assert forall k :: 0 <= k < |segs| - 1 ==> r[k] == r[..|segs| - 1][k];
  }

  lemma FixLastContiguous(segs: seq<Segment>, moved: Point)
    requires segs != [] && Contiguous(segs)
    ensures Contiguous(WithLastEnd(segs, moved))
  {
    var r := WithLastEnd(segs, moved);
    assert forall k :: 0 <= k < |segs| - 1 ==> r[k] == r[..|segs| - 1][k];
  }

  lemma FixLastAligned(segs: seq<Segment>, lastH: bool, moved: Point)
    requires segs != [] && AllAligned(segs)
    requires lastH == !VLine(segs[|segs| - 1])
    requires lastH ==> moved.y == segs[|segs| - 1].end.y
    requires !lastH ==> moved.x == segs[|segs| - 1].end.x
    ensures AllAligned(WithLastEnd(segs, moved))
  {
    var r := WithLastEnd(segs, moved);
    assert forall k :: 0 <= k < |segs| - 1 ==> r[k] == r[..|segs| - 1][k];
    assert AxisAligned(segs[|segs| - 1]);
  }

  /** The moved last segment stays on the line of the old one, so it still
      turns at its start. */
  lemma FixLastAlternates(segs: seq<Segment>, prefix: seq<Segment>, lastH: bool, moved: Point)
    requires segs != [] && AxisAligned(segs[|segs| - 1])
    requires GeneratedShape(segs, prefix) && GeneratedProper(segs, prefix)
    requires lastH == !VLine(segs[|segs| - 1])
    requires lastH ==> moved.y == segs[|segs| - 1].end.y
    requires !lastH ==> moved.x == segs[|segs| - 1].end.x
    ensures GeneratedShape(WithLastEnd(segs, moved), prefix)
  {
    var n := |segs|;
    var r := WithLastEnd(segs, moved);
    assert forall k :: 0 <= k < n - 1 ==> r[k] == r[..n - 1][k];
    forall k | 0 < k < n && |prefix| <= k
      ensures Alternates(r[k - 1], r[k])
    {
      if k == n - 1 {
        assert Alternates(segs[k - 1], segs[n - 1]);
      } else {
        assert r[k - 1] == segs[k - 1] && r[k] == segs[k];
      }
    }
  }

  lemma FixLastOnBoard(segs: seq<Segment>, b: Board, moved: Point)
    requires segs != [] && OnBoard(segs, b) && InBoard(moved, b)
    ensures OnBoard(WithLastEnd(segs, moved), b)
  {
    var r := WithLastEnd(segs, moved);
    assert forall k :: 0 <= k < |segs| - 1 ==> r[k] == r[..|segs| - 1][k];
  }

  /** How far a segment reaches along the x axis (`horizontal`) or the y axis. */
  function Extent(s: Segment, horizontal: bool): nat {
    if horizontal then Abs(s.start.x - s.end.x) else Abs(s.start.y - s.end.y)
  }

  /** The length bookkeeping of the in-place move: subtracting the old
      extent of the last segment and adding the new one gives the length of
      the moved path. */
  lemma FixLastLength(segs: seq<Segment>, lastH: bool, moved: Point)
    requires segs != [] && AxisAligned(segs[|segs| - 1])
    requires lastH == !VLine(segs[|segs| - 1])
    requires lastH ==> moved.y == segs[|segs| - 1].end.y
    requires !lastH ==> moved.x == segs[|segs| - 1].end.x
    ensures Length(WithLastEnd(segs, moved))
         == Length(segs) - Extent(segs[|segs| - 1], lastH)
            + Extent(Segment(segs[|segs| - 1].start, moved), lastH)
  {
    var n := |segs|;
    var prev := segs[n - 1];
    var r := WithLastEnd(segs, moved);
    assert Length(r) == Length(segs[..n - 1]) + SegmentLength(Segment(prev.start, moved));
    assert Length(segs) == Length(segs[..n - 1]) + SegmentLength(prev);
  }

  /** The arithmetic of the in-place adjustment: the end of the last
      segment slides along that segment's own line onto `end`, and the
      length swaps the old extent for the new one. */
  method SlideLastEnd(prev: Segment, total: int, lastH: bool, end: Point)
    returns (moved: Point, newTotal: int)
    requires lastH ==> prev.end.y == end.y
    requires !lastH ==> prev.end.x == end.x
    ensures moved == end
    ensures newTotal == total - Extent(prev, lastH) + Extent(Segment(prev.start, moved), lastH)
  {
    var cur := prev.end;
    newTotal := total;
    if lastH {
      newTotal := newTotal - Abs(prev.start.x - cur.x);
      moved := Point(end.x, cur.y);
      newTotal := newTotal + Abs(prev.start.x - moved.x);
    } else {
      newTotal := newTotal - Abs(prev.start.y - cur.y);
      moved := Point(cur.x, end.y);
      newTotal := newTotal + Abs(prev.start.y - moved.y);
    }
  }

  /** The in-place adjustment that ends the capped branch: the end
      of the last segment, shared with the current point, is moved onto `end`
      along that segment's own line; the length is corrected by subtracting
      the old extent and adding the new one. */
  method MoveLastOnto(segs: seq<Segment>, total: int, lastH: bool, end: Point,
                      ghost prefix: seq<Segment>, ghost start: Point, b: Board)
    returns (fixed: seq<Segment>, newTotal: int)
    requires Shaped(segs, prefix, start, b) && GeneratedProper(segs, prefix) && InBoard(end, b)
    requires segs != [] && total == Length(segs)
    requires lastH == !VLine(segs[|segs| - 1])
    requires lastH ==> segs[|segs| - 1].end.y == end.y
    requires !lastH ==> segs[|segs| - 1].end.x == end.x
    ensures |fixed| == |segs| && fixed[..|segs| - 1] == segs[..|segs| - 1]
    ensures fixed[|fixed| - 1] == Segment(segs[|segs| - 1].start, end)
    ensures Degenerate(fixed[|fixed| - 1]) <==> segs[|segs| - 1].start == end
    ensures Shaped(fixed, prefix, start, b)
    ensures newTotal == Length(fixed)
  {
    var moved;
    moved, newTotal := SlideLastEnd(segs[|segs| - 1], total, lastH, end);
    fixed := WithLastEnd(segs, moved);
    FixLast(segs, prefix, start, b, lastH, moved);
    FixLastLength(segs, lastH, moved);
  }

  /** The loop invariant of `pathfinding`: the segments so far keep their
      shape, `total` is their length, `lastH` tells the orientation of the
      last one, and once the cap is reached the forced steps still fit in
      the segment bound. */
  predicate Building(segs: seq<Segment>, prefix: seq<Segment>, start: Point, end: Point, b: Board,
                     total: int, lastH: bool, cap: nat)
  {
    && Shaped(segs, prefix, start, b) && segs[..|prefix|] == prefix
    && GeneratedProper(segs, prefix)
    && InBoard(Current(segs, start), b)
    && total == Length(segs)
    && (segs == [] ==> !lastH && prefix == [])
    && (segs != [] ==> lastH == !VLine(segs[|segs| - 1]))
    && (|segs| < cap || |segs| + Misaligned(Current(segs, start), end) <= MaxNat(cap, |prefix|) + 2)
  }

  /** Appending a valid step keeps the loop invariant; a forced step (at or
      past the cap) must fix one more axis. */
  lemma AdvanceKeepsBuilding(segs: seq<Segment>, prefix: seq<Segment>, start: Point, end: Point, b: Board,
                             total: int, lastH: bool, cap: nat, m: Move)
    requires Building(segs, prefix, start, end, b, total, lastH, cap) && InBoard(start, b)
    requires segs != [] ==> m.horizontal == !lastH
    requires StepFrom(Current(segs, start), m, b)
    requires |segs| >= cap ==> Misaligned(m.end, end) < Misaligned(Current(segs, start), end)
    ensures Building(segs + [Segment(Current(segs, start), m.end)], prefix, start, end, b,
                     total + m.length, m.horizontal, cap)
  {
    AppendStep(segs, prefix, start, b, lastH, m);
  }

  /** A forced step along the axis the previous segment did not use fixes
      that axis: it is a valid step and leaves one axis fewer to fix. */
  lemma ForcedStep(cur: Point, end: Point, b: Board, lastH: bool)
    requires InBoard(cur, b) && InBoard(end, b)
    requires lastH ==> cur.y != end.y
    requires !lastH ==> cur.x != end.x
    ensures var m := if lastH then MoveY(cur, end.y - cur.y) else MoveX(cur, end.x - cur.x);
      && StepFrom(cur, m, b) && m.horizontal == !lastH
      && Misaligned(m.end, end) < Misaligned(cur, end)
  {
  }

  /** When the loop stops, the invariant gives every promise of `pathfinding`. */
  lemma BuildingDone(segs: seq<Segment>, prefix: seq<Segment>, start: Point, end: Point, b: Board,
                     total: int, lastH: bool, cap: nat)
    requires Building(segs, prefix, start, end, b, total, lastH, cap)
    requires segs != [] && segs[|segs| - 1].end == end
    ensures total == Length(segs) && Shaped(segs, prefix, start, b)
    ensures |segs| <= MaxNat(cap, |prefix|) + 2
  {
  }

  /** The in-place branch is reached only with a segment to move, whose end
      already agrees with `end` on the axis it does not move along. */
  lemma FixBranchApplies(segs: seq<Segment>, prefix: seq<Segment>, start: Point, end: Point, b: Board,
                         total: int, lastH: bool, cap: nat)
    requires Building(segs, prefix, start, end, b, total, lastH, cap)
    requires prefix == [] && cap == 0 ==> start.x != end.x
    requires |segs| >= cap
    requires !(lastH && Current(segs, start).y != end.y) && !(!lastH && Current(segs, start).x != end.x)
    ensures segs != [] && Shaped(segs, prefix, start, b) && GeneratedProper(segs, prefix)
    ensures total == Length(segs) && lastH == !VLine(segs[|segs| - 1])
    ensures lastH ==> segs[|segs| - 1].end.y == end.y
    ensures !lastH ==> segs[|segs| - 1].end.x == end.x
    ensures |segs| + Misaligned(segs[|segs| - 1].end, end) <= MaxNat(cap, |prefix|) + 2
  {
  }

  /** The termination measure of the loop: free steps until the cap, then
      the number of axes still to fix. */
  function Remaining(segs: seq<Segment>, start: Point, end: Point, cap: nat): nat {
    if |segs| < cap then 3 * (cap - |segs|) + 3 else Misaligned(Current(segs, start), end)
  }

  /** One pass of the loop body of `pathfinding`: at or
      past the cap, a forced step along the unused axis, or, when that axis
      is already aligned, the in-place move that ends the search (`done`);
      below the cap, a step chosen by `FreeStep`. */
  method Iteration(segs: seq<Segment>, total: int, lastH: bool, start: Point, end: Point, b: Board,
                   ghost prefix: seq<Segment>, cap: nat, d: Draw)
    returns (next: seq<Segment>, nextTotal: int, nextH: bool, done: bool)
    requires BoardOk(b) && InBoard(start, b) && InBoard(end, b)
    requires Building(segs, prefix, start, end, b, total, lastH, cap)
    requires segs == [] || segs[|segs| - 1].end != end
    requires segs == [] && start == end ==> !d.toward
    requires prefix == [] && cap == 0 ==> start.x != end.x
    ensures done ==> && next != [] && next[|next| - 1].end == end
                     && nextTotal == Length(next) && Shaped(next, prefix, start, b)
                     && |next| <= MaxNat(cap, |prefix|) + 2
    ensures !done ==> && Building(next, prefix, start, end, b, nextTotal, nextH, cap)
                      && next != [] && Remaining(next, start, end, cap) < Remaining(segs, start, end, cap)
  {
    var cur := Current(segs, start);
    var m: Move;
    if |segs| >= cap {
      if lastH && cur.y != end.y {
        ForcedStep(cur, end, b, lastH);
        m := MoveY(cur, end.y - cur.y);
      } else if !lastH && cur.x != end.x {
        ForcedStep(cur, end, b, lastH);
        m := MoveX(cur, end.x - cur.x);
      } else {
        FixBranchApplies(segs, prefix, start, end, b, total, lastH, cap);
        next, nextTotal := MoveLastOnto(segs, total, lastH, end, prefix, start, b);
        nextH, done := lastH, true;
        return;
      }
    } else {
      m := FreeStep(cur, end, b, segs == [], lastH, d);
    }
    AdvanceKeepsBuilding(segs, prefix, start, end, b, total, lastH, cap, m);
    next := segs + [Segment(cur, m.end)];
    nextTotal := total + m.length;
    nextH := m.horizontal;
    done := false;
  }

  /** Builds a path from the end of `prefix` (or from `start` when `prefix` is
      empty) to `end`, returning the segments and their accumulated length.
      After `cap` segments the remaining axes are forced; when the forced axis
      is already aligned, the last segment's end is moved onto `end` in place. */
  method Pathfinding(start: Point, end: Point, b: Board, prefix: seq<Segment>, cap: nat, draws: nat -> Draw)
    returns (segs: seq<Segment>, total: int)
    requires BoardOk(b) && InBoard(start, b) && InBoard(end, b)
    requires forall k :: 0 <= k < |prefix| ==> InBoard(prefix[k].start, b) && InBoard(prefix[k].end, b)
    requires Contiguous(prefix) && AllAligned(prefix)
    requires prefix == [] && start == end ==> !draws(0).toward
    requires prefix == [] && cap == 0 ==> start.x != end.x
    ensures segs != [] && segs[|segs| - 1].end == end
    ensures total == Length(segs)
    ensures Shaped(segs, prefix, start, b)
    ensures |segs| <= MaxNat(cap, |prefix|) + 2
  {
    segs := prefix;
    total := Length(prefix);
    var lastH := prefix != [] && !VLine(prefix[|prefix| - 1]);
    var iter: nat := 0;
    while segs == [] || segs[|segs| - 1].end != end
      invariant Building(segs, prefix, start, end, b, total, lastH, cap)
      invariant segs == [] ==> iter == 0
      decreases Remaining(segs, start, end, cap)
    {
      var d := draws(iter);
      iter := iter + 1;
      var done;
      segs, total, lastH, done := Iteration(segs, total, lastH, start, end, b, prefix, cap, d);
      if done {
        return;
      }
    }
    BuildingDone(segs, prefix, start, end, b, total, lastH, cap);
  }
}
