# Manhattan routing by genetic search — a Dafny model

`lab1_genetic_algorithm.py` searches for axis-aligned ("Manhattan") routes
that connect pairs of points on an integer grid. A *solution* holds one
*path* per point pair. A path is a list of segments, each segment a pair of
grid points. A solution's fitness (lower is better) weighs the number of
segments, the total length and the number of intersection units between
segments. The search builds random paths (`pathfinding`), recombines
solutions (two crossovers), mutates them (`mutate_reroll`, `mutate_shift`)
and selects parents (roulette, tournament).

This project models that core in Dafny and proves what it promises:

- `Geometry.dfy`: points, segments, boards and paths as values. Equality of
  `Point`, `Segment` and `Path` is datatype equality, which compares the same
  fields as `__eq__`. It also holds `calculate_length` and the *vertex view*
  of a path (segment k joins vertices k and k+1). The vertex view is
  faithful because consecutive segments share one `Point` object.
- `Scoring.dfy`: the segment-pair weight `__intersect`, the intersection
  count and `calculate_fitness`. `__intersect` is a function over the
  branches of the source. The intersection count and the fitness are each a
  specification function plus a loop method proved equal to it.
- `PathGen.dfy`: `pathfinding` as an imperative method. Its random outcomes
  come from an oracle `draws`. It is proved to return a contiguous path that
  is axis-aligned, alternating and on the board, that ends at the target and
  keeps the given prefix. The returned length equals the path's length,
  including the in-place correction at the cap. The path has at most
  max(cap, prefix length) + 2 segments.
- `ShiftRepair.dfy`: the geometry of `mutate_shift` in the vertex view. That
  is the perpendicular shift, the predecessor and successor splice rules,
  and the choice of shift direction and length. It also holds the eleven
  cases of `test_mutation_shift.py`, each as a lemma.
- `Genetics.dfy`: the `Solution` class, with `setPaths`, both crossovers,
  `mutate_reroll` and `mutate_shift`.
- `Selection.dfy`: the `Population` class, with `evaluate`,
  `selection_roulette` and `selection_tournament`.
- `Wrappers.dfy`: `Option` and `Result`.

Randomness is always a parameter: coins, drawn indices, a `Draw` per
`pathfinding` iteration, and the roulette pick. Fitness weights are
integers.

Some behaviours of the code that the model follows as they are:

- The steps forced at the segment cap alternate orientation like all others.
  The model proves alternation for every generated segment.
- The in-place correction at the cap can leave a zero-length final segment.
  This happens exactly when the last segment starts at the target itself,
  that is, when the path already passed through the target. The model allows
  exactly that one zero-length segment, and `PathGen.MoveLastOnto` states
  when it occurs.
- With no prefix and `start == end`, the code does not return an empty path.
  It enters the loop. A "toward target" first draw then fails in
  `randrange(1, 1)`. A random first draw moves away and routes back, giving a
  closed loop. The model requires that first draw not to be "toward".
- A "toward target" step with both axes misaligned draws its length up to the
  board edge, not up to the remaining distance, so it may pass the target's
  line. `PathGen.FirstToward` and `PathGen.NextToward` follow the code; only
  on an already aligned axis is the step bounded by the distance to the
  target.
- The length bookkeeping of the cap correction is consistent: the returned
  total equals the recomputed length.

## Model

| member | source | states |
|---|---|---|
| `Geometry.SegmentLength` | lab1_genetic_algorithm.py:263-267 | a segment's measured length is its Manhattan length when it is axis-aligned, and zero exactly when it is a point |
| `Geometry.CalculateLength` | lab1_genetic_algorithm.py:261-268 | the loop's total equals the sum of segment lengths `Length` |
| `Geometry.LengthAtLeastDistance` | lab1_genetic_algorithm.py:261-268 | a contiguous axis-aligned path is never shorter than the Manhattan distance between its ends |
| `Geometry.LengthAppend` | lab1_genetic_algorithm.py:261-268 | the length of two joined segment lists is the sum of their lengths |
| `Geometry.Vertices` | lab1_genetic_algorithm.py:64 | the vertex view lists the first start point and then every end point |
| `Geometry.SegmentsOf` | lab1_genetic_algorithm.py:245 | joining consecutive vertices gives a contiguous segment list |
| `Geometry.VertexViewRoundTrip` | lab1_genetic_algorithm.py:64 | for a contiguous path, segments to vertices and back gives the same segments |
| `Geometry.SegmentViewRoundTrip` | lab1_genetic_algorithm.py:245 | vertices to segments and back gives the same vertices |
| `Scoring.Intersect` | lab1_genetic_algorithm.py:311-353 | the pair weight is never negative, and it is at most 1 unless all four endpoints share x or all share y |
| `Scoring.CollinearVerticalCountsSharedRows` | lab1_genetic_algorithm.py:314-327 | for collinear vertical segments the weight is the number of grid rows both cover |
| `Scoring.CollinearHorizontalCountsSharedColumns` | lab1_genetic_algorithm.py:328-341 | for collinear horizontal segments the weight is the number of grid columns both cover |
| `Scoring.PerpendicularScoresSharedPoint` | lab1_genetic_algorithm.py:342-353 | a vertical and a horizontal segment (both of non-zero length) weigh 1 exactly when they share a grid point, else 0 |
| `Scoring.ParallelVerticalApartScoresZero` | lab1_genetic_algorithm.py:342-353 | a vertical segment never meets a vertical segment of non-zero length on another column |
| `Scoring.IntersectSymmetric` | lab1_genetic_algorithm.py:311-353 | the pair weight does not depend on the order of the two segments |
| `Scoring.SharedRowsExample` | lab1_genetic_algorithm.py:314-327 | y-ranges [2,5] and [4,8] on one column weigh 2 |
| `Scoring.RangeMeet` | lab1_genetic_algorithm.py:321-322 | the overlap of two integer ranges runs from the larger minimum to the smaller maximum |
| `Scoring.CrossCountSymmetric` | lab1_genetic_algorithm.py:357-361 | the count between two paths does not depend on which path is visited first |
| `Scoring.SelfCount` | lab1_genetic_algorithm.py:362-365 | a path with at most three segments has no self-intersections, and the count is never negative |
| `Scoring.Intersections` | lab1_genetic_algorithm.py:355-366 | the intersection count is never negative |
| `Scoring.AddRow` | lab1_genetic_algorithm.py:360-361 | the innermost loop sums one segment's weights against a list (`RowSum`) |
| `Scoring.AddCross` | lab1_genetic_algorithm.py:359-361 | the two inner loops sum every segment pair of two paths (`CrossCount`) |
| `Scoring.AddSelf` | lab1_genetic_algorithm.py:363-365 | the same-path loops sum the pairs at least three indices apart (`SelfCount`) |
| `Scoring.CalculateIntersections` | lab1_genetic_algorithm.py:355-366 | the nested loops compute `Intersections`: all pairs of distinct paths plus each path against itself |
| `Scoring.CalculateFitness` | lab1_genetic_algorithm.py:377-383 | the loop computes `Fitness` = the sum of segment_weight·#segments + length_weight·length, plus intersection_weight·count |
| `Scoring.FitnessLowerBound` | lab1_genetic_algorithm.py:377-383 | with non-negative weights and lengths, fitness is at least the weighted segment count plus the weighted intersection count |
| `Scoring.CostsLowerBound` | lab1_genetic_algorithm.py:379-381 | the per-path costs are at least the weighted segment count |
| `PathGen.RandRange` | lab1_genetic_algorithm.py:99 | a drawn `randrange(1, bound + 1)` lies in [1, bound], and every value is reachable |
| `PathGen.FirstToward` | lab1_genetic_algorithm.py:90-141 | the first "toward" step has length ≥ 1 along one axis, stays on the board, and when already aligned moves toward the target without passing it |
| `PathGen.FirstRandom` | lab1_genetic_algorithm.py:142-167 | the first random step has length ≥ 1 along one axis and stays on the board |
| `PathGen.NextToward` | lab1_genetic_algorithm.py:169-219 | a later "toward" step turns (horizontal after vertical and back) and stays on the board, and on an aligned axis it approaches the target without passing it |
| `PathGen.NextRandom` | lab1_genetic_algorithm.py:220-244 | a later random step turns and stays on the board |
| `PathGen.FreeStep` | lab1_genetic_algorithm.py:89-244 | every uncapped step is a valid step, and every step after the first turns |
| `PathGen.AppendStep` | lab1_genetic_algorithm.py:245-247 | appending a step keeps the path contiguous, aligned, alternating, on the board and with its prefix |
| `PathGen.FixLast` | lab1_genetic_algorithm.py:76-87 | moving the last end point onto the target along the last segment's axis keeps the path's shape |
| `PathGen.SlideLastEnd` | lab1_genetic_algorithm.py:78-86 | the moved point lands on the target, and the total changes by the new extent of the last segment minus its old extent along that segment's axis |
| `PathGen.FixLastLength` | lab1_genetic_algorithm.py:79-86 | subtracting the old extent and adding the new one gives the recomputed length |
| `PathGen.MoveLastOnto` | lab1_genetic_algorithm.py:76-87 | the in-place correction changes only the last segment's end, keeps the shape, and keeps the total equal to the length; the corrected segment has zero length exactly when the last segment starts at the target |
| `PathGen.ForcedStep` | lab1_genetic_algorithm.py:67-75 | at or past the cap, the forced step onto the target's row (after a horizontal segment) or column (after a vertical one) is a valid step that turns and brings the current point closer to alignment with the target |
| `PathGen.Iteration` | lab1_genetic_algorithm.py:63-247 | one pass of the loop either returns a finished path (non-empty, at the target, well shaped, total equal to length, within the segment bound) or appends a step that keeps the loop invariant and strictly reduces the work left |
| `PathGen.Pathfinding` | lab1_genetic_algorithm.py:50-248 | the result is non-empty, ends at the target, keeps the prefix, and is contiguous, axis-aligned, alternating and on the board; the total equals its length; at most max(cap, prefix) + 2 segments |
| `ShiftRepair.Shifted` | lab1_genetic_algorithm.py:441-462 | only the two endpoints of the shifted segment move |
| `ShiftRepair.RepairBefore` | lab1_genetic_algorithm.py:463-481 | the predecessor repair deletes 0 to 4 segments, keeps both ends of the path, and leaves the shifted segment's end in place when at most two go |
| `ShiftRepair.RepairAfter` | lab1_genetic_algorithm.py:483-497 | the successor repair deletes at least one segment, keeps at least one, and keeps both ends of the path |
| `ShiftRepair.RepairAfterAsWritten` | lab1_genetic_algorithm.py:483-497 | the source's successor repair on the segment list always removes segments |
| `ShiftRepair.RepairAfterMatchesSource` | lab1_genetic_algorithm.py:483-497 | away from the first segment, the vertex-view repair equals the source's segment-list repair |
| `ShiftRepair.RepairAfterMatchesSourceLoop4` | lab1_genetic_algorithm.py:485-488 | the four-segment successor deletion matches the source |
| `ShiftRepair.RepairAfterMatchesSourceLoop3` | lab1_genetic_algorithm.py:489-492 | the three-segment successor deletion matches the source |
| `ShiftRepair.RepairAfterMatchesSourceMerge` | lab1_genetic_algorithm.py:493-495 | merging the shifted segment with the segment after the collapsed one matches the source |
| `ShiftRepair.RepairAfterMatchesSourceDrop` | lab1_genetic_algorithm.py:496-497 | dropping a collapsed last segment matches the source |
| `ShiftRepair.RepairAfterWrapCounterexample` | lab1_genetic_algorithm.py:485-488 | on a concrete path, the source's repair leaves no segment, and the corrected repair leaves (0,0)→(5,0) |
| `ShiftRepair.ShiftAndRepair` | lab1_genetic_algorithm.py:441-497 | shift plus repairs keeps the first and last points and never adds vertices (with the corrected successor repair when the shifted segment becomes first; see Findings) |
| `ShiftRepair.ShiftWithoutCollapse` | lab1_genetic_algorithm.py:441-497 | when no neighbour collapses, the segment count is kept and only segment i's two points move, by delta, across the segment |
| `ShiftRepair.ShiftedZigZag` | lab1_genetic_algorithm.py:441-462 | the shift keeps every segment on a line of its orientation |
| `ShiftRepair.RepairBeforeZigZag` | lab1_genetic_algorithm.py:463-481 | the predecessor repair keeps the alternating shape |
| `ShiftRepair.RepairAfterZigZag` | lab1_genetic_algorithm.py:483-497 | the successor repair keeps the alternating shape |
| `ShiftRepair.ShiftKeepsZigZag` | lab1_genetic_algorithm.py:441-497 | shifting a segment of non-zero length keeps a path axis-aligned and alternating |
| `ShiftRepair.ShiftDelta` | lab1_genetic_algorithm.py:441-462 | a decrease moves toward the low edge and an increase toward the high edge (a negative override length reverses this, as in the source); an override fixes the size; a drawn size lies in [1, room on the chosen side] |
| `ShiftRepair.RandomDirectionHasRoom` | lab1_genetic_algorithm.py:444-455 | on a board at least 2×2, a random direction always has room, so the draw cannot fail |
| `ShiftRepair.DrawnShiftStaysOnBoard` | lab1_genetic_algorithm.py:441-462 | a drawn shift is non-zero and keeps an axis-aligned segment on the board |
| `ShiftRepair.ShiftTest1` | test_mutation_shift.py:6-7 | segment 1 by 4, direction 1 gives (0,0) (8,0) (8,8) |
| `ShiftRepair.ShiftTest2` | test_mutation_shift.py:8-9 | segment 1 by 4, direction 0 gives (0,0) (4,0) |
| `ShiftRepair.ShiftTest3` | test_mutation_shift.py:10-11 | segment 2 by 4, direction 0 gives (0,4) (12,4) |
| `ShiftRepair.ShiftTest4` | test_mutation_shift.py:12-13 | segment 2 by 2, direction 0 moves only that segment |
| `ShiftRepair.ShiftTest5` | test_mutation_shift.py:14-15 | segment 2 by 1, direction 1 gives (6,0) (6,11) |
| `ShiftRepair.ShiftTest6` | test_mutation_shift.py:16-17 | segment 1 by 1, direction 1 gives (6,0) (6,11) |
| `ShiftRepair.ShiftTest7` | test_mutation_shift.py:18-19 | segment 1 by 4, direction 1 gives (0,4) (8,4) (8,2) (6,2) |
| `ShiftRepair.ShiftTest8` | test_mutation_shift.py:20-21 | segment 2 by 3, direction 1 gives (0,6) (0,3) (4,3) (4,5) |
| `ShiftRepair.ShiftTest9` | test_mutation_shift.py:22-23 | segment 3 by 3, direction 1 gives (0,6) (0,3) (4,3) (4,5) |
| `ShiftRepair.ShiftTest10` | test_mutation_shift.py:24-25 | segment 4 by 3, direction 0 gives (0,6) (0,3) (4,3) (4,5) |
| `ShiftRepair.ShiftTest11` | test_mutation_shift.py:26-27 | segment 5 by 3, direction 0 gives (0,6) (0,3) (3,3) (3,0) (4,0) (4,5) |
| `Genetics.Choose` | lab1_genetic_algorithm.py:394-398 | the child has as many genes as the parents |
| `Genetics.ChooseSameParents` | lab1_genetic_algorithm.py:394-398 | two identical parents give that same gene list |
| `Genetics.ChooseSwapped` | lab1_genetic_algorithm.py:394-398 | swapping the parents and negating every coin gives the same child |
| `Genetics.PickGenes` | lab1_genetic_algorithm.py:393-398 | gene k comes from the first parent when coin k is set and from the second otherwise |
| `Genetics.EvenSplit` | lab1_genetic_algorithm.py:410-417 | the first len//2 genes come from one parent and the rest from the other |
| `Genetics.EvenSplitIsChoice` | lab1_genetic_algorithm.py:402-418 | the even split is the per-gene choice whose coins pick one parent on exactly the first half |
| `Genetics.KeptPrefixKeepsStart` | lab1_genetic_algorithm.py:424-428 | rerouting from a kept prefix keeps the path's first point |
| `Genetics.ShiftedSegments` | lab1_genetic_algorithm.py:441-497 | the shifted path is contiguous, non-empty, no longer than before, and keeps its first and last points (with the corrected successor repair when the shifted segment becomes first; see Findings) |
| `Genetics.ShiftedPath` | lab1_genetic_algorithm.py:497-499 | the shifted path carries its recomputed length |
| `Genetics.Solution.constructor` | lab1_genetic_algorithm.py:287-289 | a new solution has no paths and fitness 0 |
| `Genetics.Solution.SetPaths` | lab1_genetic_algorithm.py:291-297 | the paths are replaced and the fitness is recomputed |
| `Genetics.Solution.CrossoverWithRandomGenes` | lab1_genetic_algorithm.py:385-400 | parents of different sizes fail with the size error; otherwise a fresh child takes each gene from the parent its coin names, with its fitness recomputed |
| `Genetics.Solution.CrossoverWithEvenGenes` | lab1_genetic_algorithm.py:402-418 | parents of different sizes fail with the size error; otherwise a fresh child has one parent's first half and the other's rest, with its fitness recomputed |
| `Genetics.Solution.MutateReroll` | lab1_genetic_algorithm.py:420-431 | only path k changes; it keeps its prefix, start and end, stays routable, carries its length, and the fitness is recomputed |
| `Genetics.BuildShiftedPath` | lab1_genetic_algorithm.py:441-499 | the rebuilt path is the shifted path (corrected successor repair when the shifted segment becomes first; see Findings) with its length measured front to back |
| `Genetics.Solution.ReplacePath` | lab1_genetic_algorithm.py:499-500 | path k becomes the rebuilt path, every other path is unchanged, and the fitness is recomputed over the new paths |
| `Genetics.Solution.MutateShift` | lab1_genetic_algorithm.py:433-503 | in the shift branch path k becomes the shifted path and the fitness is recomputed (the corrected successor repair is used when the shifted segment becomes first; see Findings); a drawn reroll rebuilds it; otherwise nothing changes; other paths never change |
| `Selection.MaxValue` | lab1_genetic_algorithm.py:525 | the worst fitness is at least every fitness and is one of them |
| `Selection.PrefixWeightMonotone` | lab1_genetic_algorithm.py:528-530 | with weights max − fitness, the running sum never decreases |
| `Selection.RouletteInterval` | lab1_genetic_algorithm.py:524-532 | solution i > 0 is picked exactly for picks in (running sum before i, running sum through i]; the first solution is picked exactly for picks in [0, its weight], so a pick of 0 always returns it |
| `Selection.RouletteSkipsWorst` | lab1_genetic_algorithm.py:524-532 | a positive pick never selects a solution of the worst fitness |
| `Selection.InsertKeepsSorted` | lab1_genetic_algorithm.py:521-522 | placing a solution after every no-worse one and before every worse one keeps a ranking sorted |
| `Selection.InsertByFitness` | lab1_genetic_algorithm.py:521-522 | inserting into a fitness-sorted list keeps it sorted and adds exactly that solution |
| `Selection.RouletteScan` | lab1_genetic_algorithm.py:528-532 | the scan stops at the first index whose running weight reaches the pick, and it stays in range whenever the pick is at most the total weight |
| `Selection.WorstFitness` | lab1_genetic_algorithm.py:525 | the last ranked fitness is the maximum fitness |
| `Selection.Population.constructor` | lab1_genetic_algorithm.py:506-508 | a new population is empty and remembers its size |
| `Selection.Population.Evaluate` | lab1_genetic_algorithm.py:521-522 | the result is sorted by fitness and is a permutation of the solutions, which are left untouched |
| `Selection.Population.SelectionRoulette` | lab1_genetic_algorithm.py:524-532 | returns the first solution whose running weight reaches the pick |
| `Selection.Population.SelectionTournament` | lab1_genetic_algorithm.py:534-545 | returns the first drawn member whose fitness is the lowest among all draws |

## Findings

| source | as written | input that shows it | evidently intended | confidence | as-written member | corrected member |
|---|---|---|---|---|---|---|
| lab1_genetic_algorithm.py:485-492 | when the shifted segment has become the first segment (`segment_i - deletions == 0`), the successor repair patches `segments[segment_i - 1]`. That is `segments[-1]`, the path's last segment. It then deletes the leading segments | path (0,0) (4,0) (4,4) (0,4) (0,0) (5,0); shift segment 1 by 4 in direction 0. No segment is left. With a longer tail, the path's last end point would be overwritten instead | cut the loop that closes at the shifted segment's start, leaving (0,0)→(5,0) | not executed | `ShiftRepair.RepairAfterWrapCounterexample` | `ShiftRepair.RepairAfter` |

`ShiftRepair.RepairAfterAsWritten` models the source's successor repair on
the segment list, wrap-around included. `ShiftRepair.RepairAfterMatchesSource`
proves that it agrees with the vertex-view repair whenever the shifted
segment is not first.

## Left out

- The tkinter rendering (`random_color`, `draw`, `visualisation`), `read_config`
  and the drivers `genetic_algorithm`, `random_search` and `main`. These are
  file I/O, printing, wall-clock timing and interrupt handling.
- `Solution.random_solve`, `Path.create_random` and `Population.initialize`
  only call `pathfinding` once per point pair, which is modelled, and
  collect the results.
- The random number generator. Every `random()`, `randrange` and `uniform`
  outcome is a parameter, and probability thresholds become booleans or
  quarters.
- Floating point. Fitness weights are integers and the roulette pick is an
  integer.
- Object identity and `deepcopy`. Paths are values, so a child never shares
  state with its parents. `Solution.__eq__`, `__iter__` and the `__str__`
  methods are not modelled.
- `PathGen.Pathfinding`: with no prefix and `start == end`, requires the first
  draw not to be "toward target", where the source fails in `randrange(1, 1)`.
  With no prefix it also requires `cap > 0` or differing x coordinates,
  because otherwise the source indexes an empty list. It requires a board at
  least 2 wide and 2 high (`PathGen.BoardOk`), so that a random step always
  has room; the source can fail in `randrange(1, 1)` on a board one cell
  wide or high.
- `ShiftRepair.InModel`: a successor collapse after a three- or four-segment
  predecessor deletion is not modelled. The source then works with stale
  indices and a deleted segment.
- `ShiftRepair.ShiftDelta`: requires room of at least 1 on the chosen side
  when the length is drawn. The source raises from `randrange(1, 1)` when an
  override points at an edge.
- `Genetics.Solution.MutateShift`: the chosen path and segment index are
  parameters, and the shift must stay within `ShiftRepair.InModel`. The
  segment index is interior (at least 1, with a segment after it); the
  source also accepts an override index of 0, whose predecessor patch wraps
  to `segments[-1]`.
- `Genetics.Solution.MutateShift`, `Genetics.BuildShiftedPath`,
  `Genetics.ShiftedSegments`, `Genetics.ShiftedPath` and
  `ShiftRepair.ShiftAndRepair`: when the shifted segment becomes the first
  one and its successor collapses into a loop, they use the corrected
  successor repair `ShiftRepair.RepairAfter`, which cuts the loop and keeps
  both ends. The source instead patches `segments[-1]` (see Findings,
  `ShiftRepair.RepairAfterAsWritten`), so there these members do not model
  the code as written.
- `Genetics.Solution.MutateReroll`: requires a routable path: non-empty,
  contiguous, aligned and on the board. When it reroutes a closed path from
  its first segment, the first draw must not be "toward target", as for
  `PathGen.Pathfinding`, and it requires a board at least 2×2 like
  `PathGen.Pathfinding`. `given_path` is the index of a path of this
  solution.
- `Selection.Population.Evaluate`: does not state that the ranking is stable
  (Python's `sorted` keeps equal-fitness solutions in their original order).
  The insertion it uses is stable.
- `Selection.Population.SelectionRoulette`: the pick is an integer in
  [0, total weight]. The source's fall-through `None` cannot occur in that
  range.
- `Selection.Population.SelectionTournament`: requires at least one draw. With
  `tournament_size == 0` the source indexes an empty list.
