/** A candidate solution (one path per point pair) and its genetic
    operators: crossover, the reroll mutation and the shift mutation. Random
    outcomes arrive as parameters (coins, indices, draws). */
module Genetics {
  import opened Geometry
  import opened Wrappers
  import opened Scoring
  import PathGen
  import ShiftRepair

  /** Segment cap `mutate_reroll` leaves at the default of `pathfinding`. */
  const RerollCap: nat := 13

  const SizeMismatch := "Wrong sizes of crossover parents"

  /** Child genes when gene k comes from `first` exactly when `coins(k)`. */
  function Choose(first: seq<Path>, second: seq<Path>, coins: nat -> bool): (child: seq<Path>)
    requires |first| == |second|
    ensures |child| == |first|
  {
    seq(|first|, k requires 0 <= k < |first| => if coins(k) then first[k] else second[k])
  }

  /** Two identical parents have only one possible child. */
  lemma ChooseSameParents(parent: seq<Path>, coins: nat -> bool)
    ensures Choose(parent, parent, coins) == parent
  {
  }

  /** Swapping the parents and negating every coin gives the same child. */
  lemma ChooseSwapped(first: seq<Path>, second: seq<Path>, coins: nat -> bool)
    requires |first| == |second|
    ensures Choose(first, second, coins) == Choose(second, first, (k: nat) => !coins(k))
  {
  }

  /** The gene loop of `crossover_with_random_genes`. */
  method PickGenes(first: seq<Path>, second: seq<Path>, coins: nat -> bool) returns (child: seq<Path>)
    requires |first| == |second|
    ensures |child| == |first|
    ensures forall k :: 0 <= k < |child| ==> (coins(k) ==> child[k] == first[k]) && (!coins(k) ==> child[k] == second[k])
    ensures child == Choose(first, second, coins)
  {
    child := [];
    var k := 0;
    while k < |first|
      invariant 0 <= k <= |first| && |child| == k
      invariant forall j :: 0 <= j < k ==> child[j] == (if coins(j) then first[j] else second[j])
    {
      if coins(k) {
        child := child + [first[k]];
      } else {
        child := child + [second[k]];
      }
      k := k + 1;
    }
  }

  /** The genes of `crossover_with_even_genes_distribution`: the first half
      (rounded down) from one parent and the rest from the other. */
  function EvenSplit(first: seq<Path>, second: seq<Path>, firstHalfFromFirst: bool): (child: seq<Path>)
    requires |first| == |second|
    ensures |child| == |first|
    ensures forall k :: 0 <= k < |first| / 2 ==> child[k] == (if firstHalfFromFirst then first[k] else second[k])
    ensures forall k :: |first| / 2 <= k < |first| ==> child[k] == (if firstHalfFromFirst then second[k] else first[k])
  {
    var half := |first| / 2;
    if firstHalfFromFirst then first[..half] + second[half..] else second[..half] + first[half..]
  }

  /** The even split is the per-gene choice whose coins say "first parent"
      exactly on one half. */
  lemma EvenSplitIsChoice(first: seq<Path>, second: seq<Path>, firstHalfFromFirst: bool)
    requires |first| == |second|
    ensures EvenSplit(first, second, firstHalfFromFirst)
         == Choose(first, second, (k: nat) => (k < |first| / 2) == firstHalfFromFirst)
  {
  }

  /** A path `pathfinding` can rebuild from any cut point: non-empty,
      contiguous, axis-aligned and on the board. */
  predicate Routable(p: Path, b: Board) {
    && p.segments != []
    && Contiguous(p.segments) && AllAligned(p.segments)
    && PathGen.OnBoard(p.segments, b)
  }

  /** Rerouting path `p` from its very start towards an end equal to that
      start fails on a "toward" first draw, as `pathfinding` does. */
  predicate RerollDefined(p: Path, cut: nat, draws: nat -> PathGen.Draw)
    requires p.segments != []
  {
    cut == 0 && p.segments[0].start == p.segments[|p.segments| - 1].end ==> !draws(0).toward
  }

  predicate LengthCached(p: Path) {
    p.length == Length(p.segments)
  }

  /** Rebuilding from a kept prefix keeps the first point. */
  lemma KeptPrefixKeepsStart(segs: seq<Segment>, before: seq<Segment>, cut: nat)
    requires 0 <= cut < |before| && segs != []
    requires PathGen.KeepsPrefix(segs, before[..cut], before[cut].start)
    requires Contiguous(before)
    ensures segs[0].start == before[0].start
  {
    if cut == 0 {
    } else if 0 < |segs| - 1 {
      assert segs[0] == before[..cut][0];
    } else {
      assert segs[cut - 1].start == before[..cut][cut - 1].start;
    }
  }

  /** The segments `mutate_shift` leaves when it shifts segment i of `segs`
      by `delta`: the repaired vertices turned back into segments. */
  function ShiftedSegments(segs: seq<Segment>, i: nat, delta: int): (r: seq<Segment>)
    requires segs != [] && Contiguous(segs) && 1 <= i && i + 2 <= |segs|
    requires ShiftRepair.InModel(Vertices(segs), i, delta)
    ensures r != [] && Contiguous(r) && |r| <= |segs|
    ensures r[0].start == segs[0].start && r[|r| - 1].end == segs[|segs| - 1].end
  {
    var vs := Vertices(segs);
    var v := ShiftRepair.ShiftAndRepair(vs, i, delta);
    SegmentsOf(v)
  }

  /** The path `mutate_shift` leaves: the shifted segments with the length
      recomputed. */
  function ShiftedPath(p: Path, i: nat, delta: int): (q: Path)
    requires p.segments != [] && Contiguous(p.segments) && 1 <= i && i + 2 <= |p.segments|
    requires ShiftRepair.InModel(Vertices(p.segments), i, delta)
    ensures q.segments != [] && Contiguous(q.segments) && LengthCached(q)
    ensures |q.segments| <= |p.segments|
    ensures q.segments[0].start == p.segments[0].start
    ensures q.segments[|q.segments| - 1].end == p.segments[|p.segments| - 1].end
  {
    var segs := ShiftedSegments(p.segments, i, delta);
    Path(segs, Length(segs))
  }

  /** Builds the shifted path, measuring its length with `calculate_length`. */
  method BuildShiftedPath(p: Path, i: nat, delta: int) returns (q: Path)
    requires p.segments != [] && Contiguous(p.segments) && 1 <= i && i + 2 <= |p.segments|
    requires ShiftRepair.InModel(Vertices(p.segments), i, delta)
    ensures q == ShiftedPath(p, i, delta)
  {
    var segs := ShiftedSegments(p.segments, i, delta);
    var newLength := CalculateLength(segs);
    q := Path(segs, newLength);
  }

  /** The shift branch of `mutate_shift` runs: the path has at least three
      segments and either only shifts are allowed or no reroll was drawn. */
  predicate ShiftBranch(p: Path, onlyShift: bool, reroll: bool) {
    |p.segments| >= 3 && (onlyShift || !reroll)
  }

  /** A candidate solution: one path per point pair and its cached fitness. */
  class Solution {
    var paths: seq<Path>
    var fitness: int

    constructor()
      ensures paths == [] && fitness == 0
    {
      paths := [];
      fitness := 0;
    }

    /** Replaces the paths and recomputes the fitness. */
    method SetPaths(newPaths: seq<Path>, w: Weights)
      modifies this
      ensures paths == newPaths && fitness == Fitness(newPaths, w)
    {
      paths := newPaths;
      fitness := CalculateFitness(newPaths, w);
    }

    /** Uniform crossover: each gene comes from this parent when its coin is
        set and from `second` otherwise; parents of different sizes fail. */
    method CrossoverWithRandomGenes(second: Solution, coins: nat -> bool, w: Weights)
      returns (child: Result<Solution, string>)
      ensures |paths| != |second.paths| ==> child == Failure(SizeMismatch)
      ensures |paths| == |second.paths| ==>
        && child.Success? && fresh(child.value)
        && child.value.paths == Choose(paths, second.paths, coins)
        && child.value.fitness == Fitness(child.value.paths, w)
    {
      if |paths| != |second.paths| {
        return Failure(SizeMismatch);
      }
      var c := new Solution();
      var genes := PickGenes(paths, second.paths, coins);
      c.SetPaths(genes, w);
      child := Success(c);
    }

    /** One-point crossover at half the size; `coin` picks which parent
        gives the first half. Parents of different sizes fail. */
    method CrossoverWithEvenGenes(second: Solution, coin: bool, w: Weights)
      returns (child: Result<Solution, string>)
      ensures |paths| != |second.paths| ==> child == Failure(SizeMismatch)
      ensures |paths| == |second.paths| ==>
        && child.Success? && fresh(child.value)
        && child.value.paths == EvenSplit(paths, second.paths, coin)
        && child.value.fitness == Fitness(child.value.paths, w)
    {
      if |paths| != |second.paths| {
        return Failure(SizeMismatch);
      }
      var c := new Solution();
      c.SetPaths(EvenSplit(paths, second.paths, coin), w);
      child := Success(c);
    }

    /** Keeps the first `cut` segments of path k and routes the rest anew
        from the start of segment `cut` to the path's end. */
    method MutateReroll(k: nat, cut: nat, b: Board, draws: nat -> PathGen.Draw, w: Weights)
      modifies this
      requires k < |paths| && PathGen.BoardOk(b) && Routable(paths[k], b)
      requires cut < |paths[k].segments| && RerollDefined(paths[k], cut, draws)
      ensures |paths| == |old(paths)|
      ensures forall j :: 0 <= j < |paths| && j != k ==> paths[j] == old(paths)[j]
      ensures Routable(paths[k], b) && LengthCached(paths[k])
      ensures paths[k].segments[0].start == old(paths)[k].segments[0].start
      ensures paths[k].segments[|paths[k].segments| - 1].end == old(paths)[k].segments[|old(paths)[k].segments| - 1].end
      ensures PathGen.KeepsPrefix(paths[k].segments, old(paths)[k].segments[..cut], old(paths)[k].segments[cut].start)
      ensures fitness == Fitness(paths, w)
    {
      var segs := paths[k].segments;
      var start, end := segs[cut].start, segs[|segs| - 1].end;
      assert segs[..cut] == [] ==> start == segs[0].start;
      var newSegs, newLength := PathGen.Pathfinding(start, end, b, segs[..cut], RerollCap, draws);
      KeptPrefixKeepsStart(newSegs, segs, cut);
      paths := paths[k := Path(newSegs, newLength)];
      fitness := CalculateFitness(paths, w);
    }

    /** Puts `q` in place of path k and recomputes the fitness, as the
        shift branch of `mutate` does once the path is rebuilt. */
    method ReplacePath(k: nat, q: Path, w: Weights)
      modifies this
      requires k < |paths|
      ensures |paths| == |old(paths)| && paths[k] == q
      ensures forall j :: 0 <= j < |paths| && j != k ==> paths[j] == old(paths)[j]
      ensures fitness == Fitness(paths, w)
    {
      paths := paths[k := q];
      fitness := CalculateFitness(paths, w);
    }

    /** `mutate_shift` for path k. In the shift branch segment i moves by the
        signed amount `ShiftDelta` draws; otherwise a drawn reroll (when
        shifts are not forced) rebuilds the path from `cut`; otherwise nothing
        changes. */
    method MutateShift(k: nat, onlyShift: bool, reroll: bool, i: nat,
                       length: Option<int>, direction: Option<int>, coin: bool, raw: nat,
                       cut: nat, b: Board, draws: nat -> PathGen.Draw, w: Weights)
      modifies this
      requires k < |paths| && paths[k].segments != [] && Contiguous(paths[k].segments)
      requires ShiftBranch(paths[k], onlyShift, reroll) ==>
        && 1 <= i && i + 2 <= |paths[k].segments|
        && (length.None? ==> ShiftRepair.Room(Vertices(paths[k].segments), i, b, direction, coin) >= 1)
        && ShiftRepair.InModel(Vertices(paths[k].segments), i,
             ShiftRepair.ShiftDelta(Vertices(paths[k].segments), i, b, length, direction, coin, raw))
      requires !ShiftBranch(paths[k], onlyShift, reroll) && reroll && !onlyShift ==>
        PathGen.BoardOk(b) && Routable(paths[k], b) && cut < |paths[k].segments|
        && RerollDefined(paths[k], cut, draws)
      ensures |paths| == |old(paths)|
      ensures forall j :: 0 <= j < |paths| && j != k ==> paths[j] == old(paths)[j]
      ensures ShiftBranch(old(paths)[k], onlyShift, reroll) ==>
        var v := Vertices(old(paths)[k].segments);
        && paths[k] == ShiftedPath(old(paths)[k], i, ShiftRepair.ShiftDelta(v, i, b, length, direction, coin, raw))
        && fitness == Fitness(paths, w)
      ensures !ShiftBranch(old(paths)[k], onlyShift, reroll) && reroll && !onlyShift ==>
        && Routable(paths[k], b) && LengthCached(paths[k])
        && PathGen.KeepsPrefix(paths[k].segments, old(paths)[k].segments[..cut], old(paths)[k].segments[cut].start)
        && fitness == Fitness(paths, w)
      ensures !ShiftBranch(old(paths)[k], onlyShift, reroll) && !(reroll && !onlyShift) ==>
        paths == old(paths) && fitness == old(fitness)
    {
      var p := paths[k];
      if ShiftBranch(p, onlyShift, reroll) {
        var delta := ShiftRepair.ShiftDelta(Vertices(p.segments), i, b, length, direction, coin, raw);
        var q := BuildShiftedPath(p, i, delta);
        ReplacePath(k, q, w);
      } else if reroll && !onlyShift {
        MutateReroll(k, cut, b, draws, w);
      }
    }
  }
}
