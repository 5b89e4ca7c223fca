/** The population and its selection operators: ranking by fitness,
    roulette-wheel selection and tournament selection. Lower fitness is
    better. */
module Selection {
  import opened Genetics

  /** Every solution's fitness is at most the next one's. */
  predicate SortedByFitness(sols: seq<Solution>)
    reads sols
  {
    forall a, b :: 0 <= a < b < |sols| ==> sols[a].fitness <= sols[b].fitness
  }

  /** The fitness values of a list of solutions, in order. */
  function FitnessValues(sols: seq<Solution>): (fs: seq<int>)
    reads sols
    ensures |fs| == |sols|
    ensures forall k :: 0 <= k < |sols| ==> fs[k] == sols[k].fitness
  {
    seq(|sols|, k requires 0 <= k < |sols| reads sols => sols[k].fitness)
  }

  /** Largest value of a non-empty list. */
  function MaxValue(fs: seq<int>): (m: int)
    requires fs != []
    ensures forall k :: 0 <= k < |fs| ==> fs[k] <= m
    ensures exists k :: 0 <= k < |fs| && fs[k] == m
  {
    if |fs| == 1 then fs[0]
    else
      var rest := MaxValue(fs[1..]);
      assert forall k :: 1 <= k < |fs| ==> fs[k] == fs[1..][k - 1];
      if fs[0] >= rest then fs[0] else rest
  }

  /** Roulette weight sum of the first n solutions: each weighs `top` minus its fitness. */
  function PrefixWeight(fs: seq<int>, top: int, n: nat): int
    requires n <= |fs|
  {
    if n == 0 then 0 else PrefixWeight(fs, top, n - 1) + (top - fs[n - 1])
  }

  /** With `top` the maximum, the prefix weights never decrease. */
  lemma {:induction false} PrefixWeightMonotone(fs: seq<int>, top: int, m: nat, n: nat)
    requires m <= n <= |fs|
    requires forall k :: 0 <= k < |fs| ==> fs[k] <= top
    ensures PrefixWeight(fs, top, m) <= PrefixWeight(fs, top, n)
    decreases n - m
  {
    if m < n {
      PrefixWeightMonotone(fs, top, m, n - 1);
    }
  }

  /** The roulette picks index i exactly for the picks in
      (PrefixWeight(i), PrefixWeight(i + 1)]: among the integer picks 1..total,
      as many select solution i as its weight top - fitness. */
  lemma RouletteInterval(fs: seq<int>, top: int, pick: int, i: nat)
    requires i < |fs| && forall k :: 0 <= k < |fs| ==> fs[k] <= top
    ensures (PrefixWeight(fs, top, i + 1) >= pick
             && forall n :: 0 < n <= i ==> PrefixWeight(fs, top, n) < pick)
        <==> (PrefixWeight(fs, top, i + 1) >= pick && (i == 0 || PrefixWeight(fs, top, i) < pick))
  {
    if i > 0 {
      if PrefixWeight(fs, top, i) < pick {
        forall n | 0 < n <= i
          ensures PrefixWeight(fs, top, n) < pick
        {
          PrefixWeightMonotone(fs, top, n, i);
        }
      }
    }
  }

  /** A solution whose fitness equals the maximum weighs nothing, so a
      positive pick never selects it. */
  lemma RouletteSkipsWorst(fs: seq<int>, top: int, pick: int, i: nat)
    requires i < |fs| && pick > 0
    requires PrefixWeight(fs, top, i + 1) >= pick
    requires forall n :: 0 < n <= i ==> PrefixWeight(fs, top, n) < pick
    ensures fs[i] < top
  {
  }

  /** Placing `s` after every solution whose fitness does not exceed its
      own, and before the rest, keeps a ranking sorted. */
  lemma InsertKeepsSorted(ranked: seq<Solution>, s: Solution, j: nat)
    requires j <= |ranked| && SortedByFitness(ranked)
    requires j > 0 ==> ranked[j - 1].fitness <= s.fitness
    requires forall t :: j <= t < |ranked| ==> ranked[t].fitness > s.fitness
    ensures SortedByFitness(ranked[..j] + [s] + ranked[j..])
  {
    var r := ranked[..j] + [s] + ranked[j..];
    forall a, b | 0 <= a < b < |r|
      ensures r[a].fitness <= r[b].fitness
    {
      if b < j {
        assert r[a] == ranked[a] && r[b] == ranked[b];
      } else if b == j {
        assert r[a] == ranked[a] && r[b] == s;
        assert ranked[a].fitness <= ranked[j - 1].fitness;
      } else if a == j {
        assert r[a] == s && r[b] == ranked[b - 1];
      } else if a < j {
        assert r[a] == ranked[a] && r[b] == ranked[b - 1];
      } else {
        assert r[a] == ranked[a - 1] && r[b] == ranked[b - 1];
      }
    }
  }

  /** Inserts `s` after every solution whose fitness does not exceed its own. */
  method InsertByFitness(ranked: seq<Solution>, s: Solution) returns (r: seq<Solution>)
    requires SortedByFitness(ranked)
    ensures SortedByFitness(r)
    ensures multiset(r) == multiset(ranked) + multiset{s}
  {
    var j := |ranked|;
    while j > 0 && ranked[j - 1].fitness > s.fitness
      invariant 0 <= j <= |ranked|
      invariant forall t :: j <= t < |ranked| ==> ranked[t].fitness > s.fitness
    {
      j := j - 1;
    }
    InsertKeepsSorted(ranked, s, j);
    r := ranked[..j] + [s] + ranked[j..];
    assert ranked == ranked[..j] + ranked[j..];
  }

  /** The roulette scan over fitness values: the first index at which the
      running weight, each value weighing `top` minus itself, reaches `pick`. */
  method RouletteScan(fs: seq<int>, top: int, pick: int) returns (position: nat)
    requires fs != [] && pick <= PrefixWeight(fs, top, |fs|)
    ensures position < |fs| && PrefixWeight(fs, top, position + 1) >= pick
    ensures forall n :: 0 < n <= position ==> PrefixWeight(fs, top, n) < pick
  {
    position := 0;
    var current := top - fs[0];
    while current < pick
      invariant 0 <= position < |fs|
      invariant current == PrefixWeight(fs, top, position + 1)
      invariant forall n :: 0 < n <= position ==> PrefixWeight(fs, top, n) < pick
      decreases |fs| - position
    {
      assert position + 1 < |fs|;
      position := position + 1;
      current := current + (top - fs[position]);
    }
  }

  /** The fitness of the last ranked solution is the largest fitness, as
      `selection_roulette` reads it off the ranking. */
  method WorstFitness(sols: seq<Solution>, ranked: seq<Solution>) returns (top: int)
    requires sols != []
    requires SortedByFitness(ranked) && multiset(ranked) == multiset(sols)
    ensures top == MaxValue(FitnessValues(sols))
  {
    var fs := FitnessValues(sols);
    assert sols[0] in multiset(ranked);
    top := ranked[|ranked| - 1].fitness;
    var m := MaxValue(fs);
    var at :| 0 <= at < |fs| && fs[at] == m;
    assert sols[at] in multiset(ranked);
    var a :| 0 <= a < |ranked| && ranked[a] == sols[at];
    assert ranked[|ranked| - 1] in multiset(sols);
    var b :| 0 <= b < |sols| && sols[b] == ranked[|ranked| - 1];
    assert fs[b] == top;
  }

  class Population {
    var solutions: seq<Solution>
    var size: nat

    /** An empty population that `initialize` would fill with `size` solutions. */
    constructor(size: nat)
      ensures solutions == [] && this.size == size
    {
      solutions := [];
      this.size := size;
    }

    /** `evaluate`: the solutions ranked by fitness, best first. */
    method Evaluate() returns (ranked: seq<Solution>)
      ensures SortedByFitness(ranked)
      ensures multiset(ranked) == multiset(solutions)
    {
      ranked := [];
      var k := 0;
      while k < |solutions|
        invariant 0 <= k <= |solutions|
        invariant SortedByFitness(ranked)
        invariant multiset(ranked) == multiset(solutions[..k])
      {
        assert solutions[..k + 1] == solutions[..k] + [solutions[k]];
        ranked := InsertByFitness(ranked, solutions[k]);
        k := k + 1;
      }
      assert solutions[..k] == solutions;
    }

    /** `selection_roulette` with the uniform draw given as `pick` in
        [0, total weight]: the first solution at which the running weight
        reaches the pick, where each solution weighs the worst fitness minus
        its own. */
    method SelectionRoulette(pick: int) returns (chosen: Solution, position: nat)
      requires solutions != []
      requires 0 <= pick <= PrefixWeight(FitnessValues(solutions), MaxValue(FitnessValues(solutions)), |solutions|)
      ensures position < |solutions| && chosen == solutions[position]
      ensures var fs := FitnessValues(solutions);
        && PrefixWeight(fs, MaxValue(fs), position + 1) >= pick
        && forall n :: 0 < n <= position ==> PrefixWeight(fs, MaxValue(fs), n) < pick
    {
      var ranked := Evaluate();
      var top := WorstFitness(solutions, ranked);
      position := RouletteScan(FitnessValues(solutions), top, pick);
      chosen := solutions[position];
    }

    /** `selection_tournament` with the members drawn as indices `picks`:
        the first member with the lowest fitness. */
    method SelectionTournament(picks: seq<nat>) returns (chosen: Solution, position: nat)
      requires picks != [] && forall q :: 0 <= q < |picks| ==> picks[q] < |solutions|
      ensures position < |picks| && chosen == solutions[picks[position]]
      ensures forall q :: 0 <= q < |picks| ==> chosen.fitness <= solutions[picks[q]].fitness
      ensures forall q :: 0 <= q < position ==> solutions[picks[q]].fitness > chosen.fitness
    {
      var members: seq<Solution> := [];
      var best := 0;
      position := 0;
      var i := 0;
      while i < |picks|
        invariant 0 <= i <= |picks| && |members| == i
        invariant forall q :: 0 <= q < i ==> members[q] == solutions[picks[q]]
        invariant position <= i && (i > 0 ==> position < i && best == members[position].fitness)
        invariant forall q :: 0 <= q < i ==> best <= members[q].fitness
        invariant forall q :: 0 <= q < position ==> members[q].fitness > best
      {
        var individual := solutions[picks[i]];
        members := members + [individual];
        if i == 0 || individual.fitness < best {
          best := individual.fitness;
          position := i;
        }
        i := i + 1;
      }
      chosen := members[position];
    }
  }
}
