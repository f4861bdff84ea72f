/**
 Roulette-wheel parent selection (knapsack.py:49-62). The random outcomes are
 parameters: `pick` is the value `random.uniform(0, total)` drew, and
 `fallback` the index `random.choice` drew. Arithmetic is exact; the result is
 the index of the chosen individual, or None when the scan falls through the
 end of the population, which is what the Python function returns there.
 */
module Selection {
  import opened Options

  /** Sum of the first n fitness values. */
  function PrefixSum(fitness: seq<nat>, n: nat): nat
    requires n <= |fitness|
  {
    if n == 0 then 0 else PrefixSum(fitness, n - 1) + fitness[n - 1]
  }

  /** `sum(fitness_values)`. */
  function Total(fitness: seq<nat>): nat {
    PrefixSum(fitness, |fitness|)
  }

  /** Prefix sums never decrease. */
  lemma {:induction false} PrefixSumMonotone(fitness: seq<nat>, m: nat, n: nat)
    requires m <= n <= |fitness|
    ensures PrefixSum(fitness, m) <= PrefixSum(fitness, n)
    decreases n - m
  {
    if m < n {
      PrefixSumMonotone(fitness, m, n - 1);
    }
  }

  /** The running sum after individual j has reached the pick. */
  predicate Reaches(fitness: seq<nat>, pick: real, j: nat)
    requires j < |fitness|
  {
    pick <= PrefixSum(fitness, j + 1) as real
  }

  /**
   The loop of lines 59-62 from position i, where `current` is the running sum
   of the fitness values before i.
   */
  function Scan(fitness: seq<nat>, pick: real, i: nat, current: nat): (r: Option<nat>)
    requires i <= |fitness| && current == PrefixSum(fitness, i)
    ensures r.Some? ==>
      && i <= r.value < |fitness|
      && Reaches(fitness, pick, r.value)
      && forall j :: i <= j < r.value ==> !Reaches(fitness, pick, j)
    ensures r.None? ==> forall j :: i <= j < |fitness| ==> !Reaches(fitness, pick, j)
    decreases |fitness| - i
  {
    if i == |fitness| then None
    else if pick <= (current + fitness[i]) as real then Some(i)
    else Scan(fitness, pick, i + 1, current + fitness[i])
  }

  /**
   select_parent: the uniform fallback when every fitness is 0, otherwise the
   first index whose prefix sum reaches `pick`; it finds one whenever pick does
   not exceed the total, and falls through exactly when it does.
   */
  function SelectParent(fitness: seq<nat>, pick: real, fallback: nat): (r: Option<nat>)
    requires Total(fitness) == 0 ==> fallback < |fitness|
    ensures Total(fitness) == 0 ==> r == Some(fallback)
    ensures Total(fitness) > 0 && pick <= Total(fitness) as real ==>
      && r.Some?
      && r.value < |fitness|
      && Reaches(fitness, pick, r.value)
      && forall j :: 0 <= j < r.value ==> !Reaches(fitness, pick, j)
    ensures Total(fitness) > 0 && (Total(fitness) as real) < pick ==> r.None?
  {
    if Total(fitness) == 0 then Some(fallback)
    else
      var r := Scan(fitness, pick, 0, 0);
      if r.Some? then
        PrefixSumMonotone(fitness, r.value + 1, |fitness|);
        r
      else
        assert !Reaches(fitness, pick, |fitness| - 1);
        r
  }

  /**
   For 0 < pick <= total, index j is chosen exactly when pick lies in the j-th
   slot (PrefixSum(j), PrefixSum(j + 1)] of the wheel, a slot as wide as the
   j-th fitness.
   */
  lemma RouletteSlot(fitness: seq<nat>, pick: real, fallback: nat, j: nat)
    requires 0.0 < pick <= Total(fitness) as real
    ensures SelectParent(fitness, pick, fallback) == Some(j) <==>
      j < |fitness| && (PrefixSum(fitness, j) as real) < pick <= PrefixSum(fitness, j + 1) as real
  {
    var r := SelectParent(fitness, pick, fallback);
    var k := r.value;
    if 0 < k {
      assert !Reaches(fitness, pick, k - 1);
    }
    if j < |fitness| && (PrefixSum(fitness, j) as real) < pick <= PrefixSum(fitness, j + 1) as real {
      forall i | 0 <= i < j
        ensures !Reaches(fitness, pick, i)
      {
        PrefixSumMonotone(fitness, i + 1, j);
      }
      assert Reaches(fitness, pick, j);
    }
  }

  /** With a positive pick the wheel never lands on a zero-fitness individual. */
  lemma RouletteSkipsZeroFitness(fitness: seq<nat>, pick: real, fallback: nat)
    requires 0.0 < pick <= Total(fitness) as real
    ensures fitness[SelectParent(fitness, pick, fallback).value] > 0
  {
    RouletteSlot(fitness, pick, fallback, SelectParent(fitness, pick, fallback).value);
  }
}
