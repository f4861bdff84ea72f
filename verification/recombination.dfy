/**
 Single-point crossover (knapsack.py:65-72). The coin `random.random()` and the
 cut point `random.randint(1, len(parent1) - 1)` are parameters. Slices follow
 Python: `s[:n]` and `s[n:]` clamp at the end of `s`, so parents of different
 lengths are handled as the source handles them.
 */
module Recombination {
  import opened Genomes

  /** Python's `s[:n]` for n >= 0. */
  function Take(s: Genome, n: nat): Genome {
    if n <= |s| then s[..n] else s
  }

  /** Python's `s[n:]` for n >= 0. */
  function Drop(s: Genome, n: nat): Genome {
    if n <= |s| then s[n..] else []
  }

  /**
   crossover: below the rate the offspring swap their tails at `point`,
   otherwise they are copies of the parents. Either way the two offspring
   together carry exactly the genes of the two parents.
   */
  function Crossover(parent1: Genome, parent2: Genome, rate: real, coin: real, point: nat): (offspring: (Genome, Genome))
    requires coin < rate ==> 1 <= point <= |parent1| - 1
    ensures rate <= coin ==> offspring == (parent1, parent2)
    ensures multiset(offspring.0) + multiset(offspring.1) == multiset(parent1) + multiset(parent2)
    ensures coin < rate && |parent1| == |parent2| ==>
      && |offspring.0| == |parent1|
      && |offspring.1| == |parent1|
      && (forall i :: 0 <= i < |parent1| ==> offspring.0[i] == if i < point then parent1[i] else parent2[i])
      && (forall i :: 0 <= i < |parent1| ==> offspring.1[i] == if i < point then parent2[i] else parent1[i])
  {
    if coin < rate then
      assert parent1 == parent1[..point] + parent1[point..];
      assert parent2 == Take(parent2, point) + Drop(parent2, point);
      (Take(parent1, point) + Drop(parent2, point), Take(parent2, point) + Drop(parent1, point))
    else
      (parent1, parent2)
  }

  /**
   Crossing the two offspring again with the same coin and cut point gives the
   parents back.
   */
  lemma CrossoverTwiceRestores(parent1: Genome, parent2: Genome, rate: real, coin: real, point: nat)
    requires |parent1| == |parent2|
    requires coin < rate ==> 1 <= point <= |parent1| - 1
    ensures var offspring := Crossover(parent1, parent2, rate, coin, point);
            var again := Crossover(offspring.0, offspring.1, rate, coin, point);
            again.0 == parent1 && again.1 == parent2
  {
    var offspring := Crossover(parent1, parent2, rate, coin, point);
    if coin < rate {
      var again := Crossover(offspring.0, offspring.1, rate, coin, point);
      assert again.0 == parent1;
      assert again.1 == parent2;
    }
  }
}
