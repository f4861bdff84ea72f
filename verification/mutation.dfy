/**
 Bit-flip mutation (knapsack.py:75-81). The draw `random.random()` made for
 each position is passed in: position i flips exactly when its draw is below
 the mutation rate.
 */
module Mutation {
  import opened Genomes

  /** mutate: a fresh genome, each gene flipped when its draw is below the rate. */
  function Mutate(genome: Genome, rate: real, draws: seq<real>): (mutant: Genome)
    requires |draws| == |genome|
    ensures |mutant| == |genome|
    ensures forall i :: 0 <= i < |genome| ==> mutant[i] == if draws[i] < rate then Flip(genome[i]) else genome[i]
    decreases |genome|
  {
    if |genome| == 0 then []
    else
      var gene := if draws[0] < rate then Flip(genome[0]) else genome[0];
      [gene] + Mutate(genome[1..], rate, draws[1..])
  }

  /** Number of draws below the rate: how many flips were decided. */
  function CountBelow(draws: seq<real>, rate: real): nat {
    if |draws| == 0 then 0
    else (if draws[0] < rate then 1 else 0) + CountBelow(draws[1..], rate)
  }

  /** Number of positions where two genomes differ. */
  function Distance(a: Genome, b: Genome): nat
    requires |a| == |b|
  {
    if |a| == 0 then 0
    else (if a[0] != b[0] then 1 else 0) + Distance(a[1..], b[1..])
  }

  /** Mutating with the same draws twice gives the original genome back. */
  lemma MutateTwiceRestores(genome: Genome, rate: real, draws: seq<real>)
    requires |draws| == |genome|
    ensures Mutate(Mutate(genome, rate, draws), rate, draws) == genome
  {
    var twice := Mutate(Mutate(genome, rate, draws), rate, draws);
    assert forall i :: 0 <= i < |genome| ==> twice[i] == genome[i];
  }

  /** The mutant differs from the genome in exactly as many genes as there were flips. */
  lemma {:induction false} MutateDistance(genome: Genome, rate: real, draws: seq<real>)
    requires |draws| == |genome|
    ensures Distance(genome, Mutate(genome, rate, draws)) == CountBelow(draws, rate)
    decreases |genome|
  {
    if |genome| > 0 {
      var mutant := Mutate(genome, rate, draws);
      assert mutant[1..] == Mutate(genome[1..], rate, draws[1..]);
      MutateDistance(genome[1..], rate, draws[1..]);
    }
  }

  /** A rate of 0 (draws lie in [0, 1)) leaves the genome as it was. */
  lemma MutateAtRateZero(genome: Genome, draws: seq<real>)
    requires |draws| == |genome|
    requires forall i :: 0 <= i < |draws| ==> 0.0 <= draws[i]
    ensures Mutate(genome, 0.0, draws) == genome
  {
    var mutant := Mutate(genome, 0.0, draws);
    assert forall i :: 0 <= i < |genome| ==> mutant[i] == genome[i];
  }

  /** Every draw in [0, 1) is below a rate of 1. */
  lemma {:induction false} AllBelowOne(draws: seq<real>)
    requires forall i :: 0 <= i < |draws| ==> draws[i] < 1.0
    ensures CountBelow(draws, 1.0) == |draws|
  {
    if |draws| > 0 {
      AllBelowOne(draws[1..]);
    }
  }

  /** A rate of 1 (draws lie in [0, 1)) inverts every gene: the mutant differs everywhere. */
  lemma MutateAtRateOne(genome: Genome, draws: seq<real>)
    requires |draws| == |genome|
    requires forall i :: 0 <= i < |draws| ==> draws[i] < 1.0
    ensures forall i :: 0 <= i < |genome| ==> Mutate(genome, 1.0, draws)[i] == 1 - genome[i]
    ensures Distance(genome, Mutate(genome, 1.0, draws)) == |genome|
  {
    MutateDistance(genome, 1.0, draws);
    AllBelowOne(draws);
  }
}
