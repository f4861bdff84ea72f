/**
 The genome representation of the knapsack search (knapsack.py:4-32): a catalog
 of (value, weight) items, and genomes holding one 0/1 gene per item.
 */
module Genomes {

  /** A gene is the integer 0 or 1, as `random.randint(0, 1)` produces it. */
  type Bit = b: int | 0 <= b <= 1

  /** Gene i == 1 means that catalog item i is put in the knapsack. */
  type Genome = seq<Bit>

  /** One catalog entry. */
  datatype Item = Item(value: nat, weight: nat)

  /** The inverted gene, computed as `1 - gene`. */
  function Flip(b: Bit): Bit {
    1 - b
  }

  /** Every genome of the population has the given length. */
  predicate AllOfLength(pop: seq<Genome>, length: nat) {
    forall g :: 0 <= g < |pop| ==> |pop[g]| == length
  }

  /** Joining two populations of one genome length keeps that length. */
  lemma AllOfLengthConcat(a: seq<Genome>, b: seq<Genome>, length: nat)
    requires AllOfLength(a, length) && AllOfLength(b, length)
    ensures AllOfLength(a + b, length)
  {
    forall g | 0 <= g < |a + b|
      ensures |(a + b)[g]| == length
    {
      if g >= |a| {
        assert (a + b)[g] == b[g - |a|];
      }
    }
  }

  /** The genes of a population laid end to end, in population order. */
  function Concat(pop: seq<Genome>): seq<Bit> {
    if |pop| == 0 then [] else pop[0] + Concat(pop[1..])
  }

  /**
   init_population / create_genome: `size` genomes of `length` genes each. The
   random bits are passed in as one stream, consumed genome by genome, so the
   population read back end to end is exactly the stream of draws.
   */
  function InitPopulation(bits: seq<Bit>, size: nat, length: nat): (pop: seq<Genome>)
    requires |bits| == size * length
    ensures |pop| == size
    ensures AllOfLength(pop, length)
    ensures Concat(pop) == bits
    decreases size
  {
    if size == 0 then []
    else
      assert |bits| == length + (size - 1) * length;
      var pop := [bits[..length]] + InitPopulation(bits[length..], size - 1, length);
      assert pop[1..] == InitPopulation(bits[length..], size - 1, length);
      pop
  }
}
