/**
 Fitness of a genome (knapsack.py:34-47): the summed value of the selected
 items, or 0 when their summed weight exceeds the capacity. Genes and items are
 paired as `zip` pairs them, so only the first min(|genome|, |items|) positions
 count.
 */
module Evaluation {
  import opened Genomes

  /** Number of (gene, item) pairs `zip` produces: the shorter length. */
  function Paired(genome: Genome, items: seq<Item>): nat {
    if |genome| <= |items| then |genome| else |items|
  }

  /** Summed value of the selected items. */
  function TotalValue(genome: Genome, items: seq<Item>): nat
    decreases |genome|
  {
    if |genome| == 0 || |items| == 0 then 0
    else (if genome[0] == 1 then items[0].value else 0) + TotalValue(genome[1..], items[1..])
  }

  /** Summed weight of the selected items. */
  function TotalWeight(genome: Genome, items: seq<Item>): nat
    decreases |genome|
  {
    if |genome| == 0 || |items| == 0 then 0
    else (if genome[0] == 1 then items[0].weight else 0) + TotalWeight(genome[1..], items[1..])
  }

  /** The fitness of a genome against a catalog and a capacity. */
  function Fitness(genome: Genome, items: seq<Item>, maxWeight: int): nat {
    if TotalWeight(genome, items) > maxWeight then 0 else TotalValue(genome, items)
  }

  /**
   calculate_fitness as the source writes it: one pass accumulating value and
   weight, then the capacity test.
   */
  method CalculateFitness(genome: Genome, items: seq<Item>, maxWeight: int) returns (fitness: nat)
    ensures TotalWeight(genome, items) > maxWeight ==> fitness == 0
    ensures TotalWeight(genome, items) <= maxWeight ==> fitness == TotalValue(genome, items)
    ensures fitness == Fitness(genome, items, maxWeight)
  {
    var totalValue := 0;
    var totalWeight := 0;
    var i := 0;
    while i < Paired(genome, items)
      invariant 0 <= i <= Paired(genome, items)
      invariant totalValue + TotalValue(genome[i..], items[i..]) == TotalValue(genome, items)
      invariant totalWeight + TotalWeight(genome[i..], items[i..]) == TotalWeight(genome, items)
    {
      assert genome[i..][1..] == genome[i + 1..];
      assert items[i..][1..] == items[i + 1..];
      if genome[i] == 1 {
        totalValue := totalValue + items[i].value;
        totalWeight := totalWeight + items[i].weight;
      }
      i := i + 1;
    }
    if totalWeight > maxWeight {
      return 0;
    }
    return totalValue;
  }

  /** A genome that selects none of the paired items has no value and no weight. */
  lemma {:induction false} NothingSelected(genome: Genome, items: seq<Item>)
    requires forall i :: 0 <= i < Paired(genome, items) ==> genome[i] == 0
    ensures TotalValue(genome, items) == 0
    ensures TotalWeight(genome, items) == 0
    decreases |genome|
  {
    if |genome| != 0 && |items| != 0 {
      NothingSelected(genome[1..], items[1..]);
    }
  }

  /** The empty selection scores 0, from its zero value and whatever the capacity. */
  lemma ZeroGenomeFitness(genome: Genome, items: seq<Item>, maxWeight: int)
    requires forall i :: 0 <= i < |genome| ==> genome[i] == 0
    ensures Fitness(genome, items, maxWeight) == 0
  {
    NothingSelected(genome, items);
  }

  /** Every selected item contributes its whole weight to the total. */
  lemma {:induction false} SelectedItemWeighs(genome: Genome, items: seq<Item>, k: nat)
    requires k < Paired(genome, items) && genome[k] == 1
    ensures items[k].weight <= TotalWeight(genome, items)
    decreases k
  {
    if k > 0 {
      SelectedItemWeighs(genome[1..], items[1..], k - 1);
    }
  }

  /**
   When every item alone is heavier than the capacity (a capacity of 0 with
   positive weights, say) every genome scores 0.
   */
  lemma OverweightItemsScoreZero(genome: Genome, items: seq<Item>, maxWeight: int)
    requires forall i :: 0 <= i < |items| ==> items[i].weight > maxWeight
    ensures Fitness(genome, items, maxWeight) == 0
  {
    if exists k :: 0 <= k < Paired(genome, items) && genome[k] == 1 {
      var k :| 0 <= k < Paired(genome, items) && genome[k] == 1;
      SelectedItemWeighs(genome, items, k);
    } else {
      NothingSelected(genome, items);
    }
  }

  /** A three-item catalog: (60, 10), (100, 20), (120, 30). */
  function SampleItems(): seq<Item> {
    [Item(60, 10), Item(100, 20), Item(120, 30)]
  }

  /**
   With capacity 50 the best three-gene genome scores 220 (items 2 and 3), and
   taking all three items (weight 60) scores 0.
   */
  lemma SampleCatalogOptimum(genome: Genome)
    requires |genome| == 3
    ensures Fitness(genome, SampleItems(), 50) <= 220
    ensures Fitness([0, 1, 1], SampleItems(), 50) == 220
    ensures Fitness([1, 1, 0], SampleItems(), 50) == 160
    ensures Fitness([1, 1, 1], SampleItems(), 50) == 0
  {
    var items := SampleItems();
    var v0, v1, v2 := (if genome[0] == 1 then 60 else 0), (if genome[1] == 1 then 100 else 0), (if genome[2] == 1 then 120 else 0);
    var w0, w1, w2 := (if genome[0] == 1 then 10 else 0), (if genome[1] == 1 then 20 else 0), (if genome[2] == 1 then 30 else 0);
    assert genome[1..][1..] == genome[2..];
    assert genome[2..][1..] == [];
    assert TotalValue(genome[2..], items[2..]) == v2;
    assert TotalWeight(genome[2..], items[2..]) == w2;
    assert TotalValue(genome[1..], items[1..]) == v1 + v2;
    assert TotalWeight(genome[1..], items[1..]) == w1 + w2;
    assert TotalValue(genome, items) == v0 + v1 + v2;
    assert TotalWeight(genome, items) == w0 + w1 + w2;
  }
}
