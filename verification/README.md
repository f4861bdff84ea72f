# Genetic-algorithm knapsack solver, modelled in Dafny

This project models `knapsack.py`, a genetic algorithm for the 0/1 knapsack
problem: genomes hold one 0/1 gene per catalog item, fitness is the summed
value of the selected items (0 when they are too heavy), parents are chosen by
roulette-wheel selection, recombined by single-point crossover and mutated bit
by bit, and a controller keeps the best-ever record and stops after a fixed
number of generations or after five generations without strict improvement.

The module-level constants (`ITEMS`, `MAX_WEIGHT`, `POPULATION_SIZE`,
`GENERATIONS`, `CROSSOVER_RATE`, `MUTATION_RATE`) become the `Config` value of
`Evolution`; `Evolution.SourceConfig` holds the source's values. Every random
outcome is a parameter:

- the operators take the drawn value itself (the roulette `pick`, the fallback
  index of `random.choice`, the crossover coin and cut point, one draw per gene
  for mutation);
- the controller takes draws u in [0, 1), the values `random.random()`
  returns, and scales them: `random.uniform(0, t)` is `t * u`, a uniform
  index below n is the integer part of `u * n`, and `random.randint(1, L - 1)`
  is 1 plus a uniform index below L - 1.

Files, one module each: `options.dfy` (Option), `genomes.dfy` (genes, items,
population initialization), `evaluation.dfy` (fitness), `selection.dfy`
(roulette wheel), `recombination.dfy` (crossover), `mutation.dfy` (mutation),
`evolution.dfy` (the generation loop).

Two helpers compute without a contract of their own and are used by the
members below. `Evolution.Evaluate` is the list of fitness values built at
knapsack.py:96, one per genome in population order. `Selection.Total` is the
`sum` of knapsack.py:51. `Evolution.Cross` draws the cut point of
knapsack.py:68 only when the coin falls below the rate, then crosses over.

The generation loop (knapsack.py:95-118) is `Evolution.Evolve`, a recursive
function that runs one generation per row of draws from a given population
and record. `Evolution.GeneticAlgorithm` starts it from the initial
population and the record (0, None, 0) of knapsack.py:85-92, so its result is
`Evolve`'s by definition. `Evolve` takes any record the loop can hold at the
top of an iteration: no genome exactly while the best fitness is 0, a
recorded genome that scores the recorded fitness, and a counter below 5.

`Evolution.Step` is lines 99-105 applied to the best-ever fitness and the
counter alone, given a generation's maximum. `Evolution.Track` folds `Step`
over a sequence of generation maxima. The two are the reference against which
the run's stopping rule is stated.

Fitness is a pure function of genome, catalog and capacity, so evaluating a
genome twice gives the same value by construction. The code validates no
configuration: an odd population size, an empty catalog, a negative capacity
and rates outside [0, 1] are all accepted, although a cleaner design would
reject them up front. The model follows the code. With an odd population size
the population shrinks to `2 * (size // 2)` after the first generation, and
the model reproduces that too.

## Model

| member | source | states |
|---|---|---|
| Genomes.InitPopulation | knapsack.py:26-32 | the population has `size` genomes of `length` genes, and read back end to end it is exactly the stream of random bits drawn |
| Evaluation.CalculateFitness | knapsack.py:34-47 | the accumulating loop returns 0 when the summed weight of the selected items exceeds the capacity and their summed value otherwise, sums taken over the pairs `zip` forms |
| Evaluation.NothingSelected | knapsack.py:39-43 | a genome selecting none of the paired items accumulates value 0 and weight 0 |
| Evaluation.ZeroGenomeFitness | knapsack.py:34-47 | the all-zero genome has fitness 0 whatever the capacity |
| Evaluation.SelectedItemWeighs | knapsack.py:39-43 | a selected item's weight never exceeds the accumulated total weight |
| Evaluation.OverweightItemsScoreZero | knapsack.py:39-47 | when every item alone exceeds the capacity (capacity 0 with positive weights) every genome has fitness 0 |
| Evaluation.SampleCatalogOptimum | knapsack.py:34-47 | for catalog (60,10), (100,20), (120,30) and capacity 50 no three-gene genome scores above 220; items 2+3 score 220, items 1+2 score 160, all three score 0 |
| Selection.PrefixSumMonotone | knapsack.py:57-60 | the running sum of non-negative fitness values never decreases |
| Selection.Scan | knapsack.py:57-62 | the scan from position i stops at the first index whose running sum reaches the pick, and falls through only when none does |
| Selection.SelectParent | knapsack.py:50-62 | total 0 gives the fallback index; otherwise a pick not above the total gives the first index whose prefix sum reaches it, and a pick above the total falls through to None |
| Selection.RouletteSlot | knapsack.py:50-62 | for 0 < pick <= total, index j is chosen if and only if pick lies in (prefix sum before j, prefix sum through j], a slot as wide as j's fitness |
| Selection.RouletteSkipsZeroFitness | knapsack.py:56-62 | with a positive pick the wheel never stops on a zero-fitness individual |
| Recombination.Crossover | knapsack.py:66-72 | at or above the rate the offspring are the parents; below it, for equal-length parents, offspring1 takes parent1 before the cut and parent2 from it, offspring2 the mirror; both offspring together always carry exactly the parents' genes |
| Recombination.CrossoverTwiceRestores | knapsack.py:66-71 | crossing the offspring again with the same coin and cut point gives the parents back |
| Mutation.Mutate | knapsack.py:76-81 | the mutant keeps the length, and gene i is `1 - genome[i]` exactly when draw i is below the rate, else unchanged |
| Mutation.MutateTwiceRestores | knapsack.py:76-81 | mutating twice with the same draws restores the genome |
| Mutation.MutateDistance | knapsack.py:78-80 | the mutant differs from the genome in exactly as many genes as there are draws below the rate |
| Mutation.AllBelowOne | knapsack.py:79 | every draw of `random.random()` is below a rate of 1 |
| Mutation.MutateAtRateZero | knapsack.py:78-80 | with rate 0 the mutant equals the genome |
| Mutation.MutateAtRateOne | knapsack.py:78-80 | with rate 1 every gene is inverted, so the mutant differs in every position |
| Evolution.SourceConfigFits | knapsack.py:5-23 | the source's constants meet the controller's requirements: a population of at least 2 and a catalog of at least 2 items, so crossover points can be drawn |
| Evolution.UniformPick | knapsack.py:56 | the scaled pick lies in [0, total] |
| Evolution.ChoiceIndex | knapsack.py:54 | the uniform fallback index lies below the population size |
| Evolution.CutPoint | knapsack.py:68 | the crossover point lies in [1, length - 1] |
| Evolution.Pick | knapsack.py:113-114 | a parent selection always yields an index into the population, and with a positive total and draw an individual of positive fitness |
| Evolution.Breed | knapsack.py:115-116 | crossover then mutation of two chosen parents yields two children of the catalog's length |
| Evolution.BreedUndo | knapsack.py:115-116 | mutating each child again with its own flip draws gives back the crossover's offspring |
| Evolution.BreedInherits | knapsack.py:115-116 | with its own flips undone, below the crossover rate child 1 holds parent1's genes before the cut point and parent2's from it on, child 2 the mirror; at or above the rate the children are the parents themselves |
| Evolution.BreedPair | knapsack.py:113-116 | one pass yields two children of the catalog's length |
| Evolution.BreedPairInherits | knapsack.py:113-116 | the same cut-point inheritance for the two genomes the roulette wheel picked from the population; with a positive total fitness and positive selection draws both picked parents have positive fitness |
| Evolution.NextPopulation | knapsack.py:110-118 | the next population has two genomes per pair of draws, so `2 * (POPULATION_SIZE // 2)`, each of the catalog's length |
| Evolution.Max | knapsack.py:98 | the maximum is one of the fitness values and no value exceeds it |
| Evolution.IndexOf | knapsack.py:101 | the index holds the value and no earlier index does |
| Evolution.UpdateRecord | knapsack.py:98-105 | best-ever fitness never decreases and bounds the generation; a strict improvement records the generation maximum with the earliest genome reaching it and resets the counter; otherwise, ties included, the record is kept and the counter grows by 1 |
| Evolution.RecordStep | knapsack.py:96-105 | one generation's bookkeeping keeps the record well formed (no genome exactly at fitness 0, a recorded genome scores the recorded fitness); the new best is the old best or the generation's maximum, and at least that maximum; the counter grows by exactly 1 when the best stays; an all-overweight catalog keeps a zero best at 0; the new best and counter are `Step` of the old ones and the generation's maximum |
| Evolution.Evolve | knapsack.py:95-118 | the run never outlasts its draws and ends early only when the counter reaches 5; the best-ever fitness never drops, bounds every generation's best and is the starting best or one of them; if it never rises, the counter grew by 1 per generation; folding `Step` over the generations' bests from the starting best and counter gives the final best and counter, and every generation but the last leaves the counter below 5, so the run ends at the first generation whose counter reaches 5; the first generation's best is the maximum fitness of the given population; the record stays well formed; a running population keeps `2 * (POPULATION_SIZE // 2)` genomes of the catalog's length |
| Evolution.GeneticAlgorithm | knapsack.py:83-118 | the run from the initial population: at most GENERATIONS generations, fewer only when the counter reaches 5; folding `Step` over the generations' bests from (0, 0) gives the final best and counter, and every generation but the last leaves the counter below 5, so the loop breaks at the first generation whose counter reaches 5; the first generation's best is the maximum over the initial population; best-ever fitness bounds every generation's best and is one of them or 0; a recorded genome is feasible, has the catalog's length and scores the recorded fitness; no genome recorded means fitness 0; a run that never beats 0 stops after min(GENERATIONS, 5) generations; all-overweight catalogs end at fitness 0; a running population has `2 * (POPULATION_SIZE // 2)` genomes |

## Left out

- Progress and final printing (knapsack.py:120, 126-129): output only. `GeneticAlgorithm` returns each generation's best instead.
- The final report (knapsack.py:123-124): when no generation beats fitness 0 the genome stays `None` and `enumerate(None)` raises; the model returns the record with an `Option` genome and does not model the crash.
- The `__main__` entry point (knapsack.py:131-132).
- The `random` module: outcomes are parameters, not distributions, so nothing about probabilities is stated. `random.choice` and `randint` draw through `getrandbits`; the model scales one [0, 1) draw instead, which yields the same ranges.
- Floating point: rates, draws and picks are exact reals. In Python the running sum at knapsack.py:57-60 is an exact integer and is compared with the float pick exactly, and `random.uniform(0, total)` never exceeds `total` while the total is at most 2**53, so the scan can fall through to `None` only for totals beyond 2**53, where `float(total)` may round up. Exact arithmetic removes even that case: `Selection.SelectParent` finds an index for every pick up to the total and returns None only for a pick above it.
- Evolution.GeneticAlgorithm: requires a population of at least 1 for one generation and at least 2 for more, because `max([])` raises on an empty population; the raise itself is not modelled as a result.
- Evolution.ValidPairDraws: a crossover point is drawn only for catalogs of two or more items, because `randint(1, 0)` raises; the raise is not modelled as a result.
- Recombination.Crossover: the positional contract is stated for parents of equal length (the only case the controller produces); for unequal lengths only gene conservation across the pair is stated, though the clamping slices are modelled.
- Genomes.Item: values and weights are non-negative integers; the source's catalog has only positive ones and nothing else is ever used.
- Copies (`[:]` at knapsack.py:72, 77, 102): Dafny sequences are values, so no aliasing can arise.
