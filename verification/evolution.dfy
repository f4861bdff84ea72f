/**
 The evolution controller of knapsack.py:83-118. The module-level constants
 become a configuration value, and every random outcome becomes an explicit
 draw u in [0, 1), the value `random.random()` returns, scaled to the range
 the random module draws from.
 */
module Evolution {
  import opened Options
  import opened Genomes
  import opened Evaluation
  import opened Selection
  import opened Recombination
  import opened Mutation

  /** Counter value at which the search stops (line 107). */
  const StagnationLimit: nat := 5

  /** ITEMS, MAX_WEIGHT, POPULATION_SIZE, GENERATIONS, CROSSOVER_RATE and MUTATION_RATE. */
  datatype Config = Config(
    items: seq<Item>,
    maxWeight: int,
    populationSize: nat,
    generations: nat,
    crossoverRate: real,
    mutationRate: real)

  /** The constants the source fixes at module level (lines 5-23). */
  function SourceConfig(): Config {
    Config(
      [Item(60, 10), Item(100, 20), Item(120, 30), Item(80, 15), Item(30, 5),
       Item(50, 10), Item(40, 5), Item(70, 25), Item(90, 35), Item(20, 2)],
      50, 100, 100, 0.5, 0.01)
  }

  /**
   The source's constants meet what the controller requires of a run: a
   population of at least 2, and a catalog long enough to draw crossover points.
   */
  lemma SourceConfigFits()
    ensures SourceConfig().populationSize >= 2
    ensures SourceConfig().generations >= 1
    ensures |SourceConfig().items| == 10
  {
  }

  /** A value `random.random()` can return. */
  predicate Unit(u: real) {
    0.0 <= u < 1.0
  }

  /** Scaling by a fraction below 1 does not enlarge a non-negative quantity. */
  lemma ScaleDown(u: real, t: real)
    requires Unit(u) && 0.0 <= t
    ensures 0.0 <= u * t <= t
    ensures 0.0 < t ==> u * t < t
  {
    if 0.0 < t {
      assert u * t < 1.0 * t;
    }
  }

  /** `random.uniform(0, total)`, which Python computes as 0 + (total - 0) * u. */
  function UniformPick(u: real, total: nat): (pick: real)
    requires Unit(u)
    ensures 0.0 <= pick <= total as real
  {
    ScaleDown(u, total as real);
    u * total as real
  }

  /** An index drawn uniformly below n, as the integer part of u * n. */
  function ChoiceIndex(u: real, n: nat): (k: nat)
    requires Unit(u) && n > 0
    ensures k < n
  {
    ScaleDown(u, n as real);
    (u * n as real).Floor
  }

  /** `random.randint(1, length - 1)`. */
  function CutPoint(u: real, length: nat): (point: nat)
    requires Unit(u) && length >= 2
    ensures 1 <= point <= length - 1
  {
    1 + ChoiceIndex(u, length - 1)
  }

  /** The draws one pass of lines 113-116 consumes. */
  datatype PairDraws = PairDraws(
    select1: real,       // select_parent for parent1
    select2: real,       // select_parent for parent2
    coin: real,          // recombine or copy
    cut: real,           // the crossover point, used only when recombining
    flips1: seq<real>,   // one draw per gene of offspring1
    flips2: seq<real>)   // one draw per gene of offspring2

  /**
   Draws the random module can produce for one pair. A crossover point can only
   be drawn for genomes of two or more genes: `randint(1, 0)` raises.
   */
  predicate ValidPairDraws(d: PairDraws, cfg: Config) {
    && Unit(d.select1)
    && Unit(d.select2)
    && Unit(d.cut)
    && |d.flips1| == |cfg.items|
    && |d.flips2| == |cfg.items|
    && (d.coin < cfg.crossoverRate ==> |cfg.items| >= 2)
  }

  /**
   Draws for a run of generations: each generation has one set of pair draws
   per pair of children, `POPULATION_SIZE // 2` of them, each valid.
   */
  predicate DrawsFit(draws: seq<seq<PairDraws>>, cfg: Config) {
    && (forall g :: 0 <= g < |draws| ==> |draws[g]| == cfg.populationSize / 2)
    && (forall g, d :: 0 <= g < |draws| && d in draws[g] ==> ValidPairDraws(d, cfg))
  }

  /** The draws left after some generations still fit. */
  lemma DrawsFitSuffix(draws: seq<seq<PairDraws>>, cfg: Config, k: nat)
    requires DrawsFit(draws, cfg) && k <= |draws|
    ensures DrawsFit(draws[k..], cfg)
  {
    assert forall g :: 0 <= g < |draws| - k ==> draws[k..][g] == draws[k + g];
  }

  /** Line 96: the fitness of every genome, in population order. */
  function Evaluate(population: seq<Genome>, cfg: Config): seq<nat> {
    seq(|population|, i requires 0 <= i < |population| => Fitness(population[i], cfg.items, cfg.maxWeight))
  }

  /**
   select_parent with one draw: the draw scaled to a pick in [0, total], or to
   a uniform index when the total is 0. The wheel never runs past its end, and
   with a positive total and draw it never stops on a zero-fitness genome.
   */
  function Pick(fitness: seq<nat>, u: real): (k: nat)
    requires |fitness| > 0 && Unit(u)
    ensures k < |fitness|
    ensures Total(fitness) > 0 && u > 0.0 ==> fitness[k] > 0
  {
    var pick := UniformPick(u, Total(fitness));
    var k := SelectParent(fitness, pick, ChoiceIndex(u, |fitness|)).value;
    assert Total(fitness) > 0 && u > 0.0 ==> fitness[k] > 0 by {
      if Total(fitness) > 0 && u > 0.0 {
        RouletteSkipsZeroFitness(fitness, pick, ChoiceIndex(u, |fitness|));
      }
    }
    k
  }

  /**
   Line 115 with the pair's draws: the cut point is drawn only when the coin
   falls below the crossover rate.
   */
  function Cross(parent1: Genome, parent2: Genome, cfg: Config, d: PairDraws): (offspring: (Genome, Genome))
    requires |parent1| == |parent2| == |cfg.items|
    requires ValidPairDraws(d, cfg)
    ensures |offspring.0| == |cfg.items| && |offspring.1| == |cfg.items|
  {
    var point := if d.coin < cfg.crossoverRate then CutPoint(d.cut, |cfg.items|) else 0;
    Crossover(parent1, parent2, cfg.crossoverRate, d.coin, point)
  }

  /**
   Lines 115-116 for two chosen parents: crossover, then mutation of each
   offspring with its own flip draws. Both children have the catalog's length.
   */
  function Breed(parent1: Genome, parent2: Genome, cfg: Config, d: PairDraws): (children: seq<Genome>)
    requires |parent1| == |parent2| == |cfg.items|
    requires ValidPairDraws(d, cfg)
    ensures |children| == 2
    ensures |children[0]| == |cfg.items| && |children[1]| == |cfg.items|
  {
    var offspring := Cross(parent1, parent2, cfg, d);
    [Mutate(offspring.0, cfg.mutationRate, d.flips1), Mutate(offspring.1, cfg.mutationRate, d.flips2)]
  }

  /** Mutating each child again with its own flip draws gives back the crossover's offspring. */
  lemma BreedUndo(parent1: Genome, parent2: Genome, cfg: Config, d: PairDraws)
    requires |parent1| == |parent2| == |cfg.items|
    requires ValidPairDraws(d, cfg)
    ensures var children := Breed(parent1, parent2, cfg, d);
      var offspring := Cross(parent1, parent2, cfg, d);
      && Mutate(children[0], cfg.mutationRate, d.flips1) == offspring.0
      && Mutate(children[1], cfg.mutationRate, d.flips2) == offspring.1
  {
    var offspring := Cross(parent1, parent2, cfg, d);
    MutateTwiceRestores(offspring.0, cfg.mutationRate, d.flips1);
    MutateTwiceRestores(offspring.1, cfg.mutationRate, d.flips2);
  }

  /**
   Undoing each child's own flips (mutating again with the same draws) gives
   the crossover of the two parents: below the crossover rate child 1 has the
   first parent's genes before the cut point and the second parent's from it
   on, child 2 the mirror; otherwise the two parents themselves.
   */
  lemma BreedInherits(parent1: Genome, parent2: Genome, cfg: Config, d: PairDraws)
    requires |parent1| == |parent2| == |cfg.items|
    requires ValidPairDraws(d, cfg)
    ensures var children := Breed(parent1, parent2, cfg, d);
      var unflipped1 := Mutate(children[0], cfg.mutationRate, d.flips1);
      var unflipped2 := Mutate(children[1], cfg.mutationRate, d.flips2);
      && (d.coin < cfg.crossoverRate ==>
            var point := CutPoint(d.cut, |cfg.items|);
            && (forall i :: 0 <= i < |cfg.items| ==> unflipped1[i] == if i < point then parent1[i] else parent2[i])
            && (forall i :: 0 <= i < |cfg.items| ==> unflipped2[i] == if i < point then parent2[i] else parent1[i]))
      && (cfg.crossoverRate <= d.coin ==> unflipped1 == parent1 && unflipped2 == parent2)
  {
    BreedUndo(parent1, parent2, cfg, d);
  }

  /** Lines 113-116: two roulette picks from the population, then breeding them. */
  function BreedPair(population: seq<Genome>, fitness: seq<nat>, cfg: Config, d: PairDraws): (children: seq<Genome>)
    requires |population| == |fitness| > 0
    requires AllOfLength(population, |cfg.items|)
    requires ValidPairDraws(d, cfg)
    ensures |children| == 2
    ensures |children[0]| == |cfg.items| && |children[1]| == |cfg.items|
  {
    Breed(population[Pick(fitness, d.select1)], population[Pick(fitness, d.select2)], cfg, d)
  }

  /**
   The children of one pass of lines 113-116, with their own flips undone,
   are the crossover of the two genomes the wheel picked; with a positive
   total fitness and positive selection draws both picked parents have
   positive fitness.
   */
  lemma BreedPairInherits(population: seq<Genome>, fitness: seq<nat>, cfg: Config, d: PairDraws)
    requires |population| == |fitness| > 0
    requires AllOfLength(population, |cfg.items|)
    requires ValidPairDraws(d, cfg)
    ensures var a, b := Pick(fitness, d.select1), Pick(fitness, d.select2);
      var children := BreedPair(population, fitness, cfg, d);
      var unflipped1 := Mutate(children[0], cfg.mutationRate, d.flips1);
      var unflipped2 := Mutate(children[1], cfg.mutationRate, d.flips2);
      && (Total(fitness) > 0 && d.select1 > 0.0 && d.select2 > 0.0 ==> fitness[a] > 0 && fitness[b] > 0)
      && (d.coin < cfg.crossoverRate ==>
            var point := CutPoint(d.cut, |cfg.items|);
            && (forall i :: 0 <= i < |cfg.items| ==> unflipped1[i] == if i < point then population[a][i] else population[b][i])
            && (forall i :: 0 <= i < |cfg.items| ==> unflipped2[i] == if i < point then population[b][i] else population[a][i]))
      && (cfg.crossoverRate <= d.coin ==> unflipped1 == population[a] && unflipped2 == population[b])
  {
    var a, b := Pick(fitness, d.select1), Pick(fitness, d.select2);
    BreedInherits(population[a], population[b], cfg, d);
  }

  /**
   Lines 110-118: the next population, one pair of children per pair of
   draws, each with the catalog's length.
   */
  function NextPopulation(population: seq<Genome>, fitness: seq<nat>, cfg: Config, draws: seq<PairDraws>): (next: seq<Genome>)
    requires |population| == |fitness| > 0
    requires AllOfLength(population, |cfg.items|)
    requires forall d :: d in draws ==> ValidPairDraws(d, cfg)
    ensures |next| == 2 * |draws|
    ensures AllOfLength(next, |cfg.items|)
    decreases |draws|
  {
    if |draws| == 0 then []
    else
      var pair := BreedPair(population, fitness, cfg, draws[0]);
      var rest := NextPopulation(population, fitness, cfg, draws[1..]);
      AllOfLengthConcat(pair, rest, |cfg.items|);
      pair + rest
  }

  /** `max(values)`. */
  function Max(values: seq<nat>): (m: nat)
    requires |values| > 0
    ensures m in values
    ensures forall i :: 0 <= i < |values| ==> values[i] <= m
  {
    if |values| == 1 then values[0]
    else
      var rest := Max(values[1..]);
      if values[0] >= rest then values[0] else rest
  }

  /** `values.index(v)`: the first position holding v. */
  function IndexOf(values: seq<nat>, v: nat): (k: nat)
    requires v in values
    ensures k < |values| && values[k] == v
    ensures forall j :: 0 <= j < k ==> values[j] != v
  {
    if values[0] == v then 0 else 1 + IndexOf(values[1..], v)
  }

  /** The best-ever fitness, its genome (None until first set) and the stagnation counter. */
  datatype Record = Record(bestFitness: nat, bestGenome: Option<Genome>, counter: nat)

  /**
   Lines 98-105. A generation that strictly beats the best-ever fitness
   replaces the record with its maximum and the earliest genome reaching it,
   and resets the counter; any other generation, a tie included, leaves the
   record and only adds 1 to the counter.
   */
  function UpdateRecord(rec: Record, population: seq<Genome>, fitness: seq<nat>): (next: Record)
    requires |population| == |fitness| > 0
    ensures rec.bestFitness <= next.bestFitness
    ensures forall i :: 0 <= i < |fitness| ==> fitness[i] <= next.bestFitness
    ensures (exists i :: 0 <= i < |fitness| && rec.bestFitness < fitness[i]) ==>
      && next.counter == 0
      && exists k :: 0 <= k < |fitness| && fitness[k] == next.bestFitness
           && next.bestGenome == Some(population[k])
           && forall j :: 0 <= j < k ==> fitness[j] < next.bestFitness
    ensures (forall i :: 0 <= i < |fitness| ==> fitness[i] <= rec.bestFitness) ==>
      next == rec.(counter := rec.counter + 1)
  {
    var currentBest := Max(fitness);
    if currentBest > rec.bestFitness then
      var k := IndexOf(fitness, currentBest);
      Record(currentBest, Some(population[k]), 0)
    else
      rec.(counter := rec.counter + 1)
  }

  /** The best-ever fitness and the stagnation counter, the part of the record a generation's maximum decides. */
  datatype Tally = Tally(best: nat, counter: nat)

  /**
   Lines 99-105 on the tally, given one generation's maximum fitness: a strict
   improvement takes the maximum and resets the counter, anything else adds 1.
   */
  function Step(t: Tally, currentBest: nat): Tally {
    if currentBest > t.best then Tally(currentBest, 0) else Tally(t.best, t.counter + 1)
  }

  /** The tally after generations whose maxima are `bests`, in order. */
  function Track(t: Tally, bests: seq<nat>): Tally
    decreases |bests|
  {
    if |bests| == 0 then t else Track(Step(t, bests[0]), bests[1..])
  }

  /** The first n maxima of `[m] + rest` are m followed by the first n - 1 of `rest`. */
  lemma TrackCons(t: Tally, m: nat, rest: seq<nat>, n: nat)
    requires 1 <= n <= |rest| + 1
    ensures Track(t, ([m] + rest)[..n]) == Track(Step(t, m), rest[..n - 1])
  {
    assert ([m] + rest)[..n][1..] == rest[..n - 1];
  }

  /**
   Prepending one generation to a run that stops at its first stagnant
   generation: if the generation leaves the counter below the limit, the
   longer run still folds to the same tally and still stops only at its end.
   */
  lemma TrackPrepend(start: Tally, m: nat, rest: seq<nat>, final: Tally)
    requires Step(start, m).counter < StagnationLimit
    requires Track(Step(start, m), rest) == final
    requires forall n :: 0 < n < |rest| ==> Track(Step(start, m), rest[..n]).counter < StagnationLimit
    ensures Track(start, [m] + rest) == final
    ensures forall n :: 0 < n < |[m] + rest| ==> Track(start, ([m] + rest)[..n]).counter < StagnationLimit
  {
    assert ([m] + rest)[1..] == rest;
    forall n | 0 < n < |[m] + rest|
      ensures Track(start, ([m] + rest)[..n]).counter < StagnationLimit
    {
      TrackCons(start, m, rest, n);
      if n == 1 {
        assert rest[..0] == [];
      }
    }
  }

  /** A bound on a generation's best and on every later one bounds them all. */
  lemma BoundPrepend(m: nat, rest: seq<nat>, bound: nat)
    requires m <= bound
    requires forall v :: v in rest ==> v <= bound
    ensures forall v :: v in [m] + rest ==> v <= bound
  {
    forall v | v in [m] + rest
      ensures v <= bound
    {
      if v != m {
        assert v in rest;
      }
    }
  }

  /** What a run yields: the final record, each generation's best, the last population. */
  datatype Outcome = Outcome(record: Record, currentBests: seq<nat>, population: seq<Genome>)

  /**
   A record a run can hold: no genome exactly while the best-ever fitness is
   0, and a recorded genome has the catalog's length and scores the recorded
   fitness.
   */
  predicate RecordFits(rec: Record, cfg: Config) {
    && (rec.bestGenome.None? <==> rec.bestFitness == 0)
    && (rec.bestGenome.Some? ==>
          && |rec.bestGenome.value| == |cfg.items|
          && Fitness(rec.bestGenome.value, cfg.items, cfg.maxWeight) == rec.bestFitness)
  }

  /** Every catalog item alone is heavier than the capacity. */
  predicate AllOverweight(cfg: Config) {
    forall i :: 0 <= i < |cfg.items| ==> cfg.items[i].weight > cfg.maxWeight
  }

  /**
   One generation's bookkeeping keeps the record one a run can hold: the new
   best-ever fitness is the old one or the generation's maximum and is at
   least that maximum; the counter grows by at most one, and by exactly one
   when the best-ever fitness stays; and with every item overweight a zero
   record stays zero.
   */
  lemma RecordStep(rec: Record, population: seq<Genome>, cfg: Config)
    requires |population| > 0
    requires AllOfLength(population, |cfg.items|)
    requires RecordFits(rec, cfg)
    ensures var fitness := Evaluate(population, cfg);
      var next := UpdateRecord(rec, population, fitness);
      && RecordFits(next, cfg)
      && Max(fitness) <= next.bestFitness
      && (next.bestFitness == rec.bestFitness || next.bestFitness == Max(fitness))
      && next.counter <= rec.counter + 1
      && (next.bestFitness == rec.bestFitness ==> next.counter == rec.counter + 1)
      && (AllOverweight(cfg) && rec.bestFitness == 0 ==> next.bestFitness == 0)
      && Step(Tally(rec.bestFitness, rec.counter), Max(fitness)) == Tally(next.bestFitness, next.counter)
  {
    var fitness := Evaluate(population, cfg);
    var next := UpdateRecord(rec, population, fitness);
    if AllOverweight(cfg) {
      forall i | 0 <= i < |population|
        ensures fitness[i] == 0
      {
        OverweightItemsScoreZero(population[i], cfg.items, cfg.maxWeight);
      }
    }
  }

  /**
   Lines 95-118 from a given population and record, one generation per row of
   `draws`: evaluate, update the record, stop once the counter reaches the
   stagnation limit, otherwise breed the next population and go on.

   The run never outlasts its draws and ends early only with the counter at
   the limit; the best-ever fitness never drops, bounds every generation's
   best and is either the starting one or one of them; if it never rises the
   counter grew by one per generation; the first generation's best is the
   best of `population`; folding lines 99-105 over the generations' maxima
   gives the final best and counter, and every generation but the last left
   the counter below the limit, so the run stops at the first generation that
   brings it there; and a running population keeps
   `2 * (POPULATION_SIZE // 2)` genomes of the catalog's length.
   */
  function Evolve(cfg: Config, population: seq<Genome>, rec: Record, draws: seq<seq<PairDraws>>): (run: Outcome)
    requires AllOfLength(population, |cfg.items|)
    requires |draws| > 0 ==> |population| > 0
    requires |draws| > 1 ==> cfg.populationSize >= 2
    requires DrawsFit(draws, cfg)
    requires RecordFits(rec, cfg) && rec.counter < StagnationLimit
    ensures |run.currentBests| <= |draws|
    ensures |run.currentBests| < |draws| ==> run.record.counter == StagnationLimit
    ensures run.record.counter <= StagnationLimit
    ensures run.record.counter <= rec.counter + |run.currentBests|
    ensures rec.bestFitness <= run.record.bestFitness
    ensures forall v :: v in run.currentBests ==> v <= run.record.bestFitness
    ensures run.record.bestFitness == rec.bestFitness || run.record.bestFitness in run.currentBests
    ensures run.record.bestFitness == rec.bestFitness ==> run.record.counter == rec.counter + |run.currentBests|
    ensures RecordFits(run.record, cfg)
    ensures AllOverweight(cfg) && rec.bestFitness == 0 ==> run.record.bestFitness == 0
    ensures |draws| > 0 ==>
      |run.currentBests| > 0 && run.currentBests[0] == Max(Evaluate(population, cfg))
    ensures AllOfLength(run.population, |cfg.items|)
    ensures |draws| > 0 && run.record.counter < StagnationLimit ==>
      |run.population| == 2 * (cfg.populationSize / 2)
    ensures Track(Tally(rec.bestFitness, rec.counter), run.currentBests) == Tally(run.record.bestFitness, run.record.counter)
    ensures forall n :: 0 < n < |run.currentBests| ==>
      Track(Tally(rec.bestFitness, rec.counter), run.currentBests[..n]).counter < StagnationLimit
    decreases |draws|
  {
    if |draws| == 0 then Outcome(rec, [], population)
    else
      var fitness := Evaluate(population, cfg);
      var next := UpdateRecord(rec, population, fitness);
      RecordStep(rec, population, cfg);
      if next.counter >= StagnationLimit then
        assert forall v :: v in [Max(fitness)] ==> v <= next.bestFitness;
        assert [Max(fitness)][1..] == [];
        Outcome(next, [Max(fitness)], population)
      else
        DrawsFitSuffix(draws, cfg, 1);
        var rest := Evolve(cfg, NextPopulation(population, fitness, cfg, draws[0]), next, draws[1..]);
        var bests := [Max(fitness)] + rest.currentBests;
        BoundPrepend(Max(fitness), rest.currentBests, rest.record.bestFitness);
        TrackPrepend(Tally(rec.bestFitness, rec.counter), Max(fitness), rest.currentBests,
          Tally(rest.record.bestFitness, rest.record.counter));
        Outcome(rest.record, bests, rest.population)
  }

  /**
   genetic_algorithm up to the final report. `initialBits` are the draws of
   init_population and `draws[g]` those generation g consumes building the
   next population. The outcome holds the final record, the best fitness of
   each generation evaluated and the last population. Line 120 prints every
   entry of `currentBests` except one that triggers the stagnation stop,
   since the loop breaks before printing it.
   */
  function GeneticAlgorithm(cfg: Config, initialBits: seq<Bit>, draws: seq<seq<PairDraws>>): (run: Outcome)
    requires cfg.generations >= 1 ==> cfg.populationSize >= 1
    requires cfg.generations >= 2 ==> cfg.populationSize >= 2
    requires |initialBits| == cfg.populationSize * |cfg.items|
    requires |draws| == cfg.generations
    requires DrawsFit(draws, cfg)
    ensures |run.currentBests| <= cfg.generations
    ensures |run.currentBests| < cfg.generations ==> run.record.counter == StagnationLimit
    ensures run.record.counter <= StagnationLimit && run.record.counter <= |run.currentBests|
    ensures cfg.generations >= 1 ==>
      run.currentBests[0] == Max(Evaluate(InitPopulation(initialBits, cfg.populationSize, |cfg.items|), cfg))
    ensures forall v :: v in run.currentBests ==> v <= run.record.bestFitness
    ensures run.record.bestFitness == 0 || run.record.bestFitness in run.currentBests
    ensures run.record.bestGenome.None? <==> run.record.bestFitness == 0
    ensures run.record.bestGenome.Some? ==>
      && |run.record.bestGenome.value| == |cfg.items|
      && Fitness(run.record.bestGenome.value, cfg.items, cfg.maxWeight) == run.record.bestFitness
      && TotalWeight(run.record.bestGenome.value, cfg.items) <= cfg.maxWeight
    ensures run.record.bestFitness == 0 ==>
      |run.currentBests| == if cfg.generations < StagnationLimit then cfg.generations else StagnationLimit
    ensures AllOverweight(cfg) ==> run.record.bestFitness == 0
    ensures AllOfLength(run.population, |cfg.items|)
    ensures cfg.generations >= 1 && run.record.counter < StagnationLimit ==>
      |run.population| == 2 * (cfg.populationSize / 2)
    ensures Track(Tally(0, 0), run.currentBests) == Tally(run.record.bestFitness, run.record.counter)
    ensures forall n :: 0 < n < |run.currentBests| ==> Track(Tally(0, 0), run.currentBests[..n]).counter < StagnationLimit
  {
    Evolve(cfg, InitPopulation(initialBits, cfg.populationSize, |cfg.items|), Record(0, None, 0), draws)
  }
}
