/** `simulation/src/collector_individual.rs`: the view of a collector that the
    genetic algorithm breeds — its chromosome and, as fitness, the number of
    wastes it collected. */
module CollectorIndividuals {
  import opened Wrappers
  import opened Random
  import Ga
  import Collectors

  datatype CollectorIndividual = CollectorIndividual(fitness: real, chromosome: Ga.Chromosome)

  /** `Individual::create`: a new individual, fitness 0, around the chromosome. */
  function Create(chromosome: Ga.Chromosome): (r: CollectorIndividual)
    ensures r.fitness == 0.0 && r.chromosome == chromosome
  {
    CollectorIndividual(0.0, chromosome)
  }

  /** `Individual::chromosome`. */
  function ChromosomeOf(i: CollectorIndividual): Ga.Chromosome
  {
    i.chromosome
  }

  /** `Individual::fitness`. */
  function Fitness(i: CollectorIndividual): real
  {
    i.fitness
  }

  /** The `Individual` implementation handed to the genetic algorithm. */
  function Ops(): Ga.IndividualOps<CollectorIndividual>
  {
    Ga.IndividualOps(Fitness, ChromosomeOf, Create)
  }

  lemma OpsKeepChromosome()
    ensures Ga.KeepsChromosome(Ops())
  {
  }

  /** `CollectorIndividual::from_collector`: fitness is the number of wastes
      collected, the chromosome is the brain's. */
  function FromCollector(c: Collectors.Collector): (r: CollectorIndividual)
    ensures r.fitness == c.proficiency as real && 0.0 <= r.fitness
    ensures r.chromosome == Collectors.AsChromosome(c)
  {
    CollectorIndividual(c.proficiency as real, Collectors.AsChromosome(c))
  }

  /** `CollectorIndividual::into_collector`. */
  function IntoCollector(i: CollectorIndividual, rng: Rng): (r: Result<(Collectors.Collector, Rng)>)
    ensures r.Ok? <==> Ga.Len(i.chromosome) == 218
    ensures r.Ok? ==> Collectors.Newborn(r.value.0) && FromCollector(r.value.0) == Create(i.chromosome)
  {
    Collectors.FromChromosome(i.chromosome, rng)
  }

  /** Turning a collector into an individual and back keeps its brain and
      clears its score. */
  lemma CollectorRoundTrip(c: Collectors.Collector, rng: Rng)
    requires Collectors.WellFormed(c)
    ensures IntoCollector(FromCollector(c), rng).Ok?
    ensures IntoCollector(FromCollector(c), rng).value.0.brain == c.brain
    ensures IntoCollector(FromCollector(c), rng).value.0.proficiency == 0
  {
    Collectors.ChromosomeRoundTrip(c, rng);
  }
}
