/** `simulation/src/collector.rs`: a waste collector — where it is, where it
    heads, how fast it goes, what it sees and thinks, and how many wastes it
    has collected. */
module Collectors {
  import opened Wrappers
  import opened Random
  import opened Geometry
  import Ga
  import Eyes
  import Brains
  import Nn

  datatype Collector = Collector(
    position: Point,
    rotation: real,
    speed: real,
    eye: Eyes.Eye,
    brain: Brains.Brain,
    proficiency: nat)

  /** The speed every collector starts with. */
  const INITIAL_SPEED: real := 0.002

  /** The draws `Collector::random` takes: one per brain gene, then two for the
      position and one for the rotation. */
  const RANDOM_DRAWS: nat := 221

  /** A collector as the simulation keeps it: the default eye, a brain of that
      eye's topology, and a position in the unit square. */
  predicate WellFormed(c: Collector)
  {
    c.eye == Eyes.Default() && Nn.Shaped(c.brain.nn, Brains.Topology(c.eye)) && InUnitSquare(c.position)
  }

  /** A collector as `Collector::random` makes it: well formed, at the initial
      speed, nothing collected. */
  predicate Newborn(c: Collector)
  {
    WellFormed(c) && c.speed == INITIAL_SPEED && c.proficiency == 0
  }

  /** `Collector::new`: position then rotation drawn from the rng, speed
      0.002, nothing collected yet. */
  function New(eye: Eyes.Eye, brain: Brains.Brain, rng: Rng): (r: (Collector, Rng))
    ensures r.0.eye == eye && r.0.brain == brain
    ensures r.0.speed == INITIAL_SPEED && r.0.proficiency == 0
    ensures InUnitSquare(r.0.position) && 0.0 <= r.0.rotation < 2.0 * PI
    ensures r.1 == Rng(rng.stream, rng.next + 3)
  {
    var position := RandomPoint(rng);
    var rotation := RandomRotation(position.1);
    (Collector(position.0, rotation.0, INITIAL_SPEED, eye, brain, 0), rotation.1)
  }

  /** `Collector::random`: a random brain behind the default eye. */
  function RandomCollector(rng: Rng): (r: (Collector, Rng))
    ensures Newborn(r.0)
    ensures r.1 == Rng(rng.stream, rng.next + RANDOM_DRAWS)
  {
    var eye := Eyes.Default();
    var brain := Brains.RandomBrain(rng, eye);
    Brains.DefaultGenomeLength();
    NewNewborn(brain.0, brain.1);
    New(eye, brain.0, brain.1)
  }

  /** A collector made by `Collector::new` behind the default eye, around a
      brain of that eye's topology, is a newborn. */
  lemma NewNewborn(brain: Brains.Brain, rng: Rng)
    requires Nn.Shaped(brain.nn, Brains.Topology(Eyes.Default()))
    ensures Newborn(New(Eyes.Default(), brain, rng).0)
  {
  }

  /** `Collector::as_chromosome`: the brain's chromosome, the network's
      flattened genes; 218 of them for a collector the simulation keeps. */
  function AsChromosome(c: Collector): (r: Ga.Chromosome)
    ensures r.genes == Nn.Weights(c.brain.nn)
    ensures WellFormed(c) ==> |r.genes| == 218
  {
    Brains.DefaultGenomeLength();
    if WellFormed(c) then
      Nn.WeightsCount(c.brain.nn, Brains.Topology(c.eye));
      Brains.AsChromosome(c.brain)
    else
      Brains.AsChromosome(c.brain)
  }

  /** `Collector::from_chromosome`: a fresh collector around the brain rebuilt
      from the chromosome; a chromosome of the wrong length panics. */
  function FromChromosome(chromosome: Ga.Chromosome, rng: Rng): (r: Result<(Collector, Rng)>)
    ensures r.Ok? <==> Ga.Len(chromosome) == 218
    ensures r.Ok? ==> WellFormed(r.value.0) && AsChromosome(r.value.0) == chromosome
    ensures r.Ok? ==> r.value.0.speed == INITIAL_SPEED && r.value.0.proficiency == 0
    ensures r.Ok? ==> r.value.1 == Rng(rng.stream, rng.next + 3)
  {
    var eye := Eyes.Default();
    Brains.DefaultGenomeLength();
    var brain :- Brains.FromChromosome(chromosome, eye);
    Ok(New(eye, brain, rng))
  }

  /** A collector rebuilt from another's chromosome has the same brain, and
      the same chromosome, and starts afresh. */
  lemma ChromosomeRoundTrip(c: Collector, rng: Rng)
    requires WellFormed(c)
    ensures FromChromosome(AsChromosome(c), rng).Ok?
    ensures FromChromosome(AsChromosome(c), rng).value.0.brain == c.brain
    ensures AsChromosome(FromChromosome(AsChromosome(c), rng).value.0) == AsChromosome(c)
  {
    Brains.ChromosomeRoundTrip(c.brain, c.eye);
  }

  /** `Collector::position`. */
  function Position(c: Collector): Point
  {
    c.position
  }

  /** `Collector::rotation`. */
  function Rotation(c: Collector): real
  {
    c.rotation
  }
}
