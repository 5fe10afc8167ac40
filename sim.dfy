/** `simulation/src/lib.rs`: the simulation loop. Each step lets collectors
    catch nearby wastes, think about what they see, and move; after
    `GENERATION_LENGTH + 1` steps the collectors are bred anew by the genetic
    algorithm, scored by how many wastes they caught. */
module Sim {
  import opened Wrappers
  import opened Random
  import opened Geometry
  import opened Wastes
  import opened Collectors
  import opened Seas
  import Eyes
  import Brains
  import Nn
  import Ga
  import CollectorIndividuals

  const SPEED_MIN: real := 0.001
  const SPEED_MAX: real := 0.005
  const SPEED_ACCEL: real := 0.2
  const ROTATION_ACCEL: real := FRAC_PI_2

  /** Number of steps of a generation. */
  const GENERATION_LENGTH: nat := 2500

  /** A waste this close to a collector is collected. */
  const CATCH_RADIUS: real := 0.01

  /** `GaussianMutation::new(0.01, 0.3)` with roulette-wheel selection and
      uniform crossover. */
  function Algorithm(): (ga: Ga.GeneticAlgorithm)
    ensures ga.mutation == Ga.GaussianMutation(0.01, 0.3)
  {
    Ga.GeneticAlgorithm(Ga.NewGaussianMutation(0.01, 0.3).value)
  }

  /** A collector the simulation can run: well formed and within the speed
      limits. */
  predicate Fit(c: Collector)
  {
    WellFormed(c) && SPEED_MIN <= c.speed <= SPEED_MAX
  }

  predicate AllFit(cs: seq<Collector>)
  {
    forall i :: 0 <= i < |cs| ==> Fit(cs[i])
  }

  predicate AllInSquare(ws: seq<Waste>)
  {
    forall j :: 0 <= j < |ws| ==> InUnitSquare(ws[j].position)
  }

  /** The sea as the simulation keeps it between steps. */
  predicate Steady(sea: Sea)
  {
    |sea.collectors| == COLLECTORS && |sea.wastes| == WASTES &&
    AllFit(sea.collectors) && AllInSquare(sea.wastes)
  }

  /** A fresh collector starts within the speed limits. */
  lemma NewbornFit(c: Collector)
    requires Newborn(c)
    ensures Fit(c)
  {
  }

  /** `Sea::random` makes a sea the simulation can run. */
  lemma RandomSeaSteady(rng: Rng)
    ensures Steady(RandomSea(rng).0)
  {
    var sea := RandomSea(rng).0;
    forall i | 0 <= i < |sea.collectors|
      ensures Fit(sea.collectors[i])
    {
      NewbornFit(sea.collectors[i]);
    }
  }

  // ---------------------------------------------------------------- Collisions

  /** Total number of wastes the collectors have collected. */
  function Total(cs: seq<Collector>): nat
  {
    if |cs| == 0 then 0 else Total(cs[..|cs| - 1]) + cs[|cs| - 1].proficiency
  }

  lemma {:induction false} TotalUpdate(cs: seq<Collector>, i: nat, c: Collector)
    requires i < |cs|
    ensures Total(cs[i := c]) + cs[i].proficiency == Total(cs) + c.proficiency
    decreases |cs|
  {
    if i < |cs| - 1 {
      assert cs[i := c][..|cs| - 1] == cs[..|cs| - 1][i := c];
      TotalUpdate(cs[..|cs| - 1], i, c);
    } else {
      assert cs[i := c][..|cs| - 1] == cs[..|cs| - 1];
    }
  }

  /** Whether a waste at `w` is within reach of a collector at `pos`. */
  predicate Reaches(g: Geometry, pos: Point, w: Waste)
  {
    Distance(g, pos, w.position) <= CATCH_RADIUS
  }

  /** The number of wastes among `wastes[lo..hi]` within reach of `pos`. */
  function Caught(g: Geometry, pos: Point, wastes: seq<Waste>, lo: nat, hi: nat): nat
    requires lo <= hi <= |wastes|
    decreases hi - lo
  {
    if lo == hi then 0
    else (if Reaches(g, pos, wastes[lo]) then 1 else 0) + Caught(g, pos, wastes, lo + 1, hi)
  }

  /** Relocating a waste before `lo` does not change the count from `lo` on. */
  lemma {:induction false} CaughtUpdate(g: Geometry, pos: Point, wastes: seq<Waste>, lo: nat, hi: nat, i: nat, w: Waste)
    requires i < lo <= hi <= |wastes|
    ensures Caught(g, pos, wastes[i := w], lo, hi) == Caught(g, pos, wastes, lo, hi)
    decreases hi - lo
  {
    if lo < hi {
      CaughtUpdate(g, pos, wastes, lo + 1, hi, i, w);
    }
  }

  /** Relocating waste `i` does not change any count that starts after it. */
  lemma CaughtMoved(g: Geometry, pos: Point, wastes: seq<Waste>, lo: nat, i: nat, w: Waste)
    requires i < lo <= |wastes|
    ensures forall k :: lo <= k <= |wastes| ==> Caught(g, pos, wastes[i := w], lo, k) == Caught(g, pos, wastes, lo, k)
  {
    forall k | lo <= k <= |wastes|
      ensures Caught(g, pos, wastes[i := w], lo, k) == Caught(g, pos, wastes, lo, k)
    {
      CaughtUpdate(g, pos, wastes, lo, k, i, w);
    }
  }

  /** The inner loop of `process_collisions` from waste `j` on: each waste
      within reach of collector `c` at the moment it is checked is collected
      and dropped at a fresh random point. The score grows by exactly the
      number of wastes within reach, each catch spends two draws, and nothing
      of the collector but its score changes. */
  function Sweep(g: Geometry, c: Collector, wastes: seq<Waste>, j: nat, rng: Rng): (r: (Collector, seq<Waste>, Rng))
    requires j <= |wastes|
    ensures |r.1| == |wastes|
    ensures r.0 == c.(proficiency := r.0.proficiency)
    ensures r.0.proficiency == c.proficiency + Caught(g, c.position, wastes, j, |wastes|)
    ensures r.2 == Rng(rng.stream, rng.next + 2 * (r.0.proficiency - c.proficiency))
    ensures AllInSquare(wastes) ==> AllInSquare(r.1)
    decreases |wastes| - j
  {
    if j == |wastes| then (c, wastes, rng)
    else if Reaches(g, c.position, wastes[j]) then
      var p := RandomPoint(rng);
      CaughtUpdate(g, c.position, wastes, j + 1, |wastes|, j, Waste(p.0));
      Sweep(g, c.(proficiency := c.proficiency + 1), wastes[j := Waste(p.0)], j + 1, p.1)
    else
      Sweep(g, c, wastes, j + 1, rng)
  }

  /** One waste's turn in the sweep. */
  lemma SweepStep(g: Geometry, c: Collector, wastes: seq<Waste>, j: nat, rng: Rng)
    requires j < |wastes|
    ensures Sweep(g, c, wastes, j, rng) ==
      if Reaches(g, c.position, wastes[j])
      then Sweep(g, c.(proficiency := c.proficiency + 1), wastes[j := Waste(RandomPoint(rng).0)], j + 1, RandomPoint(rng).1)
      else Sweep(g, c, wastes, j + 1, rng)
  {
  }

  /** The sweep leaves in place the wastes before `j` and those out of reach. */
  lemma {:induction false} SweepKeeps(g: Geometry, c: Collector, wastes: seq<Waste>, j: nat, rng: Rng)
    requires j <= |wastes|
    ensures forall k :: 0 <= k < |wastes| && (k < j || !Reaches(g, c.position, wastes[k])) ==>
      Sweep(g, c, wastes, j, rng).1[k] == wastes[k]
    decreases |wastes| - j
  {
    if j < |wastes| {
      if Reaches(g, c.position, wastes[j]) {
        var p := RandomPoint(rng);
        SweepKeeps(g, c.(proficiency := c.proficiency + 1), wastes[j := Waste(p.0)], j + 1, p.1);
      } else {
        SweepKeeps(g, c, wastes, j + 1, rng);
      }
    }
  }

  /** The waste `Waste::random` makes from draws `2n` and `2n + 1` of `rng`. */
  function DrawnWaste(rng: Rng, n: nat): Waste
  {
    RandomWaste(Rng(rng.stream, rng.next + 2 * n)).0
  }

  lemma DrawnWasteShift(rng: Rng, n: nat)
    ensures DrawnWaste(RandomPoint(rng).1, n) == DrawnWaste(rng, n + 1)
    ensures DrawnWaste(rng, 0) == Waste(RandomPoint(rng).0)
  {
  }

  /** The sweep drops the n-th waste it catches (counting from 0) on the point
      of draws `2n` and `2n + 1`. */
  lemma {:induction false} SweepRelocates(g: Geometry, c: Collector, wastes: seq<Waste>, j: nat, rng: Rng)
    requires j <= |wastes|
    ensures forall k :: j <= k < |wastes| && Reaches(g, c.position, wastes[k]) ==>
      Sweep(g, c, wastes, j, rng).1[k] == DrawnWaste(rng, Caught(g, c.position, wastes, j, k))
    decreases |wastes| - j
  {
    if j < |wastes| {
      if Reaches(g, c.position, wastes[j]) {
        var p := RandomPoint(rng);
        var moved := wastes[j := Waste(p.0)];
        var c' := c.(proficiency := c.proficiency + 1);
        var r := Sweep(g, c', moved, j + 1, p.1);
        assert Sweep(g, c, wastes, j, rng) == r;
        SweepRelocates(g, c', moved, j + 1, p.1);
        SweepKeeps(g, c', moved, j + 1, p.1);
        CaughtMoved(g, c.position, wastes, j + 1, j, Waste(p.0));
        forall k | j <= k < |wastes| && Reaches(g, c.position, wastes[k])
          ensures r.1[k] == DrawnWaste(rng, Caught(g, c.position, wastes, j, k))
        {
          if k == j {
            DrawnWasteShift(rng, 0);
            assert r.1[k] == moved[j];
          } else {
            assert moved[k] == wastes[k];
            DrawnWasteShift(rng, Caught(g, c.position, moved, j + 1, k));
          }
        }
      } else {
        SweepRelocates(g, c, wastes, j + 1, rng);
      }
    }
  }

  /** `process_collisions` from collector `i` on. Collectors only gain score,
      and the wastes relocated — two draws each — are exactly the score
      gained in total. */
  function Collide(g: Geometry, cs: seq<Collector>, wastes: seq<Waste>, i: nat, rng: Rng): (r: (seq<Collector>, seq<Waste>, Rng))
    requires i <= |cs|
    ensures |r.0| == |cs| && |r.1| == |wastes|
    ensures forall k :: 0 <= k < |cs| ==> r.0[k] == cs[k].(proficiency := r.0[k].proficiency) && cs[k].proficiency <= r.0[k].proficiency
    ensures Total(cs) <= Total(r.0)
    ensures r.2 == Rng(rng.stream, rng.next + 2 * (Total(r.0) - Total(cs)))
    ensures AllInSquare(wastes) ==> AllInSquare(r.1)
    decreases |cs| - i
  {
    if i == |cs| then (cs, wastes, rng)
    else
      var s := Sweep(g, cs[i], wastes, 0, rng);
      TotalUpdate(cs, i, s.0);
      Collide(g, cs[i := s.0], s.1, i + 1, s.2)
  }

  /** Collectors before `i` are left alone. */
  lemma {:induction false} CollideEarlier(g: Geometry, cs: seq<Collector>, wastes: seq<Waste>, i: nat, rng: Rng)
    requires i <= |cs|
    ensures forall k :: 0 <= k < i ==> Collide(g, cs, wastes, i, rng).0[k] == cs[k]
    decreases |cs| - i
  {
    if i < |cs| {
      var s := Sweep(g, cs[i], wastes, 0, rng);
      CollideEarlier(g, cs[i := s.0], s.1, i + 1, s.2);
    }
  }

  /** Collector `i` gains exactly the number of wastes within its reach when
      its turn comes. */
  lemma CollideFirst(g: Geometry, cs: seq<Collector>, wastes: seq<Waste>, i: nat, rng: Rng)
    requires i <= |cs|
    ensures i < |cs| ==>
      Collide(g, cs, wastes, i, rng).0[i].proficiency == cs[i].proficiency + Caught(g, cs[i].position, wastes, 0, |wastes|)
  {
    if i < |cs| {
      var s := Sweep(g, cs[i], wastes, 0, rng);
      CollideEarlier(g, cs[i := s.0], s.1, i + 1, s.2);
      assert Collide(g, cs, wastes, i, rng) == Collide(g, cs[i := s.0], s.1, i + 1, s.2);
    }
  }

  /** No collector from `i` on can reach a waste at `w`. */
  predicate OutOfReach(g: Geometry, cs: seq<Collector>, i: nat, w: Waste)
  {
    forall k :: i <= k < |cs| ==> !Reaches(g, cs[k].position, w)
  }

  /** A waste no collector from `i` on can reach stays where it is. */
  lemma {:induction false} CollideUntouched(g: Geometry, cs: seq<Collector>, wastes: seq<Waste>, i: nat, rng: Rng)
    requires i <= |cs|
    ensures forall j :: 0 <= j < |wastes| && OutOfReach(g, cs, i, wastes[j]) ==> Collide(g, cs, wastes, i, rng).1[j] == wastes[j]
    decreases |cs| - i
  {
    if i < |cs| {
      var s := Sweep(g, cs[i], wastes, 0, rng);
      SweepKeeps(g, cs[i], wastes, 0, rng);
      CollideUntouched(g, cs[i := s.0], s.1, i + 1, s.2);
      forall j | 0 <= j < |wastes| && OutOfReach(g, cs, i, wastes[j])
        ensures s.1[j] == wastes[j] && OutOfReach(g, cs[i := s.0], i + 1, s.1[j])
      {
        assert !Reaches(g, cs[i].position, wastes[j]);
      }
    }
  }

  /** Collisions keep the sea as the simulation keeps it. */
  lemma CollideSteady(g: Geometry, sea: Sea, rng: Rng)
    requires Steady(sea)
    ensures var r := Collide(g, sea.collectors, sea.wastes, 0, rng); Steady(Sea(r.0, r.1))
  {
    var r := Collide(g, sea.collectors, sea.wastes, 0, rng);
    forall k | 0 <= k < |r.0|
      ensures Fit(r.0[k])
    {
      assert Fit(sea.collectors[k]);
    }
  }

  // ---------------------------------------------------------------- Brains

  /** One pass of the loop of `process_brains`: the collector looks at the
      wastes, its network answers, and the two outputs, clamped, nudge its
      speed (then clamped to the limits) and its rotation. */
  function Think(g: Geometry, c: Collector, wastes: seq<Waste>): (r: Collector)
    requires WellFormed(c)
    ensures r == c.(speed := r.speed, rotation := r.rotation)
    ensures SPEED_MIN <= r.speed <= SPEED_MAX
    ensures c.rotation <= r.rotation <= c.rotation + ROTATION_ACCEL
    ensures SPEED_MIN <= c.speed <= SPEED_MAX ==> c.speed <= r.speed <= c.speed + SPEED_ACCEL
  {
    var vision := Eyes.Vision(g, c.eye, c.position, c.rotation, wastes);
    Nn.PropagateShaped(c.brain.nn, Brains.Topology(c.eye), vision);
    var response := Nn.Propagate(c.brain.nn, vision);
    var speed := Clamp(response[0], -SPEED_ACCEL, SPEED_ACCEL);
    var rotation := Clamp(response[1], -ROTATION_ACCEL, ROTATION_ACCEL);
    c.(speed := Clamp(c.speed + speed, SPEED_MIN, SPEED_MAX), rotation := c.rotation + rotation)
  }

  // ---------------------------------------------------------------- Movements

  /** One pass of the loop of `process_movements`: a step of length `speed`
      along the heading, each coordinate wrapped back into [0, 1]. */
  function Move(g: Geometry, c: Collector): (r: Collector)
    ensures r == c.(position := r.position)
    ensures InUnitSquare(r.position)
  {
    var p := Add(c.position, Rotate(g, c.rotation, Point(0.0, c.speed)));
    c.(position := Point(Wrap(p.x, 0.0, 1.0), Wrap(p.y, 0.0, 1.0)))
  }

  // ---------------------------------------------------------------- Evolution

  /** The individuals the genetic algorithm sees. */
  function Population(cs: seq<Collector>): (p: seq<CollectorIndividuals.CollectorIndividual>)
    ensures |p| == |cs|
    ensures forall i :: 0 <= i < |cs| ==> p[i] == CollectorIndividuals.FromCollector(cs[i])
  {
    seq(|cs|, i requires 0 <= i < |cs| => CollectorIndividuals.FromCollector(cs[i]))
  }

  /** The fitness values handed to the genetic algorithm: the scores. */
  function Scores(cs: seq<Collector>): (f: seq<real>)
    ensures |f| == |cs|
    ensures forall i :: 0 <= i < |cs| ==> f[i] == cs[i].proficiency as real
  {
    Ga.Fitnesses(CollectorIndividuals.Ops(), Population(cs))
  }

  /** An individual whose chromosome a collector can be rebuilt from. */
  predicate Viable(i: CollectorIndividuals.CollectorIndividual)
  {
    Ga.Len(i.chromosome) == 218
  }

  predicate AllViable(individuals: seq<CollectorIndividuals.CollectorIndividual>)
  {
    forall i :: 0 <= i < |individuals| ==> Viable(individuals[i])
  }

  /** `cs` are fresh collectors carrying, in order, the individuals'
      chromosomes. */
  predicate Hatched(cs: seq<Collector>, individuals: seq<CollectorIndividuals.CollectorIndividual>)
  {
    |cs| == |individuals| &&
    forall i :: 0 <= i < |cs| ==> Newborn(cs[i]) && AsChromosome(cs[i]) == individuals[i].chromosome
  }

  lemma HatchedCons(c: Collector, cs: seq<Collector>, individuals: seq<CollectorIndividuals.CollectorIndividual>)
    requires 0 < |individuals| && Newborn(c) && AsChromosome(c) == individuals[0].chromosome
    requires Hatched(cs, individuals[1..])
    ensures Hatched([c] + cs, individuals)
  {
    forall i | 0 < i < |individuals|
      ensures ([c] + cs)[i] == cs[i - 1] && individuals[i] == individuals[1..][i - 1]
    {
    }
  }

  /** `evolved_population.into_iter().map(|i| i.into_collector(rng))`: a
      fresh collector per individual, in order, each spending its draws after
      the previous one, and each carrying its individual's chromosome. A
      chromosome of another length would panic; bred children never have one
      (`ChildrenLength`). */
  function Hatch(individuals: seq<CollectorIndividuals.CollectorIndividual>, rng: Rng): (r: (seq<Collector>, Rng))
    requires AllViable(individuals)
    ensures Hatched(r.0, individuals)
    decreases |individuals|
  {
    if |individuals| == 0 then ([], rng)
    else
      assert Viable(individuals[0]);
      var first := CollectorIndividuals.IntoCollector(individuals[0], rng).value;
      var rest := Hatch(individuals[1..], first.1);
      HatchedCons(first.0, rest.0, individuals);
      ([first.0] + rest.0, rest.1)
  }

  /** Restarting the wastes draws one point per waste, in order: the same
      draws `Sea::random` spends on its wastes. */
  lemma {:induction false} RandomWastesSnoc(rng: Rng, n: nat)
    ensures RandomWastes(rng, n + 1).0 == RandomWastes(rng, n).0 + [RandomWaste(RandomWastes(rng, n).1).0]
    ensures RandomWastes(rng, n + 1).1 == RandomWaste(RandomWastes(rng, n).1).1
    decreases n
  {
    if 0 < n {
      RandomWastesSnoc(RandomWaste(rng).1, n - 1);
    }
  }

  /** The score total is positive exactly when some collector scored. */
  lemma {:induction false} SumPositive(f: seq<real>)
    requires forall i :: 0 <= i < |f| ==> 0.0 <= f[i]
    ensures 0.0 <= Ga.Sum(f)
    ensures 0.0 < Ga.Sum(f) <==> exists i :: 0 <= i < |f| && 0.0 < f[i]
    decreases |f|
  {
    if 0 < |f| {
      var init := f[..|f| - 1];
      SumPositive(init);
      if exists i :: 0 <= i < |init| && 0.0 < init[i] {
        var i :| 0 <= i < |init| && 0.0 < init[i];
        assert 0.0 < f[i];
      }
      if exists i :: 0 <= i < |f| && 0.0 < f[i] {
        var i :| 0 <= i < |f| && 0.0 < f[i];
        if i < |f| - 1 {
          assert 0.0 < init[i];
        }
      }
    }
  }

  /** The genetic algorithm accepts the collectors' scores exactly when at
      least one collector caught a waste: with every score at zero the
      roulette wheel cannot be weighed and `evolve` panics. */
  lemma WeighableScores(cs: seq<Collector>)
    requires 0 < |cs|
    ensures Ga.Weighable(Scores(cs)) <==> exists i :: 0 <= i < |cs| && 0 < cs[i].proficiency
  {
    var f := Scores(cs);
    SumPositive(f);
    if exists i :: 0 <= i < |cs| && 0 < cs[i].proficiency {
      var i :| 0 <= i < |cs| && 0 < cs[i].proficiency;
      assert 0.0 < f[i];
    }
    if exists i :: 0 <= i < |f| && 0.0 < f[i] {
      var i :| 0 <= i < |f| && 0.0 < f[i];
      assert 0 < cs[i].proficiency;
    }
  }

  /** Every brain of well-formed collectors has a 218-gene chromosome. */
  lemma PopulationLength(cs: seq<Collector>)
    requires forall i :: 0 <= i < |cs| ==> WellFormed(cs[i])
    ensures Ga.SameLength(CollectorIndividuals.Ops(), Population(cs), 218)
  {
    forall i | 0 <= i < |cs|
      ensures Ga.Len(CollectorIndividuals.Ops().chromosome(Population(cs)[i])) == 218
    {
      Nn.WeightsCount(cs[i].brain.nn, Brains.Topology(cs[i].eye));
      Brains.DefaultGenomeLength();
    }
  }

  /** Every individual bred from 218-gene parents has a 218-gene chromosome. */
  lemma ChildrenLength(rng: Rng, cs: seq<Collector>)
    requires forall i :: 0 <= i < |cs| ==> WellFormed(cs[i])
    requires Ga.Evolve(Algorithm(), CollectorIndividuals.Ops(), rng, Population(cs)).Ok?
    ensures AllViable(Ga.Evolve(Algorithm(), CollectorIndividuals.Ops(), rng, Population(cs)).value.0)
  {
    var ops := CollectorIndividuals.Ops();
    var population := Population(cs);
    var children := Ga.Evolve(Algorithm(), ops, rng, population).value.0;
    PopulationLength(cs);
    CollectorIndividuals.OpsKeepChromosome();
    Ga.EvolveDescends(Algorithm(), ops, rng, population);
    forall k | 0 <= k < |cs|
      ensures Viable(children[k])
    {
      assert Ga.HasParents(ops, Algorithm().mutation, ops.chromosome(children[k]), population);
      var a, b :| 0 <= a < |population| && 0 <= b < |population| &&
        Ga.Parents(ops, Algorithm().mutation, ops.chromosome(children[k]), population[a], population[b]);
      assert Ga.Len(ops.chromosome(population[a])) == 218;
    }
  }

  // ---------------------------------------------------------------- A step, as values

  /** `process_brains` over every collector, against the same wastes. */
  function ThinkAll(g: Geometry, cs: seq<Collector>, wastes: seq<Waste>): (r: seq<Collector>)
    requires forall i :: 0 <= i < |cs| ==> WellFormed(cs[i])
    ensures |r| == |cs|
    ensures forall i :: 0 <= i < |cs| ==> r[i] == Think(g, cs[i], wastes)
  {
    seq(|cs|, i requires 0 <= i < |cs| => Think(g, cs[i], wastes))
  }

  /** `process_movements` over every collector. */
  function MoveAll(g: Geometry, cs: seq<Collector>): (r: seq<Collector>)
    ensures |r| == |cs|
    ensures forall i :: 0 <= i < |cs| ==> r[i] == Move(g, cs[i])
  {
    seq(|cs|, i requires 0 <= i < |cs| => Move(g, cs[i]))
  }

  /** Thinking and moving keep collectors fit, and change neither their eye,
      their brain nor their score. */
  lemma ThinkMoveFit(g: Geometry, cs: seq<Collector>, wastes: seq<Waste>)
    requires AllFit(cs)
    ensures var r := MoveAll(g, ThinkAll(g, cs, wastes));
      AllFit(r) &&
      forall i :: 0 <= i < |cs| ==> r[i].eye == cs[i].eye && r[i].brain == cs[i].brain && r[i].proficiency == cs[i].proficiency
  {
    var r := MoveAll(g, ThinkAll(g, cs, wastes));
    forall i | 0 <= i < |cs|
      ensures Fit(r[i]) && r[i].eye == cs[i].eye && r[i].brain == cs[i].brain && r[i].proficiency == cs[i].proficiency
    {
      assert Fit(cs[i]);
      assert r[i] == Move(g, Think(g, cs[i], wastes));
    }
  }

  /** What `step` does before the age check: collisions, brains, movements.
      The sea stays as the simulation keeps it. */
  function Tick(g: Geometry, sea: Sea, rng: Rng): (r: (Sea, Rng))
    requires Steady(sea)
    ensures Steady(r.0)
  {
    var collided := Collide(g, sea.collectors, sea.wastes, 0, rng);
    CollideSteady(g, sea, rng);
    ThinkMoveFit(g, collided.0, collided.1);
    (Sea(MoveAll(g, ThinkAll(g, collided.0, collided.1)), collided.1), collided.2)
  }

  /** `n` ticks in a row. */
  function Ticks(g: Geometry, sea: Sea, rng: Rng, n: nat): (r: (Sea, Rng))
    requires Steady(sea)
    ensures Steady(r.0)
  {
    if n == 0 then (sea, rng)
    else
      var before := Ticks(g, sea, rng, n - 1);
      Tick(g, before.0, before.1)
  }

  /** One more tick after `n`. */
  lemma TicksNext(g: Geometry, sea: Sea, rng: Rng, n: nat)
    requires Steady(sea)
    ensures Ticks(g, sea, rng, n + 1) == Tick(g, Ticks(g, sea, rng, n).0, Ticks(g, sea, rng, n).1)
  {
  }

  /** Over a tick every collector keeps its eye and its brain, scores only
      grow, and the draws spent are two per waste collected. */
  lemma TickScores(g: Geometry, sea: Sea, rng: Rng)
    requires Steady(sea)
    ensures var r := Tick(g, sea, rng);
      (forall i :: 0 <= i < |sea.collectors| ==>
        r.0.collectors[i].eye == sea.collectors[i].eye && r.0.collectors[i].brain == sea.collectors[i].brain &&
        sea.collectors[i].proficiency <= r.0.collectors[i].proficiency) &&
      Total(sea.collectors) <= Total(r.0.collectors) &&
      r.1 == Rng(rng.stream, rng.next + 2 * (Total(r.0.collectors) - Total(sea.collectors)))
  {
    var collided := Collide(g, sea.collectors, sea.wastes, 0, rng);
    CollideSteady(g, sea, rng);
    ThinkMoveFit(g, collided.0, collided.1);
    var moved := MoveAll(g, ThinkAll(g, collided.0, collided.1));
    TotalTick(collided.0, moved);
  }

  /** Scores only change in collisions. */
  lemma {:induction false} TotalTick(before: seq<Collector>, after: seq<Collector>)
    requires |before| == |after|
    requires forall i :: 0 <= i < |before| ==> after[i].proficiency == before[i].proficiency
    ensures Total(after) == Total(before)
    decreases |before|
  {
    if 0 < |before| {
      TotalTick(before[..|before| - 1], after[..|after| - 1]);
    }
  }

  /** The second half of `evolve`: the bred individuals hatched into fresh
      collectors, in order, then `wastes` wastes dropped at fresh random
      points. Each collector carries its individual's chromosome. */
  function Renew(children: seq<CollectorIndividuals.CollectorIndividual>, rng: Rng, wastes: nat): (r: (Sea, Rng))
    requires AllViable(children)
    ensures |r.0.collectors| == |children| && |r.0.wastes| == wastes
    ensures forall i :: 0 <= i < |children| ==>
      Newborn(r.0.collectors[i]) && AsChromosome(r.0.collectors[i]) == children[i].chromosome
    ensures AllFit(r.0.collectors) && AllInSquare(r.0.wastes)
  {
    var hatched := Hatch(children, rng);
    var scattered := RandomWastes(hatched.1, wastes);
    (Sea(hatched.0, scattered.0), scattered.1)
  }

  /** What `evolve` does: the collectors are scored, bred by the genetic
      algorithm and renewed; the statistics are those of the scores. */
  function Regenerate(sea: Sea, rng: Rng): (r: Result<(Sea, Ga.Statistics, Rng)>)
    requires Steady(sea)
    ensures r.Ok? ==> Steady(r.value.0) && r.value.1 == Ga.StatisticsOf(Scores(sea.collectors))
  {
    var evolved :- Ga.Evolve(Algorithm(), CollectorIndividuals.Ops(), rng, Population(sea.collectors));
    ChildrenLength(rng, sea.collectors);
    var renewed := Renew(evolved.0, evolved.2, |sea.wastes|);
    Ok((renewed.0, evolved.1, renewed.1))
  }

  /** `evolve` panics exactly when every collector's score is zero. */
  lemma RegenerateOk(sea: Sea, rng: Rng)
    requires Steady(sea)
    ensures Regenerate(sea, rng).Ok? <==> exists i :: 0 <= i < |sea.collectors| && 0 < sea.collectors[i].proficiency
  {
    PopulationLength(sea.collectors);
    WeighableScores(sea.collectors);
    Ga.EvolveSucceeds(Algorithm(), CollectorIndividuals.Ops(), rng, Population(sea.collectors), 218);
  }

  /** The last step of a generation: a tick, then `evolve`. It fails exactly
      when no collector has scored by the end of the tick; otherwise the new
      sea is steady and the statistics are the scores the tick left. */
  function LastTick(g: Geometry, sea: Sea, rng: Rng): (r: Result<(Sea, Ga.Statistics, Rng)>)
    requires Steady(sea)
    ensures var t := Tick(g, sea, rng).0;
      r.Ok? <==> exists i :: 0 <= i < |t.collectors| && 0 < t.collectors[i].proficiency
    ensures r.Ok? ==> Steady(r.value.0) && r.value.1 == Ga.StatisticsOf(Scores(Tick(g, sea, rng).0.collectors))
  {
    var t := Tick(g, sea, rng);
    RegenerateOk(t.0, t.1);
    Regenerate(t.0, t.1)
  }

  /** The new generation is one fresh collector per child the genetic
      algorithm bred, carrying that child's chromosome. */
  lemma RegenerateHatches(sea: Sea, rng: Rng)
    requires Steady(sea) && Regenerate(sea, rng).Ok?
    ensures var children := Ga.Evolve(Algorithm(), CollectorIndividuals.Ops(), rng, Population(sea.collectors)).value.0;
      |children| == COLLECTORS &&
      forall k :: 0 <= k < COLLECTORS ==>
        Newborn(Regenerate(sea, rng).value.0.collectors[k]) &&
        AsChromosome(Regenerate(sea, rng).value.0.collectors[k]) == children[k].chromosome
  {
    var evolved := Ga.Evolve(Algorithm(), CollectorIndividuals.Ops(), rng, Population(sea.collectors)).value;
    RegenerateRenews(sea, rng);
    var renewed := Renew(evolved.0, evolved.2, |sea.wastes|);
  }

  /** The sea `evolve` leaves is `Renew` of the children it bred. */
  lemma RegenerateRenews(sea: Sea, rng: Rng)
    requires Steady(sea) && Regenerate(sea, rng).Ok?
    ensures var evolved := Ga.Evolve(Algorithm(), CollectorIndividuals.Ops(), rng, Population(sea.collectors)).value;
      AllViable(evolved.0) && Regenerate(sea, rng).value.0 == Renew(evolved.0, evolved.2, |sea.wastes|).0
  {
    ChildrenLength(rng, sea.collectors);
  }

  /** Each collector of the new generation is a fresh collector carrying the
      chromosome of a child the genetic algorithm bred from two collectors of
      the old one. */
  lemma RegenerateDescends(sea: Sea, rng: Rng)
    requires Steady(sea) && Regenerate(sea, rng).Ok?
    ensures forall k :: 0 <= k < COLLECTORS ==>
      Newborn(Regenerate(sea, rng).value.0.collectors[k]) &&
      Ga.HasParents(CollectorIndividuals.Ops(), Algorithm().mutation,
        AsChromosome(Regenerate(sea, rng).value.0.collectors[k]), Population(sea.collectors))
  {
    RegenerateHatches(sea, rng);
    CollectorIndividuals.OpsKeepChromosome();
    Ga.EvolveDescends(Algorithm(), CollectorIndividuals.Ops(), rng, Population(sea.collectors));
  }

  // ---------------------------------------------------------------- The simulation

  /** `Simulation`: the sea, the genetic algorithm, and the number of steps
      taken in the current generation. */
  class Simulation {
    var sea: Sea
    const ga: Ga.GeneticAlgorithm
    var age: nat

    /** Between steps: within a generation, the fixed algorithm, a steady sea. */
    ghost predicate Valid()
      reads this
    {
      age <= GENERATION_LENGTH && ga == Algorithm() && Steady(sea)
    }

    /** The struct literal `Self { sea, ga, age: 0 }`. */
    constructor (sea: Sea, ga: Ga.GeneticAlgorithm)
      ensures this.sea == sea && this.ga == ga && age == 0
    {
      this.sea := sea;
      this.ga := ga;
      age := 0;
    }

    /** `Simulation::random`: a first sea is drawn and thrown away, then the
        sea the simulation keeps is drawn after it. */
    static method Random(rng: Rng) returns (sim: Simulation, rng': Rng)
      ensures fresh(sim) && sim.Valid() && sim.age == 0
      ensures (sim.sea, rng') == RandomSea(RandomSea(rng).1)
    {
      var discarded := RandomSea(rng);
      var kept := RandomSea(discarded.1);
      RandomSeaSteady(discarded.1);
      sim := new Simulation(kept.0, Algorithm());
      rng' := kept.1;
    }

    /** `process_collisions`: each collector in turn sweeps every waste. */
    method ProcessCollisions(g: Geometry, rng: Rng) returns (rng': Rng)
      requires Valid()
      modifies this
      ensures Valid() && age == old(age)
      ensures (sea.collectors, sea.wastes, rng') == Collide(g, old(sea.collectors), old(sea.wastes), 0, rng)
    {
      rng' := rng;
      for i := 0 to |sea.collectors|
        invariant |sea.collectors| == |old(sea.collectors)| && age == old(age)
        invariant Collide(g, sea.collectors, sea.wastes, i, rng') == Collide(g, old(sea.collectors), old(sea.wastes), 0, rng)
      {
        rng' := SweepWith(g, i, rng');
      }
      CollideSteady(g, old(sea), rng);
    }

    /** The inner loop of `process_collisions`: collector `i` checks every
        waste in turn. The loop works on the borrowed collector and wastes,
        which are written back to the sea when it ends. */
    method SweepWith(g: Geometry, i: nat, rng: Rng) returns (rng': Rng)
      requires i < |sea.collectors|
      modifies this
      ensures age == old(age)
      ensures var s := Sweep(g, old(sea.collectors)[i], old(sea.wastes), 0, rng);
        sea.collectors == old(sea.collectors)[i := s.0] && sea.wastes == s.1 && rng' == s.2
    {
      var collector, wastes := sea.collectors[i], sea.wastes;
      rng' := rng;
      for j := 0 to |wastes|
        invariant |wastes| == |sea.wastes|
        invariant Sweep(g, collector, wastes, j, rng') == Sweep(g, sea.collectors[i], sea.wastes, 0, rng)
        modifies {}
      {
        SweepStep(g, collector, wastes, j, rng');
        if Reaches(g, collector.position, wastes[j]) {
          var drawn := RandomPoint(rng');
          rng' := drawn.1;
          collector := collector.(proficiency := collector.proficiency + 1);
          wastes := wastes[j := Waste(drawn.0)];
        }
      }
      sea := sea.(collectors := sea.collectors[i := collector], wastes := wastes);
    }

    /** `process_brains`: each collector looks, thinks, and adjusts its speed
        and rotation. */
    method ProcessBrains(g: Geometry)
      requires Valid()
      modifies this
      ensures Valid() && age == old(age)
      ensures sea == old(sea).(collectors := ThinkAll(g, old(sea.collectors), old(sea.wastes)))
    {
      for i := 0 to |sea.collectors|
        invariant |sea.collectors| == |old(sea.collectors)| && sea.wastes == old(sea.wastes) && age == old(age)
        invariant forall k :: 0 <= k < i ==> sea.collectors[k] == Think(g, old(sea.collectors)[k], sea.wastes)
        invariant forall k :: i <= k < |sea.collectors| ==> sea.collectors[k] == old(sea.collectors)[k]
      {
        var collector := sea.collectors[i];
        var vision := Eyes.ProcessVision(g, collector.eye, collector.position, collector.rotation, sea.wastes);
        Nn.PropagateShaped(collector.brain.nn, Brains.Topology(collector.eye), vision);
        var response := Nn.Propagate(collector.brain.nn, vision);
        var speed := Clamp(response[0], -SPEED_ACCEL, SPEED_ACCEL);
        var rotation := Clamp(response[1], -ROTATION_ACCEL, ROTATION_ACCEL);
        collector := collector.(speed := Clamp(collector.speed + speed, SPEED_MIN, SPEED_MAX),
                                rotation := collector.rotation + rotation);
        sea := sea.(collectors := sea.collectors[i := collector]);
      }
    }

    /** `process_movements`: each collector steps forward and wraps around. */
    method ProcessMovements(g: Geometry)
      requires Valid()
      modifies this
      ensures Valid() && age == old(age)
      ensures sea == old(sea).(collectors := MoveAll(g, old(sea.collectors)))
    {
      for i := 0 to |sea.collectors|
        invariant |sea.collectors| == |old(sea.collectors)| && sea.wastes == old(sea.wastes) && age == old(age)
        invariant forall k :: 0 <= k < i ==> sea.collectors[k] == Move(g, old(sea.collectors)[k])
        invariant forall k :: i <= k < |sea.collectors| ==> sea.collectors[k] == old(sea.collectors)[k]
      {
        var collector := sea.collectors[i];
        var p := Add(collector.position, Rotate(g, collector.rotation, Point(0.0, collector.speed)));
        collector := collector.(position := Point(Wrap(p.x, 0.0, 1.0), Wrap(p.y, 0.0, 1.0)));
        sea := sea.(collectors := sea.collectors[i := collector]);
      }
    }

    /** `evolve`: the age restarts, the collectors are replaced by the bred
        generation, and the wastes are scattered anew in place. */
    method Evolve(rng: Rng) returns (r: Result<Ga.Statistics>, rng': Rng)
      requires ga == Algorithm() && Steady(sea)
      modifies this
      ensures age == 0
      ensures r.Ok? <==> Regenerate(old(sea), rng).Ok?
      ensures r.Ok? ==> Valid() && (sea, r.value, rng') == Regenerate(old(sea), rng).value
      ensures r.Err? ==> r.error == Regenerate(old(sea), rng).error
    {
      age := 0;
      var current := Population(sea.collectors);
      var evolved := Ga.Evolve(ga, CollectorIndividuals.Ops(), rng, current);
      if evolved.Err? {
        return Err(evolved.error), rng;
      }
      ChildrenLength(rng, sea.collectors);
      var hatched := Hatch(evolved.value.0, evolved.value.2);
      sea := sea.(collectors := hatched.0);
      rng' := RestartWastes(hatched.1);
      r := Ok(evolved.value.1);
    }

    /** The loop of `evolve` that restarts the wastes: each is dropped, in
        place, at a fresh random point. */
    method RestartWastes(rng: Rng) returns (rng': Rng)
      modifies this
      ensures sea.collectors == old(sea.collectors) && age == old(age)
      ensures (sea.wastes, rng') == RandomWastes(rng, |old(sea.wastes)|)
    {
      rng' := rng;
      for j := 0 to |sea.wastes|
        invariant |sea.wastes| == |old(sea.wastes)| && sea.collectors == old(sea.collectors) && age == old(age)
        invariant sea.wastes[..j] == RandomWastes(rng, j).0 && rng' == RandomWastes(rng, j).1
      {
        RandomWastesSnoc(rng, j);
        var drawn := RandomPoint(rng');
        rng' := drawn.1;
        sea := sea.(wastes := sea.wastes[j := Waste(drawn.0)]);
        assert sea.wastes[..j + 1] == sea.wastes[..j] + [Waste(drawn.0)];
      }
      assert sea.wastes == sea.wastes[..|sea.wastes|];
    }

    /** `step`: one tick; the step that takes the age past the generation
        length also evolves and reports the statistics. */
    method Step(g: Geometry, rng: Rng) returns (r: Result<Option<Ga.Statistics>>, rng': Rng)
      requires Valid()
      modifies this
      ensures r.Ok? ==> Valid()
      ensures old(age) < GENERATION_LENGTH ==>
        r == Ok(None) && age == old(age) + 1 && (sea, rng') == Tick(g, old(sea), rng)
      ensures old(age) == GENERATION_LENGTH ==> age == 0
      ensures old(age) == GENERATION_LENGTH ==> (r.Ok? <==> LastTick(g, old(sea), rng).Ok?)
      ensures old(age) == GENERATION_LENGTH && r.Ok? ==>
        var last := LastTick(g, old(sea), rng).value;
        r.value == Some(last.1) && sea == last.0 && rng' == last.2
      ensures r.Err? ==> old(age) == GENERATION_LENGTH && r.error == LastTick(g, old(sea), rng).error
    {
      rng' := ProcessCollisions(g, rng);
      ProcessBrains(g);
      ProcessMovements(g);
      age := age + 1;
      if age > GENERATION_LENGTH {
        var stats;
        stats, rng' := Evolve(rng');
        if stats.Err? {
          return Err(stats.error), rng';
        }
        r := Ok(Some(stats.value));
      } else {
        r := Ok(None);
      }
    }

    /** `train`: steps until the generation ends, then reports its
        statistics; that takes `GENERATION_LENGTH + 1 - age` steps. The last
        step starts from the sea and generator that the ticks before it
        left, and what `train` reports is what that step produced. */
    method Train(g: Geometry, rng: Rng) returns (r: Result<Ga.Statistics>, rng': Rng, ghost steps: nat, ghost lastSea: Sea, ghost lastRng: Rng)
      requires Valid()
      modifies this
      ensures r.Ok? ==> Valid() && age == 0
      ensures steps == GENERATION_LENGTH + 1 - old(age)
      ensures Steady(old(sea)) && (lastSea, lastRng) == Ticks(g, old(sea), rng, GENERATION_LENGTH - old(age))
      ensures r.Ok? <==> LastTick(g, lastSea, lastRng).Ok?
      ensures r.Ok? ==> var last := LastTick(g, lastSea, lastRng).value;
        r.value == last.1 && sea == last.0 && rng' == last.2
      ensures r.Err? ==> r.error == LastTick(g, lastSea, lastRng).error
    {
      rng' := rng;
      steps := 0;
      lastSea, lastRng := sea, rng;
      while true
        invariant Valid() && age == old(age) + steps
        invariant Steady(old(sea)) && (sea, rng') == Ticks(g, old(sea), rng, steps)
        decreases GENERATION_LENGTH - age
      {
        lastSea, lastRng := sea, rng';
        var out;
        out, rng' := Step(g, rng');
        steps := steps + 1;
        if out.Err? {
          return Err(out.error), rng', steps, lastSea, lastRng;
        }
        if out.value.Some? {
          return Ok(out.value.value), rng', steps, lastSea, lastRng;
        }
        TicksNext(g, old(sea), rng, steps - 1);
      }
    }
  }
}
