/** The genetic-algorithm library (`lib_genetic_algorithm`, imported by the
    simulation as `ga`): chromosomes, roulette-wheel selection, uniform
    crossover, Gaussian-style mutation, population statistics and the
    `evolve` pipeline that ties them together. */
module Ga {
  import opened Wrappers
  import opened Random
  import opened Geometry

  // ---------------------------------------------------------------- Chromosome

  /** A genome: the flat sequence of network weights. */
  datatype Chromosome = Chromosome(genes: seq<real>)

  /** `Chromosome::len`. */
  function Len(c: Chromosome): nat
  {
    |c.genes|
  }

  /** `Index<usize> for Chromosome`. */
  function Index(c: Chromosome, i: nat): real
    requires i < Len(c)
  {
    c.genes[i]
  }

  /** `FromIterator<f32> for Chromosome`. */
  function FromIter(genes: seq<real>): Chromosome
  {
    Chromosome(genes)
  }

  /** `IntoIterator for Chromosome`. */
  function IntoIter(c: Chromosome): seq<real>
  {
    c.genes
  }

  /** Collecting genes into a chromosome and iterating it back gives the same
      genes, in order, and `len`/`index` agree with them. */
  lemma ChromosomeIterRoundTrip(genes: seq<real>)
    ensures IntoIter(FromIter(genes)) == genes
    ensures Len(FromIter(genes)) == |genes|
    ensures forall i :: 0 <= i < |genes| ==> Index(FromIter(genes), i) == genes[i]
    ensures forall c: Chromosome :: FromIter(IntoIter(c)) == c
  {
  }

  // ---------------------------------------------------------------- Individuals

  /** The `Individual` trait as a dictionary of its three operations. */
  datatype IndividualOps<!I> = IndividualOps(
    fitness: I -> real,
    chromosome: I -> Chromosome,
    create: Chromosome -> I)

  function Fitnesses<I>(ops: IndividualOps<I>, population: seq<I>): (f: seq<real>)
    ensures |f| == |population|
    ensures forall i :: 0 <= i < |population| ==> f[i] == ops.fitness(population[i])
  {
    seq(|population|, i requires 0 <= i < |population| => ops.fitness(population[i]))
  }

  // ---------------------------------------------------------------- Statistics

  datatype Statistics = Statistics(minFitness: real, maxFitness: real, avgFitness: real)

  /** Sum of the values, accumulated from the front. */
  function Sum(f: seq<real>): real
    decreases |f|
  {
    if |f| == 0 then 0.0 else Sum(f[..|f| - 1]) + f[|f| - 1]
  }

  /** Running `f32::min` over the values, from the front. */
  function Smallest(f: seq<real>): real
    requires |f| > 0
    decreases |f|
  {
    if |f| == 1 then f[0] else Min(Smallest(f[..|f| - 1]), f[|f| - 1])
  }

  /** Running `f32::max` over the values, from the front. */
  function Largest(f: seq<real>): real
    requires |f| > 0
    decreases |f|
  {
    if |f| == 1 then f[0] else Max(Largest(f[..|f| - 1]), f[|f| - 1])
  }

  /** What `Statistics::new` computes for these fitness values. */
  function StatisticsOf(f: seq<real>): Statistics
    requires |f| > 0
  {
    Statistics(Smallest(f), Largest(f), Sum(f) / |f| as real)
  }

  /** `Statistics::new`: one pass over the population keeping the running
      minimum, maximum and sum; the average is the sum over the count. */
  method NewStatistics<I>(ops: IndividualOps<I>, population: seq<I>) returns (s: Statistics)
    requires |population| > 0
    ensures s == StatisticsOf(Fitnesses(ops, population))
  {
    ghost var f := Fitnesses(ops, population);
    var minFitness := ops.fitness(population[0]);
    var maxFitness := minFitness;
    var sumFitness := 0.0;
    for i := 0 to |population|
      invariant i == 0 ==> minFitness == f[0] && maxFitness == f[0]
      invariant 0 < i ==> minFitness == Smallest(f[..i]) && maxFitness == Largest(f[..i])
      invariant sumFitness == Sum(f[..i])
    {
      assert f[..i + 1][..i] == f[..i];
      var fitness := ops.fitness(population[i]);
      minFitness := Min(minFitness, fitness);
      maxFitness := Max(maxFitness, fitness);
      sumFitness := sumFitness + fitness;
    }
    assert f[..|population|] == f;
    s := Statistics(minFitness, maxFitness, sumFitness / |population| as real);
  }

  /** The minimum and maximum bound every value and are attained. */
  lemma {:induction false} ExtremesBound(f: seq<real>)
    requires |f| > 0
    ensures forall i :: 0 <= i < |f| ==> Smallest(f) <= f[i] <= Largest(f)
    ensures exists i :: 0 <= i < |f| && f[i] == Smallest(f)
    ensures exists j :: 0 <= j < |f| && f[j] == Largest(f)
    decreases |f|
  {
    if |f| == 1 {
      assert f[0] == Smallest(f) == Largest(f);
    } else {
      var p := f[..|f| - 1];
      var last := f[|f| - 1];
      ExtremesBound(p);
      assert Smallest(f) == Min(Smallest(p), last);
      assert Largest(f) == Max(Largest(p), last);
      var i :| 0 <= i < |p| && p[i] == Smallest(p);
      var j :| 0 <= j < |p| && p[j] == Largest(p);
      assert p[i] == f[i] && p[j] == f[j];
      forall k | 0 <= k < |f|
        ensures Smallest(f) <= f[k] <= Largest(f)
      {
        if k < |p| {
          assert p[k] == f[k];
        }
      }
      if last < Smallest(p) {
        assert f[|f| - 1] == Smallest(f);
      } else {
        assert f[i] == Smallest(f);
      }
      if last > Largest(p) {
        assert f[|f| - 1] == Largest(f);
      } else {
        assert f[j] == Largest(f);
      }
    }
  }

  lemma ScaleMonotone(c: real, a: real, b: real)
    requires 0.0 <= c && a <= b
    ensures c * a <= c * b
  {
    assert c * b - c * a == c * (b - a);
  }

  /** `(m + 1) * x == m * x + x`. */
  lemma ScaleSucc(m: real, x: real)
    ensures (m + 1.0) * x == m * x + x
  {
  }

  /** The sum is at least count times the minimum. */
  lemma {:induction false} SumAboveSmallest(f: seq<real>)
    requires |f| > 0
    ensures |f| as real * Smallest(f) <= Sum(f)
    decreases |f|
  {
    if |f| == 1 {
      assert f[..0] == [];
    } else {
      var p := f[..|f| - 1];
      var m := |p| as real;
      var lo := Smallest(f);
      SumAboveSmallest(p);
      assert lo == Min(Smallest(p), f[|f| - 1]);
      ScaleMonotone(m, lo, Smallest(p));
      ScaleSucc(m, lo);
      assert Sum(f) == Sum(p) + f[|f| - 1];
      assert |f| as real == m + 1.0;
    }
  }

  /** The sum is at most count times the maximum. */
  lemma {:induction false} SumBelowLargest(f: seq<real>)
    requires |f| > 0
    ensures Sum(f) <= |f| as real * Largest(f)
    decreases |f|
  {
    if |f| == 1 {
      assert f[..0] == [];
    } else {
      var p := f[..|f| - 1];
      var m := |p| as real;
      var hi := Largest(f);
      SumBelowLargest(p);
      assert hi == Max(Largest(p), f[|f| - 1]);
      ScaleMonotone(m, Largest(p), hi);
      ScaleSucc(m, hi);
      assert Sum(f) == Sum(p) + f[|f| - 1];
      assert |f| as real == m + 1.0;
    }
  }

  /** The sum lies between count times the minimum and count times the maximum. */
  lemma SumBetweenExtremes(f: seq<real>)
    requires |f| > 0
    ensures |f| as real * Smallest(f) <= Sum(f) <= |f| as real * Largest(f)
  {
    SumAboveSmallest(f);
    SumBelowLargest(f);
  }


  lemma DivideBetween(s: real, n: real, lo: real, hi: real)
    requires 0.0 < n && n * lo <= s <= n * hi
    ensures lo <= s / n <= hi
  {
    assert s / n * n == s;
  }

  /** `Statistics::new`'s result: min <= every fitness <= max, the extremes are
      attained, and the average (sum over count) lies between them. */
  lemma StatisticsBounds(f: seq<real>)
    requires |f| > 0
    ensures forall i :: 0 <= i < |f| ==> StatisticsOf(f).minFitness <= f[i] <= StatisticsOf(f).maxFitness
    ensures exists i :: 0 <= i < |f| && f[i] == StatisticsOf(f).minFitness
    ensures exists j :: 0 <= j < |f| && f[j] == StatisticsOf(f).maxFitness
    ensures StatisticsOf(f).minFitness <= StatisticsOf(f).avgFitness <= StatisticsOf(f).maxFitness
  {
    ExtremesBound(f);
    SumBetweenExtremes(f);
    DivideBetween(Sum(f), |f| as real, Smallest(f), Largest(f));
  }

  // ---------------------------------------------------------------- Selection

  /** Whether `choose_weighted` can build its weighted index: rand refuses an
      empty slice, a negative weight and an all-zero total. */
  predicate Weighable(w: seq<real>)
  {
    |w| > 0 && (forall i :: 0 <= i < |w| ==> 0.0 <= w[i]) && Sum(w) > 0.0
  }

  /** The roulette wheel: the first index whose running total passes `target`. */
  function Spin(w: seq<real>, target: real, i: nat): (k: nat)
    requires i < |w| && Sum(w[..i]) <= target < Sum(w)
    requires forall j :: 0 <= j < |w| ==> 0.0 <= w[j]
    ensures i <= k < |w|
    ensures Sum(w[..k]) <= target < Sum(w[..k + 1])
    decreases |w| - i
  {
    if i + 1 == |w| then
      assert w[..i + 1] == w;
      i
    else if target < Sum(w[..i + 1]) then i
    else Spin(w, target, i + 1)
  }

  /** The wheel never stops on a zero weight. */
  lemma SpinPositive(w: seq<real>, target: real, i: nat)
    requires i < |w| && Sum(w[..i]) <= target < Sum(w)
    requires forall j :: 0 <= j < |w| ==> 0.0 <= w[j]
    ensures 0.0 < w[Spin(w, target, i)]
  {
    var k := Spin(w, target, i);
    assert w[..k + 1][..k] == w[..k];
  }

  lemma ScaleBelow(u: real, s: real)
    requires 0.0 <= u < 1.0 && 0.0 < s
    ensures 0.0 <= u * s < s
  {
    assert s - u * s == (1.0 - u) * s;
  }

  /** The wheel spun to the fraction `u` of the total weight. */
  function Wheel(w: seq<real>, u: Unit): (k: nat)
    requires Weighable(w)
    ensures k < |w| && 0.0 < w[k]
  {
    ScaleBelow(u, Sum(w));
    assert w[..0] == [];
    SpinPositive(w, u * Sum(w), 0);
    Spin(w, u * Sum(w), 0)
  }

  /** `RouletteWheelSelection::select`: the index of the chosen individual
      (the source returns a reference to it). One draw spins the wheel;
      `expect` turns any refusal of `choose_weighted` into a panic. */
  function Select<I>(ops: IndividualOps<I>, rng: Rng, population: seq<I>): (r: Result<(nat, Rng)>)
    ensures r.Ok? <==> Weighable(Fitnesses(ops, population))
    ensures r.Ok? ==> r.value.0 < |population| && 0.0 < ops.fitness(population[r.value.0])
    ensures r.Ok? ==> r.value.1 == Rng(rng.stream, rng.next + 1)
  {
    var w := Fitnesses(ops, population);
    if !Weighable(w) then Err("got an empty population")
    else
      var u := Gen(rng);
      Ok((Wheel(w, u.0), u.1))
  }

  // ---------------------------------------------------------------- Crossover

  /** Per gene, a fair coin picks parent A's or parent B's gene. */
  function Mix(rng: Rng, a: seq<real>, b: seq<real>): (r: (seq<real>, Rng))
    requires |a| == |b|
    ensures |r.0| == |a|
    ensures forall i :: 0 <= i < |a| ==> r.0[i] == a[i] || r.0[i] == b[i]
    ensures r.1 == Rng(rng.stream, rng.next + |a|)
    decreases |a|
  {
    if |a| == 0 then ([], rng)
    else
      var coin := GenBool(rng, 0.5);
      var rest := Mix(coin.1, a[1..], b[1..]);
      ([if coin.0 then a[0] else b[0]] + rest.0, rest.1)
  }

  /** `UniformCrossover::crossover`: `assert_eq!` on the parents' lengths,
      then a gene-by-gene coin toss. */
  function Crossover(rng: Rng, parentA: Chromosome, parentB: Chromosome): (r: Result<(Chromosome, Rng)>)
    ensures r.Ok? <==> Len(parentA) == Len(parentB)
    ensures r.Ok? ==> Len(r.value.0) == Len(parentA)
    ensures r.Ok? ==> forall i :: 0 <= i < Len(parentA) ==>
      r.value.0.genes[i] == parentA.genes[i] || r.value.0.genes[i] == parentB.genes[i]
  {
    if Len(parentA) != Len(parentB) then Err("assertion failed: parent_a.len() == parent_b.len()")
    else
      var mixed := Mix(rng, IntoIter(parentA), IntoIter(parentB));
      Ok((FromIter(mixed.0), mixed.1))
  }

  // ---------------------------------------------------------------- Mutation

  datatype GaussianMutation = GaussianMutation(chance: real, coeff: real)

  /** `GaussianMutation::new`: the chance must be a probability. */
  function NewGaussianMutation(chance: real, coeff: real): (r: Option<GaussianMutation>)
    ensures r.Some? <==> 0.0 <= chance <= 1.0
    ensures r.Some? ==> r.value.chance == chance && r.value.coeff == coeff
  {
    if 0.0 <= chance <= 1.0 then Some(GaussianMutation(chance, coeff)) else None
  }

  /** `x` lies within `bound` of `y`. */
  predicate Near(x: real, y: real, bound: real)
  {
    Abs(x - y) <= bound
  }

  /** The amount a mutated gene moves by. */
  function Shift(sign: real, coeff: real, u: real): real
  {
    sign * coeff * u
  }

  /** A shift `sign * coeff * u` with sign +-1 and u in [0, 1) is at most |coeff|. */
  lemma ShiftBound(sign: real, coeff: real, u: real, gene: real)
    requires (sign == 1.0 || sign == -1.0) && 0.0 <= u < 1.0
    ensures Near(gene + Shift(sign, coeff, u), gene, Abs(coeff))
  {
    var shift := sign * coeff * u;
    assert (gene + Shift(sign, coeff, u)) - gene == shift;
    assert Abs(shift) == Abs(coeff) * u;
    ScaleMonotone(Abs(coeff), u, 1.0);
    assert Abs(coeff) * u <= Abs(coeff);
  }

  /** One gene's turn in `mutate`: a coin for the sign, a coin with the
      mutation chance, and when that comes up a draw `r` in [0, 1) for the
      shift `sign * coeff * r`. */
  function MutateGene(m: GaussianMutation, rng: Rng, gene: real): (r: (real, Rng))
    ensures Near(r.0, gene, Abs(m.coeff))
    ensures r.1.stream == rng.stream && (r.1.next == rng.next + 2 || r.1.next == rng.next + 3)
    ensures r.1.next == rng.next + 3 <==> rng.stream(rng.next + 1) < m.chance
    ensures r.1.next == rng.next + 2 ==> r.0 == gene
    ensures r.1.next == rng.next + 3 ==>
      exists sign, u :: (sign == 1.0 || sign == -1.0) && 0.0 <= u < 1.0 && r.0 == gene + Shift(sign, m.coeff, u)
  {
    var negative := GenBool(rng, 0.5);
    var sign := if negative.0 then -1.0 else 1.0;
    var mutate := GenBool(negative.1, m.chance);
    if mutate.0 then
      var u := Gen(mutate.1);
      ShiftBound(sign, m.coeff, u.0, gene);
      (gene + Shift(sign, m.coeff, u.0), u.1)
    else
      (gene, mutate.1)
  }

  /** Mutation of the genes from index `i` on, gene by gene in order. */
  function MutateFrom(m: GaussianMutation, genes: seq<real>, i: nat, rng: Rng): (seq<real>, Rng)
    requires i <= |genes|
    decreases |genes| - i
  {
    if i == |genes| then (genes, rng)
    else
      var mutated := MutateGene(m, rng, genes[i]);
      MutateFrom(m, genes[i := mutated.0], i + 1, mutated.1)
  }

  lemma MutateFromStep(m: GaussianMutation, genes: seq<real>, i: nat, rng: Rng)
    requires i < |genes|
    ensures MutateFrom(m, genes, i, rng) ==
      MutateFrom(m, genes[i := MutateGene(m, rng, genes[i]).0], i + 1, MutateGene(m, rng, genes[i]).1)
  {
  }

  /** What `GaussianMutation::mutate` does to a whole chromosome. */
  function Mutated(m: GaussianMutation, rng: Rng, c: Chromosome): (Chromosome, Rng)
  {
    var mutated := MutateFrom(m, c.genes, 0, rng);
    (Chromosome(mutated.0), mutated.1)
  }

  /** `GaussianMutation::mutate`, in place on the genes. */
  method Mutate(m: GaussianMutation, rng: Rng, child: array<real>) returns (rng': Rng)
    modifies child
    ensures (child[..], rng') == MutateFrom(m, old(child[..]), 0, rng)
  {
    rng' := rng;
    for i := 0 to child.Length
      invariant MutateFrom(m, child[..], i, rng') == MutateFrom(m, old(child[..]), 0, rng)
    {
      ghost var before, drawn := child[..], rng';
      var negative := GenBool(rng', 0.5);
      var sign := if negative.0 then -1.0 else 1.0;
      var mutate := GenBool(negative.1, m.chance);
      rng' := mutate.1;
      if mutate.0 {
        var u := Gen(rng');
        child[i] := child[i] + Shift(sign, m.coeff, u.0);
        rng' := u.1;
      }
      assert (child[i], rng') == MutateGene(m, drawn, before[i]);
      assert child[..] == before[i := child[i]];
      MutateFromStep(m, before, i, drawn);
    }
  }

  /** Mutation keeps the length; genes before `i` are untouched and every other
      gene moves by at most |coeff|. */
  lemma {:induction false} MutateFromBound(m: GaussianMutation, genes: seq<real>, i: nat, rng: Rng)
    requires i <= |genes|
    ensures |MutateFrom(m, genes, i, rng).0| == |genes|
    ensures forall k :: 0 <= k < i ==> MutateFrom(m, genes, i, rng).0[k] == genes[k]
    ensures forall k :: i <= k < |genes| ==> Near(MutateFrom(m, genes, i, rng).0[k], genes[k], Abs(m.coeff))
    ensures MutateFrom(m, genes, i, rng).1.stream == rng.stream
    decreases |genes| - i
  {
    if i < |genes| {
      var mutated := MutateGene(m, rng, genes[i]);
      MutateFromBound(m, genes[i := mutated.0], i + 1, mutated.1);
    }
  }

  /** A mutated chromosome has the same length and each gene is within
      |coeff| of where it was. */
  lemma MutationBound(m: GaussianMutation, rng: Rng, c: Chromosome)
    ensures Len(Mutated(m, rng, c).0) == Len(c)
    ensures forall k :: 0 <= k < Len(c) ==> Near(Mutated(m, rng, c).0.genes[k], c.genes[k], Abs(m.coeff))
  {
    MutateFromBound(m, c.genes, 0, rng);
  }

  // ---------------------------------------------------------------- Evolution

  /** The configured operators; selection is always the roulette wheel and
      crossover always uniform. */
  datatype GeneticAlgorithm = GeneticAlgorithm(mutation: GaussianMutation)

  /** Every gene of `child` is within `bound` of parent A's or parent B's gene
      at the same index. */
  predicate Descends(child: seq<real>, a: seq<real>, b: seq<real>, bound: real)
  {
    |child| == |a| == |b| &&
    forall k :: 0 <= k < |child| ==> Near(child[k], a[k], bound) || Near(child[k], b[k], bound)
  }

  /** `child` comes from parents `a` and `b`: both had positive fitness and it
      descends from their genes within the mutation coefficient. */
  predicate Parents<I>(ops: IndividualOps<I>, m: GaussianMutation, child: Chromosome, a: I, b: I)
  {
    0.0 < ops.fitness(a) && 0.0 < ops.fitness(b) &&
    Descends(child.genes, ops.chromosome(a).genes, ops.chromosome(b).genes, Abs(m.coeff))
  }

  /** Some two members of the population are parents of `child`. */
  ghost predicate HasParents<I>(ops: IndividualOps<I>, m: GaussianMutation, child: Chromosome, population: seq<I>)
  {
    exists i, j :: 0 <= i < |population| && 0 <= j < |population| && Parents(ops, m, child, population[i], population[j])
  }

  /** One child of `evolve`: select, select, crossover, mutate. The child
      descends from the two selected parents. */
  function Breed<I>(ga: GeneticAlgorithm, ops: IndividualOps<I>, rng: Rng, population: seq<I>): (r: Result<(Chromosome, Rng)>)
    ensures r.Ok? ==> HasParents(ops, ga.mutation, r.value.0, population)
  {
    var a :- Select(ops, rng, population);
    // the population was weighable for the first draw, so the second cannot fail
    var b := Select(ops, a.1, population).value;
    var child :- Crossover(b.1, ops.chromosome(population[a.0]), ops.chromosome(population[b.0]));
    MutationBound(ga.mutation, child.1, child.0);
    assert Parents(ops, ga.mutation, Mutated(ga.mutation, child.1, child.0).0, population[a.0], population[b.0]);
    Ok(Mutated(ga.mutation, child.1, child.0))
  }

  lemma AppendParents<I>(ops: IndividualOps<I>, m: GaussianMutation, population: seq<I>, kids: seq<Chromosome>, child: Chromosome)
    requires forall k :: 0 <= k < |kids| ==> HasParents(ops, m, kids[k], population)
    requires HasParents(ops, m, child, population)
    ensures forall k :: 0 <= k < |kids| + 1 ==> HasParents(ops, m, (kids + [child])[k], population)
  {
    forall k | 0 <= k < |kids| + 1
      ensures HasParents(ops, m, (kids + [child])[k], population)
    {
      if k < |kids| {
        assert (kids + [child])[k] == kids[k];
      }
    }
  }

  /** The first `n` children of `evolve`, bred in order; each descends from
      two positive-fitness members of the population. */
  function Offspring<I>(ga: GeneticAlgorithm, ops: IndividualOps<I>, rng: Rng, population: seq<I>, n: nat): (r: Result<(seq<Chromosome>, Rng)>)
    ensures r.Ok? ==> |r.value.0| == n
    ensures r.Ok? ==> forall k :: 0 <= k < n ==> HasParents(ops, ga.mutation, r.value.0[k], population)
    decreases n
  {
    if n == 0 then Ok(([], rng))
    else
      var earlier :- Offspring(ga, ops, rng, population, n - 1);
      var child :- Breed(ga, ops, earlier.1, population);
      AppendParents(ops, ga.mutation, population, earlier.0, child.0);
      Ok((earlier.0 + [child.0], child.1))
  }

  /** `GeneticAlgorithm::evolve`: as many children as parents, each made by
      `I::create`, and the statistics of the population that was passed in. */
  function Evolve<I>(ga: GeneticAlgorithm, ops: IndividualOps<I>, rng: Rng, population: seq<I>): (r: Result<(seq<I>, Statistics, Rng)>)
    ensures |population| == 0 ==> r.Err?
    ensures r.Ok? ==> |r.value.0| == |population|
    ensures r.Ok? ==> r.value.1 == StatisticsOf(Fitnesses(ops, population))
  {
    if |population| == 0 then Err("assertion failed: !population.is_empty()")
    else
      var kids :- Offspring(ga, ops, rng, population, |population|);
      var children := seq(|kids.0|, i requires 0 <= i < |kids.0| => ops.create(kids.0[i]));
      Ok((children, StatisticsOf(Fitnesses(ops, population)), kids.1))
  }

  /** The `Individual` implementation hands back the chromosome it was created from. */
  ghost predicate KeepsChromosome<I>(ops: IndividualOps<I>)
  {
    forall c :: ops.chromosome(ops.create(c)) == c
  }

  /** Each child of `evolve` descends, gene by gene within the mutation
      coefficient, from two members of the population that had positive fitness. */
  lemma EvolveDescends<I>(ga: GeneticAlgorithm, ops: IndividualOps<I>, rng: Rng, population: seq<I>)
    requires KeepsChromosome(ops)
    requires Evolve(ga, ops, rng, population).Ok?
    ensures forall k :: 0 <= k < |population| ==>
      HasParents(ops, ga.mutation, ops.chromosome(Evolve(ga, ops, rng, population).value.0[k]), population)
  {
    var kids := Offspring(ga, ops, rng, population, |population|).value;
    forall k | 0 <= k < |population|
      ensures ops.chromosome(Evolve(ga, ops, rng, population).value.0[k]) == kids.0[k]
    {
    }
  }

  /** All chromosomes of the population have length `n`. */
  predicate SameLength<I>(ops: IndividualOps<I>, population: seq<I>, n: nat)
  {
    forall i :: 0 <= i < |population| ==> Len(ops.chromosome(population[i])) == n
  }

  /** Breeding fails only when selection does; with equal-length
      chromosomes, it succeeds whenever selection can. */
  lemma BreedSucceeds<I>(ga: GeneticAlgorithm, ops: IndividualOps<I>, rng: Rng, population: seq<I>, n: nat)
    requires SameLength(ops, population, n)
    ensures Breed(ga, ops, rng, population).Ok? <==> Weighable(Fitnesses(ops, population))
  {
  }

  /** `evolve` succeeds exactly when the fitness values can weigh a roulette
      wheel (provided every chromosome has the same length). */
  lemma {:induction false} OffspringSucceeds<I>(ga: GeneticAlgorithm, ops: IndividualOps<I>, rng: Rng, population: seq<I>, n: nat, len: nat)
    requires SameLength(ops, population, len) && 0 < n
    ensures Offspring(ga, ops, rng, population, n).Ok? <==> Weighable(Fitnesses(ops, population))
    decreases n
  {
    if n > 1 {
      OffspringSucceeds(ga, ops, rng, population, n - 1, len);
      if Offspring(ga, ops, rng, population, n - 1).Ok? {
        BreedSucceeds(ga, ops, Offspring(ga, ops, rng, population, n - 1).value.1, population, len);
      }
    } else {
      BreedSucceeds(ga, ops, rng, population, len);
    }
  }

  lemma EvolveSucceeds<I>(ga: GeneticAlgorithm, ops: IndividualOps<I>, rng: Rng, population: seq<I>, len: nat)
    requires SameLength(ops, population, len)
    ensures Evolve(ga, ops, rng, population).Ok? <==> Weighable(Fitnesses(ops, population))
  {
    if |population| > 0 {
      OffspringSucceeds(ga, ops, rng, population, |population|, len);
    }
  }
}
