# GeneticAlgo evolution engine, modelled in Dafny

This project models the engine behind GeneticAlgo, a simulation of waste collectors that learn to clean up a square sea. It covers three libraries.

**The genetic-algorithm library** (`Ga`):
- chromosomes;
- roulette-wheel selection;
- uniform crossover;
- Gaussian-style mutation, which updates the genes in place in an array;
- population statistics, a loop;
- `evolve`, which ties these together.

**The neural-network library** (`Nn`):
- a layered ReLU network and its propagation;
- random construction;
- the flat genome encoding. `weights` emits each neuron's bias before its weights. `from_weights` reads the genes back through a shared cursor, modelled as an index that each neuron advances.

**The simulation library**:
- the eye (`Eyes`), which bins the wastes it sees into angular sectors;
- the brain (`Brains`);
- collectors (`Collectors`);
- the individual the genetic algorithm breeds (`CollectorIndividuals`);
- the sea (`Seas`) and wastes (`Wastes`);
- the `Simulation` itself (`Sim`), a class whose fields `sea` and `age` are updated in place by `step`, `train` and the `process_*` loops.

How the modelling choices are made:
- **Numbers.** Floats are `real` and counters are `nat`.
- **Randomness.** The random generator is an explicit input of type `Random.Rng`: an endless stream of draws in [0, 1) plus the index of the next unused draw. Every stochastic operation takes one and hands back the advanced one, so the contracts state exactly how many draws each operation spends.
- **Foreign maths.** nalgebra's square root, `atan2`, `sin` and `cos` arrive as the fields of a `Geometry` value. The one thing the model assumes of them is that a square root is never negative (`Lawful`). nalgebra's `wrap`, `f32::clamp` and the float-to-`usize` cast are written out.
- **Panics.** A panic that depends on data becomes an `Err` carrying the panic message, or `None`. An assertion that every caller in the code base satisfies becomes a `requires`.

Behaviour of the code that the model keeps as it is:
- a collector may collect several wastes in one tick, and the catch radius is inclusive (≤ 0.01);
- `evolve` panics when every fitness is 0;
- there is no elitism;
- vision cells are not clipped to [0, 1];
- collectors move along their heading rotated from the y axis.

## Model

| member | source | states |
|---|---|---|
| Random.GenSigned | GeneticAlgo/libs/neural-network/src/lib.rs:143 | `gen_range(-1.0..=1.0)` yields a value in [-1, 1] and spends exactly one draw |
| Random.GenBool | GeneticAlgo/libs/genetic-algorithm/src/lib.rs:206-207 | `gen_bool(p)` spends one draw, is never true for p ≤ 0 and always true for p ≥ 1 |
| Geometry.Clamp | GeneticAlgo/libs/simulation/src/lib.rs:108-119 | the result lies in [lo, hi]; it is the input when the input is inside the range, and the nearer bound otherwise |
| Geometry.ToUsize | GeneticAlgo/libs/simulation/src/eye.rs:66 | `as usize` truncates a non-negative value to the integer at or below it, and sends anything below 1 to 0 |
| Geometry.Wrap | GeneticAlgo/libs/simulation/src/lib.rs:77-78 | `na::wrap` lands in the closed range [min, max] and leaves a value already inside the range unchanged |
| Geometry.RandomPoint | GeneticAlgo/libs/simulation/src/waste.rs:11 | a random point lies in [0, 1) on both axes and spends two draws, x first |
| Geometry.RandomRotation | GeneticAlgo/libs/simulation/src/collector.rs:45 | a random rotation angle lies in [0, 2π) and spends one draw |
| Ga.ChromosomeIterRoundTrip | GeneticAlgo/libs/genetic-algorithm/src/lib.rs:132-169 | collecting genes into a chromosome and iterating it gives them back in order; `len` and `index` agree with them; iterating then collecting gives the chromosome back |
| Ga.NewStatistics | GeneticAlgo/libs/genetic-algorithm/src/lib.rs:228-251 | the loop of running minimum, maximum and sum yields the smallest fitness, the largest fitness and the sum over the count |
| Ga.ExtremesBound | GeneticAlgo/libs/genetic-algorithm/src/lib.rs:234-242 | the running minimum and maximum bound every fitness and are each the fitness of some individual |
| Ga.SumBetweenExtremes | GeneticAlgo/libs/genetic-algorithm/src/lib.rs:236-243 | the sum of n fitnesses lies between n·min and n·max |
| Ga.StatisticsBounds | GeneticAlgo/libs/genetic-algorithm/src/lib.rs:232-250 | min ≤ every fitness ≤ max, both are attained, and min ≤ avg ≤ max |
| Ga.Wheel | GeneticAlgo/libs/genetic-algorithm/src/lib.rs:126-127 | a spin of the weighted wheel stops on an index of the population whose weight is positive |
| Ga.SpinPositive | GeneticAlgo/libs/genetic-algorithm/src/lib.rs:126-127 | the wheel never stops on an individual of zero fitness |
| Ga.Select | GeneticAlgo/libs/genetic-algorithm/src/lib.rs:117-129 | selection succeeds exactly when the fitnesses are non-empty, non-negative and of positive sum (otherwise `expect` panics); the chosen individual belongs to the population and has positive fitness; one draw is spent |
| Ga.Mix | GeneticAlgo/libs/genetic-algorithm/src/lib.rs:189-192 | the child has the parents' length; each gene is parent A's or parent B's gene at that index; one draw is spent per gene |
| Ga.Crossover | GeneticAlgo/libs/genetic-algorithm/src/lib.rs:178-193 | crossover fails exactly on parents of different lengths; otherwise the child has their length and each gene comes from one of them at the same index |
| Ga.NewGaussianMutation | GeneticAlgo/libs/genetic-algorithm/src/lib.rs:197-200 | construction succeeds exactly when the chance lies in [0, 1], and it keeps both parameters |
| Ga.ShiftBound | GeneticAlgo/libs/genetic-algorithm/src/lib.rs:206-208 | a shift `sign·coeff·r` with sign ±1 and r in [0, 1) moves a gene by at most \|coeff\| |
| Ga.MutateGene | GeneticAlgo/libs/genetic-algorithm/src/lib.rs:205-209 | one gene's turn spends a sign draw and a coin draw, and a third draw exactly when the coin falls below the chance; without it the gene is unchanged, with it the gene moves by sign·coeff·u for a sign ±1 and some u in [0, 1), so it stays within \|coeff\| of where it was |
| Ga.Mutate | GeneticAlgo/libs/genetic-algorithm/src/lib.rs:204-211 | the in-place loop over the genes leaves exactly the genes, and the generator, that gene-by-gene mutation in order specifies |
| Ga.MutateFromBound | GeneticAlgo/libs/genetic-algorithm/src/lib.rs:204-211 | mutation from index i on keeps the length, leaves the genes before i untouched and moves every other gene by at most \|coeff\| |
| Ga.MutationBound | GeneticAlgo/libs/genetic-algorithm/src/lib.rs:204-211 | a mutated chromosome has the same length and each gene lies within \|coeff\| of its old value |
| Ga.Breed | GeneticAlgo/libs/genetic-algorithm/src/lib.rs:93-109 | a child made by select, select, crossover and mutate descends, gene by gene within \|coeff\|, from two members of the population with positive fitness |
| Ga.Offspring | GeneticAlgo/libs/genetic-algorithm/src/lib.rs:91-111 | breeding n children in order yields exactly n, each with two positive-fitness parents in the population |
| Ga.Evolve | GeneticAlgo/libs/genetic-algorithm/src/lib.rs:81-114 | an empty population is rejected; otherwise the new population is exactly as large as the old one, and the statistics describe the population passed in, not the evolved one |
| Ga.EvolveDescends | GeneticAlgo/libs/genetic-algorithm/src/lib.rs:91-111 | every child made by `I::create` carries a chromosome descended from two members of the population with positive fitness |
| Ga.BreedSucceeds | GeneticAlgo/libs/genetic-algorithm/src/lib.rs:93-109 | with chromosomes of one length, breeding fails only when selection does |
| Ga.OffspringSucceeds | GeneticAlgo/libs/genetic-algorithm/src/lib.rs:91-111 | with chromosomes of one length, breeding n > 0 children succeeds exactly when the fitnesses can weigh the wheel |
| Ga.EvolveSucceeds | GeneticAlgo/libs/genetic-algorithm/src/lib.rs:89-128 | with chromosomes of one length, `evolve` succeeds exactly when the fitnesses can weigh the roulette wheel |
| Nn.NeuronPropagate | GeneticAlgo/libs/neural-network/src/lib.rs:128-137 | a neuron's output is never negative; it is 0 or bias + Σ inputs·weights, and never below the latter |
| Nn.LayerPropagate | GeneticAlgo/libs/neural-network/src/lib.rs:92-97 | a layer outputs one value per neuron, in neuron order, each that neuron's output |
| Nn.PropagateLayers | GeneticAlgo/libs/neural-network/src/lib.rs:29-33 | folding the inputs through the layers gives as many outputs as the last layer has neurons, none of them negative, and the inputs unchanged when there is no layer |
| Nn.Propagate | GeneticAlgo/libs/neural-network/src/lib.rs:29-33 | the network hands back the inputs when it has no layer, and otherwise one non-negative output per neuron of its last layer |
| Nn.LayersShapedAccept | GeneticAlgo/libs/neural-network/src/lib.rs:41-46 | layers built from topology windows never trip a neuron's length assertion when fed the first width's worth of inputs |
| Nn.PropagateShaped | GeneticAlgo/libs/neural-network/src/lib.rs:29-33 | a network of topology t accepts t[0] inputs and answers with t[last] non-negative outputs |
| Nn.Weights | GeneticAlgo/libs/neural-network/src/lib.rs:51-59 | an empty network has no genes; otherwise the genome starts with the bias of the first neuron of the first layer |
| Nn.LayersWeightsAppend | GeneticAlgo/libs/neural-network/src/lib.rs:51-59 | the genes go layer by layer: those of the lower layers come before those of the upper ones |
| Nn.NeuronsWeightsCount | GeneticAlgo/libs/neural-network/src/lib.rs:57 | the neurons of a layer emit out·(in + 1) genes |
| Nn.LayersWeightsCount | GeneticAlgo/libs/neural-network/src/lib.rs:54-58 | the layers of the topology windows from k on emit exactly the parameter count of those windows |
| Nn.WeightsCount | GeneticAlgo/libs/neural-network/src/lib.rs:51-59 | a network of topology t flattens to exactly Σ out·(in + 1) genes |
| Nn.NeuronFrom | GeneticAlgo/libs/neural-network/src/lib.rs:152-163 | a neuron reads its bias and then `inputs` weights from the cursor, and panics "got not enough weights" exactly when the genes run out; its genes are the slice it consumed |
| Nn.NeuronsFrom | GeneticAlgo/libs/neural-network/src/lib.rs:111-121 | a layer reads its neurons one after another, consuming exactly out·(in + 1) genes, and panics exactly when they run out |
| Nn.LayersFrom | GeneticAlgo/libs/neural-network/src/lib.rs:69-78 | one layer per topology window, each of the window's shape, consuming exactly their parameter count, and panicking exactly when the genes run out |
| Nn.FromWeights | GeneticAlgo/libs/neural-network/src/lib.rs:61-84 | rebuilding succeeds exactly when the topology has two or more entries and the gene count matches it; too few genes panic "got not enough weights", leftovers "got too many weights"; the network has the topology's shape and flattens back to the same genes |
| Nn.NeuronsInjective | GeneticAlgo/libs/neural-network/src/lib.rs:57 | neurons of one shape with the same flattened genes are equal |
| Nn.LayersInjective | GeneticAlgo/libs/neural-network/src/lib.rs:54-58 | layers of one topology with the same flattened genes are equal |
| Nn.FromWeightsRoundTrip | GeneticAlgo/libs/neural-network/src/lib.rs:51-84 | rebuilding a network from its own weights gives the network back |
| Nn.RandomWeights | GeneticAlgo/libs/neural-network/src/lib.rs:145-147 | n draws give n weights in [-1, 1] and spend n draws |
| Nn.RandomNeuron | GeneticAlgo/libs/neural-network/src/lib.rs:139-150 | a random neuron has one weight per input, all genes in [-1, 1], bias drawn first, and spends in + 1 draws |
| Nn.RandomNeurons | GeneticAlgo/libs/neural-network/src/lib.rs:99-109 | a random layer has the requested shape, all genes in [-1, 1], and spends one draw per gene |
| Nn.RandomLayers | GeneticAlgo/libs/neural-network/src/lib.rs:41-46 | one random layer per topology window, each of that window's shape, spending one draw per gene |
| Nn.RandomNetwork | GeneticAlgo/libs/neural-network/src/lib.rs:35-49 | a random network has the topology's shape, every gene in [-1, 1], and spends one draw per gene |
| Eyes.New | GeneticAlgo/libs/simulation/src/eye.rs:21-27 | construction succeeds exactly for a positive range, a positive angle and at least one cell, and keeps all three; a non-positive range fails its assertion first |
| Eyes.Default | GeneticAlgo/libs/simulation/src/eye.rs:77-81 | the default eye passes `Eye::new`'s assertions |
| Eyes.DefaultIsNew | GeneticAlgo/libs/simulation/src/eye.rs:5-11 | the default eye is `Eye::new(0.25, π + π/4, 9)` |
| Eyes.RelativeAngle | GeneticAlgo/libs/simulation/src/eye.rs:50-55 | the wrapped bearing of a waste relative to the heading lies in [-π, π] |
| Eyes.CellIndex | GeneticAlgo/libs/simulation/src/eye.rs:62-66 | the sector index of a bearing inside the field of view is below `cells` |
| Eyes.RightEdgeOverflows | GeneticAlgo/libs/simulation/src/eye.rs:63-66 | at bearing +fov_angle/2 the truncated index equals `cells`, one past the last sector, and the `min` folds it into sector cells − 1 |
| Eyes.EnergyBounds | GeneticAlgo/libs/simulation/src/eye.rs:69 | a waste at distance in [0, fov_range) adds an energy in (0, 1] |
| Eyes.Look | GeneticAlgo/libs/simulation/src/eye.rs:40-70 | a waste is seen exactly when it is nearer than fov_range and its wrapped bearing lies in [-fov_angle/2, fov_angle/2]; a seen waste falls in a sector below `cells` |
| Eyes.LookEnergy | GeneticAlgo/libs/simulation/src/eye.rs:69-70 | a seen waste adds an energy in (0, 1] |
| Eyes.Vision | GeneticAlgo/libs/simulation/src/eye.rs:39-73 | the vision has exactly `cells` values |
| Eyes.ProcessVision | GeneticAlgo/libs/simulation/src/eye.rs:33-74 | the accumulating loop over the wastes, with its early `continue`s, yields exactly the sector-by-sector vision |
| Eyes.VisionBySector | GeneticAlgo/libs/simulation/src/eye.rs:40-71 | each sector holds exactly the sum of the energies of the wastes seen in that sector: each seen waste feeds one sector, and unseen ones feed none |
| Eyes.VisionNonNegative | GeneticAlgo/libs/simulation/src/eye.rs:69-70 | no sector is ever negative |
| Eyes.VisionEmpty | GeneticAlgo/libs/simulation/src/eye.rs:39 | with no wastes every sector is 0 |
| Brains.Topology | GeneticAlgo/libs/simulation/src/brain.rs:31-47 | the topology has three layers: `cells` inputs, 2·cells hidden neurons and 2 outputs |
| Brains.GenomeLength | GeneticAlgo/libs/simulation/src/brain.rs:31-47 | a brain for c sectors has 2c(c + 1) + 2(2c + 1) genes |
| Brains.DefaultGenomeLength | GeneticAlgo/libs/simulation/src/brain.rs:31-47 | behind the default eye, a brain has 218 genes |
| Brains.RandomBrain | GeneticAlgo/libs/simulation/src/brain.rs:9-13 | a random brain has the brain topology, all genes in [-1, 1], and spends one draw per gene |
| Brains.AsChromosome | GeneticAlgo/libs/simulation/src/brain.rs:27-29 | the chromosome is the network's flattened weights |
| Brains.FromChromosome | GeneticAlgo/libs/simulation/src/brain.rs:15-25 | rebuilding succeeds exactly when the chromosome has the topology's gene count, with the matching panic otherwise; the brain has the topology's shape and its chromosome is the one given |
| Brains.ChromosomeRoundTrip | GeneticAlgo/libs/simulation/src/brain.rs:15-29 | rebuilding a brain from its own chromosome gives the brain back |
| Collectors.New | GeneticAlgo/libs/simulation/src/collector.rs:42-51 | a new collector keeps the eye and brain given; speed is 0.002 and proficiency 0; the position is drawn in the unit square and the rotation in [0, 2π); three draws are spent |
| Collectors.NewNewborn | GeneticAlgo/libs/simulation/src/collector.rs:42-51 | a collector made by `new` from the default eye and a brain of its topology is a newborn: speed 0.002, proficiency 0, position in the unit square |
| Collectors.RandomCollector | GeneticAlgo/libs/simulation/src/collector.rs:15-19 | a random collector has the default eye, a brain of its topology, a position in the unit square, speed 0.002 and proficiency 0; it spends 221 draws |
| Collectors.AsChromosome | GeneticAlgo/libs/simulation/src/collector.rs:21-23 | a collector's chromosome is its network's flattened genes, 218 of them for a collector with the default eye and a brain of its topology |
| Collectors.FromChromosome | GeneticAlgo/libs/simulation/src/collector.rs:25-32 | rebuilding succeeds exactly for a 218-gene chromosome; the collector has the default eye, carries that chromosome, starts at speed 0.002 with proficiency 0, and spends three draws |
| Collectors.ChromosomeRoundTrip | GeneticAlgo/libs/simulation/src/collector.rs:21-32 | a collector rebuilt from another's chromosome has the same brain and the same chromosome |
| CollectorIndividuals.Create | GeneticAlgo/libs/simulation/src/collector_individual.rs:8-13 | `create` stores the chromosome with fitness 0 |
| CollectorIndividuals.OpsKeepChromosome | GeneticAlgo/libs/simulation/src/collector_individual.rs:8-17 | `chromosome()` of a created individual is the chromosome it was created from |
| CollectorIndividuals.FromCollector | GeneticAlgo/libs/simulation/src/collector_individual.rs:25-30 | fitness is the collector's proficiency and the chromosome is its brain's weights |
| CollectorIndividuals.IntoCollector | GeneticAlgo/libs/simulation/src/collector_individual.rs:32-34 | it succeeds exactly for a 218-gene chromosome, giving a fresh collector that carries that chromosome and, turned back, is the created individual of that chromosome (proficiency 0) |
| CollectorIndividuals.CollectorRoundTrip | GeneticAlgo/libs/simulation/src/collector_individual.rs:25-34 | collector → individual → collector keeps the brain and resets the proficiency to 0 |
| Wastes.RandomWaste | GeneticAlgo/libs/simulation/src/waste.rs:9-13 | the waste's position is exactly the point drawn, in the unit square |
| Seas.RandomCollectors | GeneticAlgo/libs/simulation/src/sea.rs:11-13 | n fresh random collectors, spending 221 draws each |
| Seas.RandomWastes | GeneticAlgo/libs/simulation/src/sea.rs:15-17 | n wastes in the unit square, spending two draws each |
| Seas.RandomSea | GeneticAlgo/libs/simulation/src/sea.rs:10-20 | a random sea has exactly 40 fresh collectors (proficiency 0) and then 60 wastes in the unit square |
| Sim.Algorithm | GeneticAlgo/libs/simulation/src/lib.rs:35-39 | the simulation's algorithm mutates with chance 0.01 and coefficient 0.3 |
| Sim.NewbornFit | GeneticAlgo/libs/simulation/src/collector.rs:46 | the initial speed 0.002 lies within [SPEED_MIN, SPEED_MAX] |
| Sim.RandomSeaSteady | GeneticAlgo/libs/simulation/src/sea.rs:10-20 | a random sea has 40 collectors within the speed limits and 60 wastes in the unit square |
| Sim.TotalUpdate | GeneticAlgo/libs/simulation/src/lib.rs:91 | replacing one collector changes the total score by the difference of the two scores |
| Sim.CaughtUpdate | GeneticAlgo/libs/simulation/src/lib.rs:84-94 | moving a waste the sweep has already passed does not change how many of the later wastes are within reach |
| Sim.CaughtMoved | GeneticAlgo/libs/simulation/src/lib.rs:84-94 | the same, for every prefix of the later wastes at once |
| Sim.Sweep | GeneticAlgo/libs/simulation/src/lib.rs:84-94 | one collector's sweep keeps the waste count; it changes nothing of the collector but its proficiency, which rises by exactly the number of wastes within 0.01 (inclusive) at the moment the sweep reaches them; it spends exactly two draws per waste caught; relocated wastes stay in the unit square |
| Sim.SweepKeeps | GeneticAlgo/libs/simulation/src/lib.rs:84-94 | a sweep leaves every waste before its start, and every waste out of reach, where it was |
| Sim.DrawnWasteShift | GeneticAlgo/libs/simulation/src/lib.rs:92 | the n-th waste drawn after one point is the (n + 1)-th waste drawn from the start, and the 0-th is that point |
| Sim.SweepRelocates | GeneticAlgo/libs/simulation/src/lib.rs:90-93 | a waste within reach is moved to the point drawn after as many points as wastes were caught before it in this sweep |
| Sim.Collide | GeneticAlgo/libs/simulation/src/lib.rs:82-96 | collisions keep the collector and waste counts and change only proficiencies, which never drop; two draws are spent per waste collected in total |
| Sim.CollideEarlier | GeneticAlgo/libs/simulation/src/lib.rs:82-96 | the collisions of collectors from i on leave the collectors before i alone |
| Sim.CollideFirst | GeneticAlgo/libs/simulation/src/lib.rs:82-96 | collector i gains exactly the number of wastes within its reach as its turn comes |
| Sim.CollideUntouched | GeneticAlgo/libs/simulation/src/lib.rs:82-96 | a waste that no collector from i on can reach stays where it is |
| Sim.CollideSteady | GeneticAlgo/libs/simulation/src/lib.rs:82-96 | collisions keep 40 fit collectors and 60 wastes in the unit square |
| Sim.Think | GeneticAlgo/libs/simulation/src/lib.rs:99-124 | a collector's thinking changes only its speed and rotation. The speed ends in [SPEED_MIN, SPEED_MAX] and, from inside the limits, rises by at most SPEED_ACCEL. The rotation rises by between 0 and ROTATION_ACCEL, because network outputs are never negative |
| Sim.Move | GeneticAlgo/libs/simulation/src/lib.rs:74-79 | a move changes only the position, which lands in the unit square |
| Sim.ThinkAll | GeneticAlgo/libs/simulation/src/lib.rs:98-125 | every collector thinks, in place, against the same wastes |
| Sim.MoveAll | GeneticAlgo/libs/simulation/src/lib.rs:73-80 | every collector moves, in place |
| Sim.ThinkMoveFit | GeneticAlgo/libs/simulation/src/lib.rs:98-125 | thinking and moving keep collectors within the speed limits and in the unit square, and change neither eye, brain nor proficiency |
| Sim.Tick | GeneticAlgo/libs/simulation/src/lib.rs:51-54 | collisions, brains and movements keep 40 fit collectors and 60 wastes in the unit square |
| Sim.TickScores | GeneticAlgo/libs/simulation/src/lib.rs:51-54 | over a tick every collector keeps its eye and brain; proficiencies never drop; the draws spent are two per waste collected |
| Sim.TotalTick | GeneticAlgo/libs/simulation/src/lib.rs:73-125 | brains and movements leave the total score unchanged |
| Sim.Ticks | GeneticAlgo/libs/simulation/src/lib.rs:51-54 | n ticks from a steady sea keep it steady |
| Sim.Population | GeneticAlgo/libs/simulation/src/lib.rs:130-135 | the population is one individual per collector, in order, made by `from_collector` |
| Sim.Scores | GeneticAlgo/libs/simulation/src/lib.rs:130-141 | the fitness fed to the genetic algorithm is each collector's proficiency, in order |
| Sim.WeighableScores | GeneticAlgo/libs/simulation/src/lib.rs:138-141 | the genetic algorithm accepts the scores exactly when some collector caught a waste |
| Sim.SumPositive | GeneticAlgo/libs/genetic-algorithm/src/lib.rs:127 | a sum of non-negative fitnesses is positive exactly when one of them is |
| Sim.PopulationLength | GeneticAlgo/libs/simulation/src/lib.rs:130-135 | every collector's chromosome has 218 genes |
| Sim.ChildrenLength | GeneticAlgo/libs/simulation/src/lib.rs:138-147 | every individual bred from the collectors has 218 genes, so `into_collector` never panics on it |
| Sim.Hatch | GeneticAlgo/libs/simulation/src/lib.rs:144-147 | one fresh collector per bred individual, in order, each carrying that individual's chromosome |
| Sim.RandomWastesSnoc | GeneticAlgo/libs/simulation/src/lib.rs:150-152 | restarting n + 1 wastes is restarting n and then drawing one more point |
| Sim.Renew | GeneticAlgo/libs/simulation/src/lib.rs:143-152 | the new sea has one fresh collector per child carrying its chromosome, and the same number of wastes, each in the unit square |
| Sim.Regenerate | GeneticAlgo/libs/simulation/src/lib.rs:127-155 | evolving keeps 40 fit collectors and 60 wastes in the unit square; the statistics describe the old collectors' scores |
| Sim.RegenerateOk | GeneticAlgo/libs/simulation/src/lib.rs:127-155 | `evolve` panics exactly when every collector's proficiency is 0 |
| Sim.RegenerateHatches | GeneticAlgo/libs/simulation/src/lib.rs:138-147 | the new generation is one fresh collector per bred child, in order, each carrying that child's chromosome |
| Sim.RegenerateDescends | GeneticAlgo/libs/simulation/src/lib.rs:130-147 | each new collector is fresh and carries the chromosome of a child bred from two old collectors that caught at least one waste |
| Sim.LastTick | GeneticAlgo/libs/simulation/src/lib.rs:50-60 | the step that ends a generation is a tick and then `evolve`; it fails exactly when no collector has scored by the end of the tick, and otherwise leaves a steady sea and the statistics of the scores the tick left |
| Sim.Simulation.constructor | GeneticAlgo/libs/simulation/src/lib.rs:40-44 | the struct literal stores the sea and algorithm, with age 0 |
| Sim.Simulation.Random | GeneticAlgo/libs/simulation/src/lib.rs:32-45 | a first random sea is drawn and thrown away; the kept sea is drawn after it; the simulation starts valid at age 0 |
| Sim.Simulation.SweepWith | GeneticAlgo/libs/simulation/src/lib.rs:84-94 | the inner in-place loop over the wastes replaces collector i and the wastes by exactly what `Sweep` specifies, and hands back its generator |
| Sim.Simulation.ProcessCollisions | GeneticAlgo/libs/simulation/src/lib.rs:82-96 | the outer in-place loop, one sweep per collector, leaves exactly the collectors, wastes and generator that `Collide` specifies; the age and validity are kept |
| Sim.Simulation.ProcessBrains | GeneticAlgo/libs/simulation/src/lib.rs:98-125 | the in-place loop makes every collector think against the wastes and changes nothing else |
| Sim.Simulation.ProcessMovements | GeneticAlgo/libs/simulation/src/lib.rs:73-80 | the in-place loop moves every collector and changes nothing else |
| Sim.Simulation.Evolve | GeneticAlgo/libs/simulation/src/lib.rs:127-155 | the age resets to 0; the method succeeds exactly when `Regenerate` does, and then leaves the sea, statistics and generator it specifies, with the simulation valid |
| Sim.Simulation.RestartWastes | GeneticAlgo/libs/simulation/src/lib.rs:149-152 | the in-place loop drops every waste at a fresh point, in order, as `Sea::random` would draw them, and leaves the collectors alone |
| Sim.Simulation.Step | GeneticAlgo/libs/simulation/src/lib.rs:51-63 | before the generation ends a step is one tick, adds exactly 1 to the age and returns no statistics. The step that takes the age past GENERATION_LENGTH also evolves, resets the age to 0 and returns the statistics, failing exactly when `evolve` panics |
| Sim.Simulation.Train | GeneticAlgo/libs/simulation/src/lib.rs:65-71 | training takes GENERATION_LENGTH + 1 − age steps; its last step starts from the sea and generator reached by GENERATION_LENGTH − age ticks of the old sea; it returns exactly the statistics of that step and ends at age 0 |

## Left out

- Floating point: f32 rounding, overflow and NaN are not modelled. Every float is a `real`, and the constants π, π/2 and π/4 are decimal approximations.
- nalgebra's square root, `atan2`, `sin` and `cos` are parameters. The model assumes only that a square root is non-negative. The angle that `Rotation2::rotation_between` yields is taken to be `atan2` of the cross and dot products.
- Rotations are kept as unnormalised angles. `Rotation2::new(angle).angle()` normalises into (-π, π]; every use of the angle here is 2π-periodic, and the eye wraps the bearing itself.
- The `rand` distributions are not modelled, only which draw feeds which decision:
  - `gen_bool` is a draw below p;
  - `gen_range(-1.0..=1.0)` is a draw stretched onto [-1, 1];
  - `choose_weighted` is the cumulative-weight wheel with one draw, failing on the error conditions of rand's weighted index.
  
  Draw counts follow the source's order of calls, except for the `gen_bool(1.0)` case under Ga.MutateGene below. The seeded ChaCha8 values expected by the tests are not modelled.
- The browser front end and the wasm/serde bindings are not part of this model.
- Nn.NeuronPropagate: the `assert_eq!` on the input length is a precondition. Every network built by `random` or `from_weights` and fed by the eye satisfies it (`PropagateShaped`).
- Nn.RandomNetwork: the `assert!` that the topology has two or more entries is a precondition. The brain's topology always has three.
- Sim.Hatch: `into_collector`'s panic on a chromosome of the wrong length is a precondition. `ChildrenLength` proves that bred children always have 218 genes.
- Ga.NewStatistics: the `assert!` on a non-empty population is a precondition. `evolve` rejects an empty population first.
- Random.GenBool: always spends one draw, while rand's `gen_bool(1.0)` spends none. Only a mutation chance of exactly 1.0 is affected.
- Ga.MutateGene: in rand, `gen_bool(1.0)` returns true without drawing. A mutation chance of exactly 1.0 therefore spends two draws per gene in the source, where the model counts three. The simulation's chance is 0.01.
- Geometry.Wrap: written in closed form, landing in the closed range [min, max], so positions can be exactly 1.0.
- Getters are plain field reads with no contract of their own, because on immutable values they cannot change anything. These are `Simulation::sea`, `Sea::collectors`/`wastes`, `Collector::position`/`rotation`, `Waste::position`, `Eye::cells`, `Individual::fitness`/`chromosome` and `Chromosome::iter`/`iter_mut`.
- Sim.Simulation.Random: the genetic algorithm built between the two seas consumes no draws. It is built after them here.
- Sim.Simulation.Step and Sim.Simulation.Train return `Err` where the source panics, which only happens when every collector scored 0.
- Sim.Simulation.SweepWith: the inner loop updates local copies of the borrowed collector and wastes and writes them back to the sea when it ends. Nothing reads the sea in between, so the outcome is the same as the in-place update.
- Sim.Simulation.Train: the step count and the sea and generator before the last step are ghost out-parameters. The source's loop has no counter.
