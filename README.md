# making-life, modelled in Dafny

This project models the core of a small artificial-life simulation. Animals with a
feed-forward neural network for a brain and an eye of a few bins wander the unit square
and eat food. After every `GENERATION_LENGTH` steps a genetic algorithm breeds the next
generation, choosing parents by roulette wheel with how much each animal ate as its
fitness.

The model covers five pieces:

- **Neural network** (`neural_network.dfy`, module `NeuralNetworks`):
  - layers of ReLU neurons built at random for a topology;
  - `propagate` as a fold over the layers;
  - the weight codec: `weights()` flattens per layer and per neuron, the bias first and then the weights, and `from_weights` rebuilds the network from that stream.
  The codec round trip is proved.
- **Genetic algorithm** (`genetic_algorithm.dfy`, module `GeneticAlgorithms`):
  - roulette-wheel selection through the weighted choice it relies on;
  - uniform crossover;
  - Gaussian mutation, as an in-place loop over an array of genes;
  - `evolve`.
- **World** (`world.dfy`, module `Worlds`):
  - the random queue (a class over a `seq` field);
  - the bucket grid;
  - the generator of pairwise-separated random points (`generate_poison`);
  - `World::random`.
- **Simulation** (`simulation.dfy`, module `Simulations`): the `Simulation` class with its age counter and its per-step phases (collisions, brains, movements), and evolution. The entities it uses are:
  - `animal.dfy`, `animal_individual.dfy` and `food.dfy`;
  - `brain.dfy`: the brain wrapper, which is known only from its calls.
- **Eye** (`eye.dfy`, module `Eyes`): the binning of the visible foods by bearing.

Shared modules:

- `random.dfy` (`RandomSource`): the random generator as an injected oracle. It is an infinite tape of unit draws that every operation receives and returns. `gen_bool`, `gen_range` and `gen` are derived from one draw each.
- `numbers.dfy` (`Numbers`): the numeric helpers:
  - `min`, sums;
  - the saturating `as usize` cast of `floor`/`ceil`;
  - `f32::clamp`;
  - `nalgebra::wrap`.
- `geometry.dfy` (`Geometry`): points, squared distances, and the `Oracle` parameter that stands for nalgebra's norm, bearing, sine and cosine.
- `wrappers.dfy` (`Wrappers`): `Option` and `Result`. A panic of the source is an `Err`/`None` value of the model.

The model keeps three behaviours of the code that a reader might expect to fail:

- `evolve` on an empty population returns an empty population. It does not fail.
- `Network::random` with fewer than two topology entries builds a network with no layers. It does not fail.
- `propagate` truncates a length mismatch between input and weights, as `zip` does. It does not fail.

## Model

| member | source | states |
|---|---|---|
| NeuralNetworks.DrawWeights | libs/neural-network/src/lib.rs:95-97 | exactly `count` weights are drawn, each in [-1, 1) |
| NeuralNetworks.NeuronRandom | libs/neural-network/src/lib.rs:93-100 | a random neuron has one weight per input, and its weights and bias lie in [-1, 1) |
| NeuralNetworks.NeuronsRandom | libs/neural-network/src/lib.rs:69-75 | a random layer has `neurons` neurons, each with `input_neurons` weights, all in [-1, 1) |
| NeuralNetworks.LayersRandom | libs/neural-network/src/lib.rs:28-31 | one layer per window of two topology entries; layer i has topology[i+1] neurons of topology[i] weights each |
| NeuralNetworks.Random | libs/neural-network/src/lib.rs:27-34 | `Network::random` fits the topology (no layer for fewer than two entries), and every parameter lies in [-1, 1) |
| NeuralNetworks.Dot | libs/neural-network/src/lib.rs:102-105 | the weighted sum is the sum of the pairwise products of `zip` and `map`, as many as the shorter sequence |
| NeuralNetworks.DotTruncates | libs/neural-network/src/lib.rs:102-105 | the zipped weighted sum only sees the common prefix of input and weights |
| NeuralNetworks.NeuronPropagate | libs/neural-network/src/lib.rs:101-107 | a neuron's output is max(0, bias + weighted sum): never negative, and either 0 or bias + sum |
| NeuralNetworks.LayerPropagate | libs/neural-network/src/lib.rs:77-82 | a layer outputs one value per neuron, each neuron seeing the whole input |
| NeuralNetworks.PropagateLayers | libs/neural-network/src/lib.rs:36-40 | the fold gives the input back when there is no layer, else one non-negative value per neuron of the last layer |
| NeuralNetworks.Propagate | libs/neural-network/src/lib.rs:36-40 | `propagate` gives the input back for a network with no layer, else one non-negative value per neuron of the last layer |
| NeuralNetworks.PropagateShape | libs/neural-network/src/lib.rs:36-40 | for a network of a topology, the output is the input (no layer) or has topology[last] non-negative values |
| NeuralNetworks.ReluExamples | libs/neural-network/src/lib.rs:134-162 | the three ReLU cases: 3 for unit input, 0 for negative input, 4 with bias 1 |
| NeuralNetworks.Weights | libs/neural-network/src/lib.rs:42-51 | the flattened stream of a network has exactly the weight count of any topology the network fits |
| NeuralNetworks.NeuronFrom | libs/neural-network/src/lib.rs:109-116 | reading a neuron succeeds iff more than `inputs` values remain; it takes the bias and then `inputs` weights, and returns the rest |
| NeuralNetworks.NeuronsFrom | libs/neural-network/src/lib.rs:84-89 | reading a layer succeeds iff count*(inputs+1) values remain, and consumes exactly them in order |
| NeuralNetworks.LayersFrom | libs/neural-network/src/lib.rs:53-58 | reading the layers succeeds iff the stream holds the topology's weight count, and consumes exactly that many values in order |
| NeuralNetworks.FromWeights | libs/neural-network/src/lib.rs:53-64 | "too few" iff the stream is shorter than the weight count, "Too many weights" iff longer; otherwise a network of the topology whose `weights()` is the stream |
| NeuralNetworks.NeuronRoundTrip | libs/neural-network/src/lib.rs:109-116 | a neuron read back from its bias-then-weights encoding is the same neuron, and the rest of the stream is untouched |
| NeuralNetworks.NeuronsRoundTrip | libs/neural-network/src/lib.rs:84-89 | a layer read back from its encoding is the same layer |
| NeuralNetworks.LayersRoundTrip | libs/neural-network/src/lib.rs:45-58 | the layers read back from their encoding are the same layers |
| NeuralNetworks.RoundTrip | libs/neural-network/src/lib.rs:42-64 | `from_weights(weights(n), topology) == n` for a network of the topology, and `weights()` has the length Σ topology[i+1]*(topology[i]+1) |
| NeuralNetworks.WeightsInjective | libs/neural-network/src/lib.rs:42-51 | two networks of one topology with the same weights are the same network |
| GeneticAlgorithms.SumOfNonNegative | libs/genetic-algorithm/src/lib.rs:109-111 | non-negative fitnesses have a non-negative total, which is zero iff all are |
| GeneticAlgorithms.Pick | libs/genetic-algorithm/src/lib.rs:109-111 | the index picked for a target in [0, total) is in range and never has weight zero |
| GeneticAlgorithms.ChooseWeighted | libs/genetic-algorithm/src/lib.rs:109-111 | `choose_weighted` fails on no item, on a negative weight, or on a zero total (each iff), else returns an index of positive weight |
| GeneticAlgorithms.Select | libs/genetic-algorithm/src/lib.rs:100-112 | selection panics exactly on an empty population, a negative fitness or all-zero fitness; otherwise it returns a member of the population with positive fitness |
| GeneticAlgorithms.CrossPrefix | libs/genetic-algorithm/src/lib.rs:71-81 | after n genes the child has n genes, each equal to parent A's or parent B's gene at that index |
| GeneticAlgorithms.Crossover | libs/genetic-algorithm/src/lib.rs:64-83 | the child is as long as the shorter parent, and each gene comes from one parent at the same index |
| GeneticAlgorithms.NewGaussianMutation | libs/genetic-algorithm/src/lib.rs:201-205 | construction succeeds iff 0 <= chance <= 1, and keeps chance and coeff |
| GeneticAlgorithms.Step | libs/genetic-algorithm/src/lib.rs:211-214 | the step sign*coeff*u with u in [0, 1) is never longer than abs(coeff) |
| GeneticAlgorithms.MutateGene | libs/genetic-algorithm/src/lib.rs:211-215 | one gene moves by at most abs(coeff), and not at all when chance is 0 |
| GeneticAlgorithms.MutatePrefix | libs/genetic-algorithm/src/lib.rs:210-216 | the first n mutated genes each lie within the tolerance of the originals |
| GeneticAlgorithms.Mutated | libs/genetic-algorithm/src/lib.rs:209-217 | mutation keeps the length, moves every gene by at most abs(coeff), and changes nothing when chance is 0 |
| GeneticAlgorithms.Mutate | libs/genetic-algorithm/src/lib.rs:209-217 | the in-place loop leaves exactly the genes and generator state of `Mutated` |
| GeneticAlgorithms.Breed | libs/genetic-algorithm/src/lib.rs:28-33 | one slot selects A, then B, then crosses over and mutates; it fails iff selection does, else the child descends from two positive-fitness members |
| GeneticAlgorithms.EvolvePrefix | libs/genetic-algorithm/src/lib.rs:27-35 | n slots bred in order give n members, each `create`d from a child of the population |
| GeneticAlgorithms.Evolve | libs/genetic-algorithm/src/lib.rs:22-36 | `evolve` keeps the population size, fails iff the population is non-empty and selection fails, and builds each member by `create` from a fresh child |
| GeneticAlgorithms.OffspringLength | libs/genetic-algorithm/src/lib.rs:71-81 | when every parent chromosome has one length, every child has it too |
| Worlds.Insert | libs/simulation/src/world.rs:35 | insertion grows the items by one and adds the item to their multiset |
| Worlds.Remove | libs/simulation/src/world.rs:43 | removal shrinks the items by one and takes exactly that item out of their multiset |
| Worlds.InsertRemoveInverse | libs/simulation/src/world.rs:33-44 | removing at the index just inserted at gives the items back, and re-inserting a removed item restores them |
| Worlds.RandomQueue.constructor | libs/simulation/src/world.rs:27-31 | a new queue is empty |
| Worlds.RandomQueue.Push | libs/simulation/src/world.rs:33-36 | the item is inserted at an index drawn from [0, len], the others keeping their order |
| Worlds.RandomQueue.Pop | libs/simulation/src/world.rs:38-45 | `None`, with no draw and no change, on an empty queue; else the item at an index drawn from [0, len) is removed and returned |
| Worlds.CellCount | libs/simulation/src/world.rs:68 | a grid has no cell exactly when its width or height is not positive |
| Worlds.CellIndex | libs/simulation/src/world.rs:78-80 | row-major numbering: for a point within the width, the index divided by the column count gives back the point's row, and the remainder its column |
| Worlds.CellIndexInRange | libs/simulation/src/world.rs:67-81 | the cell index of a point inside the grid's area is below ceil(w/cs)*ceil(h/cs) |
| Worlds.Grid.constructor | libs/simulation/src/world.rs:67-75 | `Grid::new` allocates ceil(w/cs)*ceil(h/cs) empty cells, so it indexes any list of points |
| Worlds.Grid.Get | libs/simulation/src/world.rs:84-89 | `get` returns the point's cell; when the grid indexes a list of points, every index in it names a point of the same cell |
| Worlds.Grid.Add | libs/simulation/src/world.rs:77-82 | the index is appended to the point's cell, so that `get` at that point includes it; no other cell changes; a grid indexing a list of points still does once the point's own index is added |
| Worlds.NearestSqDist | libs/simulation/src/world.rs:133-139 | the running minimum is infinity iff there is no point, and otherwise is the smallest squared distance to a point |
| Worlds.RandomPointIn | libs/simulation/src/world.rs:124-132 | a random point drawn x first lies in [0, w) x [0, h) |
| Worlds.World.constructor | libs/simulation/src/world.rs:94-99 | a new world has no animals and no foods |
| Worlds.World.GeneratePoison | libs/simulation/src/world.rs:117-148 | the first point is always taken, so at least one point; never more than the count (unless it is 0); the points lie in the area and are pairwise farther apart than `dist`; `done` iff the count was reached |
| Worlds.World.Random | libs/simulation/src/world.rs:100-106 | 35 animals and 50 foods when done, at most that many otherwise, spread 0.1 and 0.05 apart; each animal has the default eye, speed 0.002, nothing eaten, a normal heading and a brain of the topology |
| Worlds.Populate | libs/simulation/src/world.rs:101 | one animal per position, in order, with speed 0.002, the default eye, nothing eaten and a brain of the topology |
| Foods.New | libs/simulation/src/food.rs:12-16 | a new food is at the given position |
| Foods.Position | libs/simulation/src/food.rs:18-20 | the accessor returns the food's position, the one `new` builds the food from |
| Foods.Eq | libs/simulation/src/food.rs:23-27 | two foods compare equal iff they are equal |
| Foods.Clone | libs/simulation/src/food.rs:23-27 | a clone is equal to the original |
| Eyes.New | libs/simulation/src/eye.rs:16-25 | construction succeeds iff range, angle and cells are positive, and keeps them |
| Eyes.Default | libs/simulation/src/eye.rs:68-71 | the default eye is valid, with range 0.25, angle PI / FRAC_PI_4 = 4 and 9 cells |
| Eyes.Energy | libs/simulation/src/eye.rs:57 | (range - distance) / range lies in [0, 1] for a food within range |
| Eyes.Cell | libs/simulation/src/eye.rs:52-55 | the bin index is always below `cells`, thanks to the saturating cast and `min(cells - 1)` |
| Eyes.Bearing | libs/simulation/src/eye.rs:44-46 | the wrapped relative bearing lies in [-PI, PI] |
| Eyes.Sight | libs/simulation/src/eye.rs:36-59 | a food counts iff it is within range and its bearing within +-fov_angle; it then adds an energy in [0, 1] to a bin below `cells` |
| Eyes.VisionUpTo | libs/simulation/src/eye.rs:34-60 | after any number of foods the bins are `cells` non-negative values |
| Eyes.Vision | libs/simulation/src/eye.rs:33-63 | the vision has exactly `cells` values, each non-negative |
| Eyes.VisionConserves | libs/simulation/src/eye.rs:57-59 | contributions add up: the bins sum to the energy of all foods seen |
| Eyes.DefaultSeesAllBearings | libs/simulation/src/eye.rs:46-50 | with the default eye no food in range is ever rejected for its bearing |
| Eyes.ProcessVision | libs/simulation/src/eye.rs:33-63 | the array loop with its `continue` guards computes exactly `Vision` |
| Brains.Random | libs/simulation/src/animal.rs:17 | a random brain's network fits the topology |
| Brains.AsChromosome | libs/simulation/src/animal.rs:37-39 | a brain's chromosome is its network's weights |
| Brains.FromChromosome | libs/simulation/src/animal.rs:43 | decoding succeeds iff there are exactly as many genes as weights, and gives a network of the topology whose chromosome is the input |
| Brains.ChromosomeRoundTrip | libs/simulation/src/animal.rs:37-43 | a brain decoded from its own chromosome is the same brain |
| Animals.RandomRotation | libs/simulation/src/animal.rs:46 | a random heading is one draw and lies in [-PI, PI] |
| Animals.New | libs/simulation/src/animal.rs:15-26 | `Animal::new` keeps position, rotation and speed, uses the default eye, starts with nothing eaten, and has a brain of the topology |
| Animals.Position | libs/simulation/src/animal.rs:29-31 | the accessor returns the stored position |
| Animals.Rotation | libs/simulation/src/animal.rs:33-35 | the accessor returns the stored rotation |
| Animals.AsChromosome | libs/simulation/src/animal.rs:37-39 | an animal's chromosome is its brain's weights |
| Animals.FromChromosome | libs/simulation/src/animal.rs:41-51 | fails iff the chromosome does not fit the topology; else the animal is at the position with speed 0.01, nothing eaten, the default eye, a normal heading and the brain the chromosome encodes |
| AnimalIndividuals.Create | libs/simulation/src/animal_individual.rs:11-16 | `create` gives fitness 0 and keeps the chromosome |
| AnimalIndividuals.ChromosomeOf | libs/simulation/src/animal_individual.rs:18-20 | the accessor returns the individual's chromosome, the one `create` was given |
| AnimalIndividuals.Fitness | libs/simulation/src/animal_individual.rs:22-24 | the accessor returns the stored fitness |
| AnimalIndividuals.Ops | libs/simulation/src/animal_individual.rs:10-25 | through the `Individual` interface a created member has the chromosome it was created from and fitness 0 |
| AnimalIndividuals.FromAnimal | libs/simulation/src/animal_individual.rs:28-33 | fitness is the animal's satiation and the chromosome is its brain's weights |
| AnimalIndividuals.IntoAnimal | libs/simulation/src/animal_individual.rs:35-37 | succeeds iff the chromosome fits the topology, giving an animal at the position with nothing eaten |
| AnimalIndividuals.AnimalRoundTrip | libs/simulation/src/animal_individual.rs:28-37 | an animal that becomes an individual and then an animal again keeps its brain, at the new position, with nothing eaten |
| Simulations.FeedUpTo | libs/simulation/src/lib.rs:111-121 | meeting n foods raises the animal's satiation by exactly the number of them within 0.01 and changes nothing else of the animal; exactly those foods move, each to a point of the unit square, and the others stay where they were |
| Simulations.CollideUpTo | libs/simulation/src/lib.rs:109-123 | collisions change only satiations, which rise by at most the number of foods, and food positions; the counts never change, and a food none of the animals was near stays where it was |
| Simulations.CollideFeedsEach | libs/simulation/src/lib.rs:109-123 | each animal gains exactly one satiation per food within 0.01 of it as it finds the foods, after the animals before it have eaten and moved theirs |
| Simulations.Think | libs/simulation/src/lib.rs:88-97 | thinking changes only speed and heading: the speed grows by some d in [0, SPEED_ACCEL] and is clamped to [SPEED_MIN, SPEED_MAX]; the heading turns by some t in [0, FRAC_PI_2] and stays in [-PI, PI] |
| Simulations.ThinkingNeverSlows | libs/simulation/src/lib.rs:91-95 | the ReLU outputs are non-negative, so the speed change is too: an animal with a speed in range never slows down |
| Simulations.ThinkAll | libs/simulation/src/lib.rs:88-97 | every animal thinks, and every animal stays valid |
| Simulations.MoveAll | libs/simulation/src/lib.rs:100-107 | every animal moves by `Move`, in order |
| Simulations.Tick | libs/simulation/src/lib.rs:55-58 | collisions, brains and movements keep the numbers of animals and foods and every animal valid; satiations never drop, and eyes and brains stay |
| Simulations.Move | libs/simulation/src/lib.rs:100-107 | movement changes only the position, which ends in [0, 1] x [0, 1]; it is the step along the heading whenever that already lies inside |
| Simulations.Population | libs/simulation/src/lib.rs:69-72 | one individual per animal, in order, via `from_animal` |
| Simulations.SelectionFailsIffStarved | libs/simulation/src/lib.rs:69-74 | on a non-empty population, selection fails iff no animal has eaten |
| Simulations.Reborn | libs/simulation/src/lib.rs:76-82 | the zip gives min(population, positions) animals, each at its position with speed 0.01, nothing eaten, valid, and with the chromosome of its individual |
| Simulations.OffspringFit | libs/simulation/src/lib.rs:74-81 | the individuals `evolve` creates carry children of two fed animals, whose chromosomes fit the animals' topology |
| Simulations.EvolvedFit | libs/simulation/src/lib.rs:69-74 | every individual of `ga.evolve` over the animals is a child of two fed animals and fits the topology |
| Simulations.NextPopulation | libs/simulation/src/lib.rs:69-74 | the new population fails iff some animal exists and none has eaten, else it has one individual per animal, each a child of two fed animals within the mutation tolerance and fitting the topology |
| Simulations.Simulation.constructor | libs/simulation/src/lib.rs:44-48 | a simulation starts at age 0 and is valid |
| Simulations.Simulation.Random | libs/simulation/src/lib.rs:35-49 | `Simulation::random` starts at age 0 with roulette selection, uniform crossover and `GaussianMutation(0.01, 0.3)`, and a world of 35 animals and 50 foods when generation finishes |
| Simulations.Simulation.ProcessCollisions | libs/simulation/src/lib.rs:109-123 | the nested loop over animals and foods computes exactly `CollideUpTo` |
| Simulations.Simulation.ProcessBrains | libs/simulation/src/lib.rs:88-98 | the loop computes exactly `ThinkAll` and leaves the foods alone |
| Simulations.Simulation.ProcessMovements | libs/simulation/src/lib.rs:100-107 | every animal is moved by `Move`, and the foods stay alone |
| Simulations.Simulation.Evolve | libs/simulation/src/lib.rs:66-85 | age back to 0 and foods untouched; fails iff animals exist and none has eaten (animals then unchanged), else at most min(N, 35) new animals, exactly that many when placement finishes, spread 0.1 apart in the unit square, nothing eaten, speed 0.01, all valid, each carrying a child of two fed old animals |
| Simulations.Simulation.Repopulate | libs/simulation/src/lib.rs:76-82 | fresh positions zipped with the new population replace the animals: animal k carries individual k's chromosome, at a point of the unit square 0.1 from the others, with speed 0.01 and nothing eaten; the foods stay |
| Simulations.Simulation.Step | libs/simulation/src/lib.rs:55-64 | collisions, brains, movements, then age + 1, evolving at `GENERATION_LENGTH`; below it the new animals, foods and generator are exactly `Tick` of the old ones, and at it the foods are, and the ticked animals `t` are evolved: failure iff `t` is non-empty and starved (the animals are then `t`), else at most min(|t|, 35) newborns (exactly that many when placement completes), each with satiation 0, speed 0.01, a position in the box, at least 0.1 apart, and a chromosome that is an Offspring of `t`'s population; the simulation stays valid (age < 2500) |
| Numbers.FloorNat | libs/simulation/src/world.rs:78-79 | the saturating `as usize` cast of `floor` is 0 below 0 and the floor otherwise |
| Numbers.CeilNat | libs/simulation/src/world.rs:68 | the saturating `as usize` cast of `ceil`: 0 for a value not above 0, otherwise the least natural number not below the value |
| Numbers.Clamp | libs/simulation/src/lib.rs:91-95 | `clamp` lands in [lo, hi] and keeps a value already inside |
| Numbers.Wrap | libs/simulation/src/lib.rs:104-105 | `wrap` lands in [lo, hi] and keeps a value already inside |
| Numbers.WrapUnitOver | libs/simulation/src/lib.rs:104-105 | a coordinate just past 1 wraps round to itself minus 1 |
| Numbers.WrapUnitUnder | libs/simulation/src/lib.rs:104-105 | a coordinate just below 0 wraps round to itself plus 1 |
| Geometry.RandomPoint | libs/simulation/src/lib.rs:119 | `rng.gen()` of a point lies in the unit square and takes two draws |

## Left out

- Floating point: f32 is modelled as exact `real`. Rounding, NaN and infinities are not modelled. `SQRT_2`, `PI` and `FRAC_PI_2` are their f32 values written as decimals.
- nalgebra's geometry is not modelled. `Rotation2::rotation_between(...).angle()`, the vector norm, and the sine and cosine in `rotation * vector` are given by the `Geometry.Oracle` parameter. A rotation is kept as its angle, wrapped into [-PI, PI]; the source's `Rotation2::angle` reports (-PI, PI].
- Distances: collisions and `generate_poison` compare distances through their squares (`SqDist`), which is exact for non-negative reals.
- rand's internals are not modelled: ChaCha8, and how `gen_bool`, `gen_range` and `choose_weighted` turn bits into values. Each is one unit draw from the injected tape, mapped into the stated range. `choose_weighted` is modelled as the partition point of the running totals.
  - The sampling of a random `Rotation2` is assumed to be one draw scaled to a full turn.
  - The exact-histogram test of the genetic algorithm and the exact-values test of the network depend on the ChaCha stream and are not modelled.
- GeneticAlgorithms.MutateGene: `gen_bool` panics for a probability outside [0, 1]. The model accepts any chance. `GaussianMutation::new` already rejects such chances.
- `brain.rs` is not part of this model. `Brain` is modelled from its uses: the field `nn`, `random`, `from_chromosome` and `as_chromosome` over the network's weights. The topology it derives from the eye is a parameter here. The model covers only brain topologies with at least one layer and at least two outputs: the steering network turns a vision into the two commands that `process_brains` reads as `response[0]` and `response[1]`. The topology itself comes from `brain.rs`, so the model cannot show that it always has a layer. A topology with no layer is not covered. `propagate` would then return the vision unchanged, and `process_brains` would read its first two bins.
- Worlds.World.GeneratePoison: the source loops until it has enough points and has no attempt bound, so its termination cannot be proved. The model bounds the rounds by an `attempts` parameter and reports in `done` whether the count was reached. Callers that do not finish get fewer points: `World::random`, `Simulation::random` and `evolve`.
- Worlds.World.GeneratePoison: the model requires a positive width, height and `dist`. With other values the source divides by zero or draws from an empty range, which the f32 model does not cover.
- Grid: `generate_poison` fills the grid but never queries it, so the model does not prove that its grid indexes the generated points; `Grid.Get` and `Grid.Add` state what they do for any list of points the grid indexes.
- `RandomQueue`'s `Index` and `IntoIterator` implementations are not modelled. They are never used.
- Chromosome: `len`, `index`, `iter`, `iter_mut` and `from_iter` are the operations of the sequence `genes`. They are not separate members.
- `GeneticAlgorithm::new`, `UniformCrossover::new`/`default` and `RouletteWheelSelection::new`/`default` are the datatype constructors.
- Panics (`assert!`, `expect`, `unwrap`, `panic!`) are modelled as `None`/`Err` results. A failed selection in `Simulation::evolve` is reported as `failure`, with the old animals kept.
- The `world()`, `animals()`, `foods()` and `cells()` accessors are the fields themselves.
- The front end (`wasm-front`), rendering and the animation loop are not modelled.
