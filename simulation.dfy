/**
 * The simulation (`libs/simulation/src/lib.rs`): a world, a genetic algorithm and an age
 * counter. Every step lets the animals eat, think and move; after `GENERATION_LENGTH`
 * steps the animals are replaced by a new generation bred from the best eaters.
 */
module Simulations {
  import opened Wrappers
  import opened RandomSource
  import opened Numbers
  import opened Geometry
  import NN = NeuralNetworks
  import opened GeneticAlgorithms
  import Eyes
  import Foods
  import Animals
  import opened AnimalIndividuals
  import opened Worlds

  const SpeedMin: real := 0.001
  const SpeedMax: real := 0.005
  const SpeedAccel: real := 0.2
  /** `FRAC_PI_2`. */
  const RotationAccel: real := Pi / 2.0
  const GenerationLength: nat := 2500

  /**
   * The brain topologies the model covers: at least one layer (an input width and an
   * output width), and two outputs for the speed and rotation commands.
   */
  predicate ValidTopology(topology: NN.Topology)
  {
    |topology| >= 2 && topology[|topology| - 1] >= 2
  }

  /** What every animal of the simulation keeps: a working eye, a brain fitting the topology, a normal heading. */
  predicate AnimalValid(animal: Animals.Animal, topology: NN.Topology)
  {
    Eyes.Valid(animal.eye) && NN.Fits(animal.brain.nn, topology) && -Pi <= animal.rotation <= Pi
  }

  predicate AllValid(animals: seq<Animals.Animal>, topology: NN.Topology)
  {
    forall k :: 0 <= k < |animals| ==> AnimalValid(animals[k], topology)
  }

  // ---------------------------------------------------------------------------
  // Collisions

  /** Within eating distance: `distance <= 0.01`, compared by squares. */
  predicate Near(a: Point, b: Point)
  {
    SqDist(a, b) <= 0.01 * 0.01
  }

  /** How many of the first n foods lie within eating distance of a point. */
  function CountNear(p: Point, foods: seq<Foods.Food>, n: nat): (r: nat)
    requires n <= |foods|
    ensures r <= n
    decreases n
  {
    if n == 0 then 0
    else CountNear(p, foods, n - 1) + (if Near(p, foods[n - 1].position) then 1 else 0)
  }

  /** None of the first n animals is within eating distance of the point. */
  predicate OutOfReach(animals: seq<Animals.Animal>, n: nat, p: Point)
    requires n <= |animals|
    decreases n
  {
    n == 0 || (OutOfReach(animals, n - 1, p) && !Near(animals[n - 1].position, p))
  }

  /**
   * One animal meeting the first n foods in order: each food within 0.01 feeds the animal
   * by one and moves to a random point of the unit square; every other food stays put.
   */
  function FeedUpTo(animal: Animals.Animal, foods: seq<Foods.Food>, rng: Rng, n: nat)
    : (r: (Animals.Animal, seq<Foods.Food>, Rng))
    requires n <= |foods|
    ensures r.0 == animal.(satiation := animal.satiation + CountNear(animal.position, foods, n))
    ensures |r.1| == |foods| && r.1[n..] == foods[n..]
    ensures forall k :: 0 <= k < n && !Near(animal.position, foods[k].position) ==> r.1[k] == foods[k]
    ensures forall k :: 0 <= k < n && Near(animal.position, foods[k].position) ==> InBox(r.1[k].position, 1.0, 1.0)
    ensures forall k :: 0 <= k < |foods| && InBox(foods[k].position, 1.0, 1.0) ==> InBox(r.1[k].position, 1.0, 1.0)
    decreases n
  {
    if n == 0 then (animal, foods, rng)
    else
      var (fed, fs, mid) := FeedUpTo(animal, foods, rng, n - 1);
      assert fs[n - 1] == foods[n - 1] by {
        assert fs[n - 1..][0] == foods[n - 1..][0];
      }
      if Near(fed.position, fs[n - 1].position) then
        var (p, next) := RandomPoint(mid);
        (fed.(satiation := fed.satiation + 1), fs[n - 1 := Foods.Food(p)], next)
      else (fed, fs, mid)
  }

  /**
   * The first n animals having met every food, in order: a food one animal eats has moved
   * before the next animal looks for it. Only satiations and food positions change, and a
   * food none of those animals was near stays where it was.
   */
  function CollideUpTo(animals: seq<Animals.Animal>, foods: seq<Foods.Food>, rng: Rng, n: nat)
    : (r: (seq<Animals.Animal>, seq<Foods.Food>, Rng))
    requires n <= |animals|
    ensures |r.0| == |animals| && |r.1| == |foods|
    ensures r.0[n..] == animals[n..]
    ensures forall k :: 0 <= k < |animals| ==> r.0[k] == animals[k].(satiation := r.0[k].satiation)
    ensures forall k :: 0 <= k < |animals| ==> animals[k].satiation <= r.0[k].satiation <= animals[k].satiation + |foods|
    ensures forall k :: 0 <= k < |foods| && InBox(foods[k].position, 1.0, 1.0) ==> InBox(r.1[k].position, 1.0, 1.0)
    ensures forall j :: 0 <= j < |foods| && OutOfReach(animals, n, foods[j].position) ==> r.1[j] == foods[j]
    decreases n
  {
    if n == 0 then (animals, foods, rng)
    else
      var (init, fs, mid) := CollideUpTo(animals, foods, rng, n - 1);
      assert init[n - 1] == animals[n - 1] by {
        assert init[n - 1..][0] == animals[n - 1..][0];
      }
      var (fed, fs', next) := FeedUpTo(init[n - 1], fs, mid, |fs|);
      (init[n - 1 := fed], fs', next)
  }

  /**
   * Each animal gains exactly one satiation per food within reach of it as it finds the
   * foods, that is, after the animals before it have eaten and moved theirs.
   */
  lemma {:induction false} CollideFeedsEach(animals: seq<Animals.Animal>, foods: seq<Foods.Food>, rng: Rng, n: nat, k: nat)
    requires k < n <= |animals|
    ensures var seen := CollideUpTo(animals, foods, rng, k).1;
      CollideUpTo(animals, foods, rng, n).0[k].satiation
        == animals[k].satiation + CountNear(animals[k].position, seen, |foods|)
    decreases n
  {
    if n == k + 1 {
      CollideLast(animals, foods, rng, n);
    } else {
      CollideKeeps(animals, foods, rng, n, k);
      CollideFeedsEach(animals, foods, rng, n - 1, k);
    }
  }

  /** One more food met: the definition of FeedUpTo, unfolded once. */
  lemma FeedStep(animal: Animals.Animal, foods: seq<Foods.Food>, rng: Rng, j: nat)
    requires j < |foods|
    ensures var (fed, fs, mid) := FeedUpTo(animal, foods, rng, j);
      var (p, next) := RandomPoint(mid);
      FeedUpTo(animal, foods, rng, j + 1)
        == if Near(fed.position, fs[j].position) then (fed.(satiation := fed.satiation + 1), fs[j := Foods.Food(p)], next)
           else (fed, fs, mid)
  {
  }

  /** One more animal fed: the definition of CollideUpTo, unfolded once. */
  lemma CollideStep(animals: seq<Animals.Animal>, foods: seq<Foods.Food>, rng: Rng, i: nat)
    requires i < |animals|
    ensures var (init, fs, mid) := CollideUpTo(animals, foods, rng, i);
      var (fed, fs', next) := FeedUpTo(init[i], fs, mid, |fs|);
      CollideUpTo(animals, foods, rng, i + 1) == (init[i := fed], fs', next)
  {
  }

  /** The n-th animal eats what is within its reach once the animals before it have eaten. */
  lemma CollideLast(animals: seq<Animals.Animal>, foods: seq<Foods.Food>, rng: Rng, n: nat)
    requires 0 < n <= |animals|
    ensures var seen := CollideUpTo(animals, foods, rng, n - 1).1;
      CollideUpTo(animals, foods, rng, n).0[n - 1].satiation
        == animals[n - 1].satiation + CountNear(animals[n - 1].position, seen, |foods|)
  {
    var (init, fs, mid) := CollideUpTo(animals, foods, rng, n - 1);
    assert init[n - 1] == animals[n - 1] by {
      assert init[n - 1..][0] == animals[n - 1..][0];
    }
  }

  /** Later animals eating leaves an earlier animal's satiation as it was. */
  lemma CollideKeeps(animals: seq<Animals.Animal>, foods: seq<Foods.Food>, rng: Rng, n: nat, k: nat)
    requires k < n - 1 && n <= |animals|
    ensures CollideUpTo(animals, foods, rng, n).0[k] == CollideUpTo(animals, foods, rng, n - 1).0[k]
  {
  }

  // ---------------------------------------------------------------------------
  // Brains

  /** The new speed after an acceleration d, kept in [SPEED_MIN, SPEED_MAX]. */
  function Accelerate(speed: real, d: real): real
  {
    Clamp(speed + d, SpeedMin, SpeedMax)
  }

  /** The new heading after a turn by t, as a rotation angle in [-Pi, Pi]. */
  function Turn(rotation: real, t: real): real
  {
    Wrap(rotation + t, -Pi, Pi)
  }

  /**
   * One animal thinking: the network's first two outputs, clamped to +-SPEED_ACCEL and
   * +-ROTATION_ACCEL, change its speed, kept in [SPEED_MIN, SPEED_MAX], and its heading.
   * The outputs are ReLUs, so the change is never negative: the animal speeds up by at most
   * SPEED_ACCEL and turns by at most ROTATION_ACCEL, always the same way round.
   */
  function Think(animal: Animals.Animal, foods: seq<Foods.Food>, geo: Oracle, topology: NN.Topology)
    : (r: Animals.Animal)
    requires ValidTopology(topology) && AnimalValid(animal, topology)
    ensures r == animal.(speed := r.speed, rotation := r.rotation)
    ensures exists d :: 0.0 <= d <= SpeedAccel && r.speed == Accelerate(animal.speed, d)
    ensures exists t :: 0.0 <= t <= RotationAccel && r.rotation == Turn(animal.rotation, t)
    ensures SpeedMin <= r.speed <= SpeedMax
    ensures AnimalValid(r, topology)
  {
    var vision := Eyes.Vision(animal.eye, animal.position, animal.rotation, foods, geo);
    NN.PropagateShape(animal.brain.nn, topology, vision);
    var response := NN.Propagate(animal.brain.nn, vision);
    var speed := Clamp(response[0], -SpeedAccel, SpeedAccel);
    var rotation := Clamp(response[1], -RotationAccel, RotationAccel);
    animal.(speed := Accelerate(animal.speed, speed), rotation := Turn(animal.rotation, rotation))
  }

  /** The outputs of a ReLU network are never negative, so thinking never slows an animal down. */
  lemma ThinkingNeverSlows(animal: Animals.Animal, foods: seq<Foods.Food>, geo: Oracle, topology: NN.Topology)
    requires ValidTopology(topology) && AnimalValid(animal, topology)
    requires SpeedMin <= animal.speed <= SpeedMax
    ensures Think(animal, foods, geo, topology).speed >= animal.speed
  {
    var vision := Eyes.Vision(animal.eye, animal.position, animal.rotation, foods, geo);
    NN.PropagateShape(animal.brain.nn, topology, vision);
    assert NN.Propagate(animal.brain.nn, vision)[0] >= 0.0;
  }

  function ThinkAll(animals: seq<Animals.Animal>, foods: seq<Foods.Food>, geo: Oracle, topology: NN.Topology)
    : (r: seq<Animals.Animal>)
    requires ValidTopology(topology) && AllValid(animals, topology)
    ensures |r| == |animals| && AllValid(r, topology)
    ensures forall k :: 0 <= k < |r| ==> r[k] == Think(animals[k], foods, geo, topology)
  {
    seq(|animals|, k requires 0 <= k < |animals| => Think(animals[k], foods, geo, topology))
  }

  // ---------------------------------------------------------------------------
  // Movements

  /**
   * One animal moving: `speed` along its heading (the rotation applied to (0, speed)),
   * then each coordinate wrapped back into [0, 1].
   */
  function Move(animal: Animals.Animal, geo: Oracle): (r: Animals.Animal)
    ensures r == animal.(position := r.position)
    ensures 0.0 <= r.position.x <= 1.0 && 0.0 <= r.position.y <= 1.0
    ensures var x, y := animal.position.x - geo.sin(animal.rotation) * animal.speed,
                        animal.position.y + geo.cos(animal.rotation) * animal.speed;
      0.0 <= x <= 1.0 && 0.0 <= y <= 1.0 ==> r.position == Point(x, y)
  {
    var x := animal.position.x - geo.sin(animal.rotation) * animal.speed;
    var y := animal.position.y + geo.cos(animal.rotation) * animal.speed;
    animal.(position := Point(Wrap(x, 0.0, 1.0), Wrap(y, 0.0, 1.0)))
  }

  function MoveAll(animals: seq<Animals.Animal>, geo: Oracle): (r: seq<Animals.Animal>)
    ensures |r| == |animals|
    ensures forall k :: 0 <= k < |r| ==> r[k] == Move(animals[k], geo)
  {
    seq(|animals|, k requires 0 <= k < |animals| => Move(animals[k], geo))
  }

  /**
   * One step short of the age check: collisions, then brains on the foods as the collisions
   * left them, then movements. Every animal stays valid and no animal or food is added.
   */
  function Tick(animals: seq<Animals.Animal>, foods: seq<Foods.Food>, rng: Rng, geo: Oracle, topology: NN.Topology)
    : (r: (seq<Animals.Animal>, seq<Foods.Food>, Rng))
    requires ValidTopology(topology) && AllValid(animals, topology)
    ensures |r.0| == |animals| && |r.1| == |foods| && AllValid(r.0, topology)
    ensures forall k :: 0 <= k < |r.0| ==>
      r.0[k].satiation >= animals[k].satiation && r.0[k].eye == animals[k].eye && r.0[k].brain == animals[k].brain
  {
    var (fed, fs, next) := CollideUpTo(animals, foods, rng, |animals|);
    assert AllValid(fed, topology) by {
      forall k | 0 <= k < |fed|
        ensures AnimalValid(fed[k], topology)
      {
        assert fed[k] == animals[k].(satiation := fed[k].satiation);
      }
    }
    (MoveAll(ThinkAll(fed, fs, geo, topology), geo), fs, next)
  }

  // ---------------------------------------------------------------------------
  // Evolution

  /** Every animal as an individual, with its satiation as fitness. */
  function Population(animals: seq<Animals.Animal>): (r: seq<AnimalIndividual>)
    ensures |r| == |animals|
    ensures forall k :: 0 <= k < |r| ==> r[k] == FromAnimal(animals[k])
  {
    seq(|animals|, k requires 0 <= k < |animals| => FromAnimal(animals[k]))
  }

  /** Satiations are never negative, so selection fails on animals only when none has eaten. */
  lemma SelectionFailsIffStarved(animals: seq<Animals.Animal>)
    requires |animals| > 0
    ensures SelectionFails(Ops(), Population(animals)) <==> forall k :: 0 <= k < |animals| ==> animals[k].satiation == 0
  {
    var ws := Fitnesses(Ops(), Population(animals));
    assert forall k :: 0 <= k < |ws| ==> ws[k] == animals[k].satiation as real;
    assert NonNegative(ws);
  }

  /**
   * The new animals of `evolve`: the new population zipped with the fresh positions, so
   * as many as the shorter of the two; each is reborn at its position, nothing eaten.
   */
  function Reborn(population: seq<AnimalIndividual>, positions: seq<Point>, rng: Rng, topology: NN.Topology)
    : (r: (seq<Animals.Animal>, Rng))
    requires forall k :: 0 <= k < |population| ==> |population[k].chromosome.genes| == NN.WeightCount(topology)
    ensures |r.0| == Min(|population|, |positions|)
    ensures forall k :: 0 <= k < |r.0| ==>
      && r.0[k].position == positions[k] && r.0[k].satiation == 0 && r.0[k].speed == 0.01
      && AnimalValid(r.0[k], topology)
      && Animals.AsChromosome(r.0[k]) == population[k].chromosome
    decreases |population|
  {
    var n := Min(|population|, |positions|);
    if n == 0 then ([], rng)
    else
      var (init, mid) := Reborn(population[..n - 1], positions[..n - 1], rng, topology);
      match IntoAnimal(population[n - 1], mid, positions[n - 1], topology)
      case Ok((animal, next)) => (init + [animal], next)
  }

  /** Parents whose brains fit the topology breed children whose chromosomes fit it too. */
  lemma OffspringFit(animals: seq<Animals.Animal>, offspring: seq<AnimalIndividual>, tolerance: real, topology: NN.Topology)
    requires AllValid(animals, topology)
    requires forall k :: 0 <= k < |offspring| ==>
      exists child :: offspring[k] == Ops().create(child) && Offspring(Ops(), Population(animals), child, tolerance)
    ensures forall k :: 0 <= k < |offspring| ==> |offspring[k].chromosome.genes| == NN.WeightCount(topology)
    ensures forall k :: 0 <= k < |offspring| ==> Offspring(Ops(), Population(animals), offspring[k].chromosome, tolerance)
  {
    var population := Population(animals);
    forall k | 0 <= k < |population|
      ensures |Genes(Ops(), population[k])| == NN.WeightCount(topology)
    {
      NN.RoundTrip(animals[k].brain.nn, topology);
    }
    assert SameLength(Ops(), population, NN.WeightCount(topology));
    forall k | 0 <= k < |offspring|
      ensures |offspring[k].chromosome.genes| == NN.WeightCount(topology)
      ensures Offspring(Ops(), Population(animals), offspring[k].chromosome, tolerance)
    {
      assert exists child :: offspring[k] == Ops().create(child) && Offspring(Ops(), Population(animals), child, tolerance);
      var child :| offspring[k] == Ops().create(child) && Offspring(Ops(), Population(animals), child, tolerance);
      OffspringLength(Ops(), population, child, tolerance, NN.WeightCount(topology));
    }
  }

  /** What `evolve` breeds from valid animals: children of theirs that fit the topology. */
  lemma EvolvedFit(ga: GeneticAlgorithm, animals: seq<Animals.Animal>, rng: Rng, topology: NN.Topology)
    requires AllValid(animals, topology)
    ensures var outcome := GeneticAlgorithms.Evolve(ga, Ops(), Population(animals), rng);
      outcome.Ok? ==> forall k :: 0 <= k < |outcome.value.0| ==>
        && |outcome.value.0[k].chromosome.genes| == NN.WeightCount(topology)
        && Offspring(Ops(), Population(animals), outcome.value.0[k].chromosome, Tolerance(ga.mutation))
  {
    var outcome := GeneticAlgorithms.Evolve(ga, Ops(), Population(animals), rng);
    if outcome.Ok? {
      OffspringFit(animals, outcome.value.0, Tolerance(ga.mutation), topology);
    }
  }

  /**
   * The population `GeneticAlgorithm::evolve` breeds from the animals: it fails exactly
   * when there are animals and none has eaten, and otherwise has one individual per
   * animal, each with a chromosome that fits the topology.
   */
  function NextPopulation(ga: GeneticAlgorithm, animals: seq<Animals.Animal>, rng: Rng, topology: NN.Topology)
    : (r: Result<(seq<AnimalIndividual>, Rng), WeightError>)
    requires AllValid(animals, topology)
    ensures r.Err? <==> |animals| > 0 && forall k :: 0 <= k < |animals| ==> animals[k].satiation == 0
    ensures r.Ok? ==> |r.value.0| == |animals|
    ensures r.Ok? ==> forall k :: 0 <= k < |r.value.0| ==>
      |r.value.0[k].chromosome.genes| == NN.WeightCount(topology)
    ensures r.Ok? ==> forall k :: 0 <= k < |r.value.0| ==>
      Offspring(Ops(), Population(animals), r.value.0[k].chromosome, Tolerance(ga.mutation))
  {
    var outcome := GeneticAlgorithms.Evolve(ga, Ops(), Population(animals), rng);
    assert |animals| > 0 ==> (SelectionFails(Ops(), Population(animals)) <==>
      forall k :: 0 <= k < |animals| ==> animals[k].satiation == 0) by {
      if |animals| > 0 {
        SelectionFailsIffStarved(animals);
      }
    }
    EvolvedFit(ga, animals, rng, topology);
    outcome
  }

  class Simulation {
    const world: World
    const ga: GeneticAlgorithm
    const topology: NN.Topology
    var age: nat

    /** What holds between steps: the age below the generation length, and every animal valid. */
    predicate Valid()
      reads this, world
    {
      age < GenerationLength && ValidTopology(topology) && AllValid(world.animals, topology)
    }

    constructor (world: World, ga: GeneticAlgorithm, topology: NN.Topology)
      requires ValidTopology(topology) && AllValid(world.animals, topology)
      ensures this.world == world && this.ga == ga && this.topology == topology
      ensures age == 0 && Valid()
    {
      this.world := world;
      this.ga := ga;
      this.topology := topology;
      age := 0;
    }

    /**
     * `Simulation::random`: a random world and a genetic algorithm with roulette-wheel
     * selection, uniform crossover and Gaussian mutation of chance 0.01 and coefficient 0.3.
     */
    static method Random(rng: Rng, topology: NN.Topology, attempts: nat) returns (sim: Simulation, next: Rng, done: bool)
      requires ValidTopology(topology)
      ensures fresh(sim) && fresh(sim.world)
      ensures sim.age == 0 && sim.topology == topology && sim.Valid()
      ensures sim.ga == GeneticAlgorithm(RouletteWheelSelection, UniformCrossover, GaussianMutation(0.01, 0.3))
      ensures done ==> |sim.world.animals| == 35 && |sim.world.foods| == 50
    {
      var world := new World();
      next, done := world.Random(rng, topology, attempts);
      var ga := GeneticAlgorithm(RouletteWheelSelection, UniformCrossover, NewGaussianMutation(0.01, 0.3).value);
      sim := new Simulation(world, ga, topology);
    }

    /**
     * `Simulation::process_collisions`: every animal, in order, meets every food, in
     * order; only satiations and food positions change.
     */
    method ProcessCollisions(rng: Rng) returns (next: Rng)
      modifies world
      ensures (world.animals, world.foods, next) == CollideUpTo(old(world.animals), old(world.foods), rng, |old(world.animals)|)
    {
      ghost var animals0, foods0 := world.animals, world.foods;
      next := rng;
      var i := 0;
      while i < |world.animals|
        invariant |world.animals| == |animals0| && i <= |animals0|
        invariant (world.animals, world.foods, next) == CollideUpTo(animals0, foods0, rng, i)
      {
        ghost var animalsBefore, foodsBefore, rngBefore := world.animals, world.foods, next;
        var animal := world.animals[i];
        var j := 0;
        while j < |world.foods|
          invariant world.animals == animalsBefore
          invariant |world.foods| == |foodsBefore| && j <= |foodsBefore|
          invariant (animal, world.foods, next) == FeedUpTo(animalsBefore[i], foodsBefore, rngBefore, j)
        {
          FeedStep(animalsBefore[i], foodsBefore, rngBefore, j);
          if Near(animal.position, world.foods[j].position) {
            animal := animal.(satiation := animal.satiation + 1);
            var (p, after) := RandomPoint(next);
            world.foods := world.foods[j := Foods.Food(p)];
            next := after;
          }
          assert (animal, world.foods, next) == FeedUpTo(animalsBefore[i], foodsBefore, rngBefore, j + 1);
          j := j + 1;
        }
        assert (animal, world.foods, next) == FeedUpTo(animalsBefore[i], foodsBefore, rngBefore, |foodsBefore|);
        CollideStep(animals0, foods0, rng, i);
        world.animals := world.animals[i := animal];
        i := i + 1;
      }
    }

    /**
     * `Simulation::process_brains`: every animal looks at the foods and thinks; the foods
     * stay as they are.
     */
    method ProcessBrains(geo: Oracle)
      requires ValidTopology(topology) && AllValid(world.animals, topology)
      modifies world
      ensures world.foods == old(world.foods)
      ensures world.animals == ThinkAll(old(world.animals), world.foods, geo, topology)
    {
      ghost var animals0 := world.animals;
      var i := 0;
      while i < |world.animals|
        invariant |world.animals| == |animals0| && i <= |animals0|
        invariant world.foods == old(world.foods)
        invariant world.animals[..i] == ThinkAll(animals0[..i], world.foods, geo, topology)
        invariant world.animals[i..] == animals0[i..]
      {
        var animal := world.animals[i];
        var vision := Eyes.ProcessVision(animal.eye, animal.position, animal.rotation, world.foods, geo);
        NN.PropagateShape(animal.brain.nn, topology, vision);
        var response := NN.Propagate(animal.brain.nn, vision);
        var speed := Clamp(response[0], -SpeedAccel, SpeedAccel);
        var rotation := Clamp(response[1], -RotationAccel, RotationAccel);
        animal := animal.(speed := Accelerate(animal.speed, speed), rotation := Turn(animal.rotation, rotation));
        world.animals := world.animals[i := animal];
        i := i + 1;
      }
      assert animals0[..i] == animals0;
    }

    /** `Simulation::process_movements`: every animal moves; the foods stay as they are. */
    method ProcessMovements(geo: Oracle)
      modifies world
      ensures world.foods == old(world.foods)
      ensures |world.animals| == |old(world.animals)|
      ensures forall k :: 0 <= k < |world.animals| ==> world.animals[k] == Move(old(world.animals[k]), geo)
      ensures world.animals == MoveAll(old(world.animals), geo)
    {
      var i := 0;
      while i < |world.animals|
        invariant |world.animals| == |old(world.animals)| && i <= |world.animals|
        invariant world.foods == old(world.foods)
        invariant forall k :: 0 <= k < i ==> world.animals[k] == Move(old(world.animals[k]), geo)
        invariant forall k :: i <= k < |world.animals| ==> world.animals[k] == old(world.animals[k])
      {
        world.animals := world.animals[i := Move(world.animals[i], geo)];
        i := i + 1;
      }
    }

    /**
     * `Simulation::evolve`: the age goes back to 0 and the animals are replaced by the new
     * generation, placed on fresh points at least 0.1 apart; the foods are not touched.
     * Selection panics (here: `failure`) exactly when there are animals and none has eaten;
     * the animals then stay.
     */
    method Evolve(rng: Rng, attempts: nat) returns (next: Rng, failure: Option<WeightError>, done: bool)
      requires ValidTopology(topology) && AllValid(world.animals, topology)
      modifies this, world
      ensures age == 0
      ensures world.foods == old(world.foods)
      ensures failure.Some? <==> |old(world.animals)| > 0 && forall k :: 0 <= k < |old(world.animals)| ==> old(world.animals)[k].satiation == 0
      ensures failure.Some? ==> world.animals == old(world.animals)
      ensures failure.None? ==> |world.animals| <= Min(|old(world.animals)|, 35)
      ensures failure.None? && done ==> |world.animals| == Min(|old(world.animals)|, 35)
      ensures failure.None? ==> forall k :: 0 <= k < |world.animals| ==>
        && world.animals[k].satiation == 0 && world.animals[k].speed == 0.01
        && InBox(world.animals[k].position, 1.0, 1.0)
        && Offspring(Ops(), Population(old(world.animals)), Animals.AsChromosome(world.animals[k]), Tolerance(ga.mutation))
      ensures failure.None? ==> forall i, j :: 0 <= i < j < |world.animals| ==>
        SqDist(world.animals[i].position, world.animals[j].position) > 0.1 * 0.1
      ensures AllValid(world.animals, topology)
    {
      age := 0;
      var outcome := NextPopulation(ga, world.animals, rng, topology);
      if outcome.Err? {
        next, failure, done := rng, Some(outcome.error), true;
        return;
      }
      var offspring, r1 := outcome.value.0, outcome.value.1;
      next, done := Repopulate(offspring, r1, attempts);
      failure := None;
    }

    /**
     * The second half of `evolve`: fresh points at least 0.1 apart, zipped with the new
     * population into newborn animals that replace the old ones.
     */
    method Repopulate(offspring: seq<AnimalIndividual>, rng: Rng, attempts: nat) returns (next: Rng, done: bool)
      requires forall k :: 0 <= k < |offspring| ==> |offspring[k].chromosome.genes| == NN.WeightCount(topology)
      modifies world
      ensures world.foods == old(world.foods)
      ensures |world.animals| <= |offspring| && |world.animals| <= 35
      ensures done ==> |world.animals| == Min(|offspring|, 35)
      ensures forall k :: 0 <= k < |world.animals| ==>
        && world.animals[k].satiation == 0 && world.animals[k].speed == 0.01
        && InBox(world.animals[k].position, 1.0, 1.0)
        && Animals.AsChromosome(world.animals[k]) == offspring[k].chromosome
      ensures forall i, j :: 0 <= i < j < |world.animals| ==>
        SqDist(world.animals[i].position, world.animals[j].position) > 0.1 * 0.1
      ensures AllValid(world.animals, topology)
    {
      var positions, r2, placed := world.GeneratePoison(rng, 1.0, 1.0, 35, 0.1, attempts);
      var (animals, r3) := Reborn(offspring, positions, r2, topology);
      world.animals := animals;
      next, done := r3, placed;
    }

    /**
     * `Simulation::step`: collisions, brains, movements, then one more tick of age; the
     * tick that reaches `GENERATION_LENGTH` evolves, which sets the age back to 0. So the
     * age stays below `GENERATION_LENGTH` between steps.
     */
    method Step(rng: Rng, geo: Oracle, attempts: nat) returns (next: Rng, failure: Option<WeightError>, done: bool)
      requires Valid()
      modifies this, world
      ensures Valid()
      ensures old(age) + 1 < GenerationLength ==> age == old(age) + 1 && failure.None? && done
      ensures old(age) + 1 >= GenerationLength ==> age == 0
      ensures |world.foods| == |old(world.foods)|
      ensures old(age) + 1 < GenerationLength ==> |world.animals| == |old(world.animals)|
      ensures old(age) + 1 < GenerationLength ==>
        (world.animals, world.foods, next) == Tick(old(world.animals), old(world.foods), rng, geo, topology)
      ensures old(age) + 1 >= GenerationLength ==> world.foods == Tick(old(world.animals), old(world.foods), rng, geo, topology).1
      // At the generation boundary the ticked animals are evolved into the next generation.
      ensures old(age) + 1 >= GenerationLength ==> var t := Tick(old(world.animals), old(world.foods), rng, geo, topology).0;
        && (failure.Some? <==> |t| > 0 && forall k :: 0 <= k < |t| ==> t[k].satiation == 0)
        && (failure.Some? ==> world.animals == t)
        && (failure.None? ==> |world.animals| <= Min(|t|, 35))
        && (failure.None? && done ==> |world.animals| == Min(|t|, 35))
        && (failure.None? ==> forall k :: 0 <= k < |world.animals| ==>
              && world.animals[k].satiation == 0 && world.animals[k].speed == 0.01
              && InBox(world.animals[k].position, 1.0, 1.0)
              && Offspring(Ops(), Population(t), Animals.AsChromosome(world.animals[k]), Tolerance(ga.mutation)))
        && (failure.None? ==> forall i, j :: 0 <= i < j < |world.animals| ==>
              SqDist(world.animals[i].position, world.animals[j].position) > 0.1 * 0.1)
    {
      next := ProcessCollisions(rng);
      ProcessBrains(geo);
      ProcessMovements(geo);
      age := age + 1;
      if age >= GenerationLength {
        next, failure, done := Evolve(next, attempts);
      } else {
        failure, done := None, true;
      }
    }
  }
}
