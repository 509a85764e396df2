/**
 * An animal (`animal.rs`): where it is, where it heads, how fast it goes, what it sees
 * with, what it thinks with, and how much it has eaten.
 */
module Animals {
  import opened Wrappers
  import opened RandomSource
  import opened Numbers
  import opened Geometry
  import NN = NeuralNetworks
  import opened GeneticAlgorithms
  import Eyes
  import Brains

  /** The rotation is kept as its angle, in [-PI, PI] as `Rotation2::angle` reports it. */
  datatype Animal = Animal(
    position: Point,
    rotation: real,
    speed: real,
    eye: Eyes.Eye,
    brain: Brains.Brain,
    satiation: nat)

  /** `rng.gen::<Rotation2<f32>>()`: one unit draw turned into a full turn, as an angle. */
  function RandomRotation(rng: Rng): (r: (real, Rng))
    ensures -Pi <= r.0 <= Pi
    ensures r.1.pos == rng.pos + 1
  {
    var (u, next) := NextUnit(rng);
    (Wrap(Scale(2.0 * Pi, u), -Pi, Pi), next)
  }

  /** `Animal::new`: the default eye, a random brain for the topology, nothing eaten yet. */
  function New(position: Point, rotation: real, speed: real, rng: Rng, topology: NN.Topology): (r: (Animal, Rng))
    ensures r.0.position == position && r.0.rotation == rotation && r.0.speed == speed
    ensures r.0.eye == Eyes.Default() && r.0.satiation == 0
    ensures NN.Fits(r.0.brain.nn, topology)
  {
    var eye := Eyes.Default();
    var (brain, next) := Brains.Random(rng, topology);
    (Animal(position, rotation, speed, eye, brain, 0), next)
  }

  /** `Animal::position`. */
  function Position(animal: Animal): (r: Point)
    ensures r == animal.position
  {
    animal.position
  }

  /** `Animal::rotation`. */
  function Rotation(animal: Animal): (r: real)
    ensures r == animal.rotation
  {
    animal.rotation
  }

  /** `Animal::as_chromosome`: the brain's chromosome, that is, the network's weights. */
  function AsChromosome(animal: Animal): (r: Chromosome)
    ensures r.genes == NN.Weights(animal.brain.nn)
  {
    Brains.AsChromosome(animal.brain)
  }

  /**
   * `Animal::from_chromosome`: a newborn at the given position with a random heading,
   * speed 0.01, nothing eaten, the default eye and the brain the chromosome encodes. It
   * fails, before any draw, when the chromosome does not fit the topology.
   */
  function FromChromosome(chromosome: Chromosome, rng: Rng, position: Point, topology: NN.Topology)
    : (r: Result<(Animal, Rng), NN.DecodeError>)
    ensures r.Ok? <==> |chromosome.genes| == NN.WeightCount(topology)
    ensures r.Ok? ==> var a := r.value.0;
      && a.position == position && a.speed == 0.01 && a.satiation == 0
      && a.eye == Eyes.Default() && -Pi <= a.rotation <= Pi
      && NN.Fits(a.brain.nn, topology) && AsChromosome(a) == chromosome
  {
    var eye := Eyes.Default();
    match Brains.FromChromosome(chromosome, topology)
    case Err(e) => Err(e)
    case Ok(brain) =>
      var (rotation, next) := RandomRotation(rng);
      Ok((Animal(position, rotation, 0.01, eye, brain, 0), next))
  }
}
