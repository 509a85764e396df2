/**
 * The bridge between the simulation and the genetic algorithm (`animal_individual.rs`):
 * an animal seen as a member of a population, with its satiation as fitness and its
 * brain's weights as chromosome.
 */
module AnimalIndividuals {
  import opened Wrappers
  import opened RandomSource
  import opened Geometry
  import NN = NeuralNetworks
  import opened GeneticAlgorithms
  import Brains
  import Animals

  datatype AnimalIndividual = AnimalIndividual(fitness: real, chromosome: Chromosome)

  /** `Individual::create`: a new member with fitness zero and the given chromosome. */
  function Create(chromosome: Chromosome): (r: AnimalIndividual)
    ensures r.fitness == 0.0 && r.chromosome == chromosome
  {
    AnimalIndividual(0.0, chromosome)
  }

  /** `Individual::chromosome`. */
  function ChromosomeOf(individual: AnimalIndividual): (r: Chromosome)
    ensures r == individual.chromosome
    ensures Create(r).chromosome == individual.chromosome
  {
    individual.chromosome
  }

  /** `Individual::fitness`. */
  function Fitness(individual: AnimalIndividual): (r: real)
    ensures r == individual.fitness
  {
    individual.fitness
  }

  /** The `Individual` implementation the engine is instantiated with. */
  function Ops(): (ops: IndividualOps<AnimalIndividual>)
    ensures forall c :: ops.chromosome(ops.create(c)) == c && ops.fitness(ops.create(c)) == 0.0
  {
    IndividualOps(Fitness, ChromosomeOf, Create)
  }

  /** `AnimalIndividual::from_animal`: fitness is what the animal has eaten. */
  function FromAnimal(animal: Animals.Animal): (r: AnimalIndividual)
    ensures r.fitness == animal.satiation as real
    ensures r.chromosome.genes == NN.Weights(animal.brain.nn)
  {
    AnimalIndividual(animal.satiation as real, Animals.AsChromosome(animal))
  }

  /** `AnimalIndividual::into_animal`: a newborn built from the chromosome at the position. */
  function IntoAnimal(individual: AnimalIndividual, rng: Rng, position: Point, topology: NN.Topology)
    : (r: Result<(Animals.Animal, Rng), NN.DecodeError>)
    ensures r.Ok? <==> |individual.chromosome.genes| == NN.WeightCount(topology)
    ensures r.Ok? ==> r.value.0.position == position && r.value.0.satiation == 0
  {
    Animals.FromChromosome(individual.chromosome, rng, position, topology)
  }

  /**
   * An animal turned into an individual and back keeps its brain; it is reborn at the
   * new position with nothing eaten.
   */
  lemma AnimalRoundTrip(animal: Animals.Animal, rng: Rng, position: Point, topology: NN.Topology)
    requires NN.Fits(animal.brain.nn, topology)
    ensures IntoAnimal(FromAnimal(animal), rng, position, topology).Ok?
    ensures var a := IntoAnimal(FromAnimal(animal), rng, position, topology).value.0;
      a.brain == animal.brain && a.position == position && a.satiation == 0
  {
    Brains.ChromosomeRoundTrip(animal.brain, topology);
  }
}
