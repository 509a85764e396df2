/**
 * The brain of an animal: a network whose weights are its chromosome. Its own file
 * (`brain.rs`) is not part of this model; what it does is fixed by its calls in
 * `animal.rs` and `lib.rs` (the field `nn`, `random`, `from_chromosome`,
 * `as_chromosome`). The topology it derives from the eye is a parameter here.
 */
module Brains {
  import opened Wrappers
  import opened RandomSource
  import NN = NeuralNetworks
  import opened GeneticAlgorithms

  datatype Brain = Brain(nn: NN.Network)

  /** `Brain::random`: a random network for the topology. */
  function Random(rng: Rng, topology: NN.Topology): (r: (Brain, Rng))
    ensures NN.Fits(r.0.nn, topology)
  {
    var (nn, next) := NN.Random(rng, topology);
    (Brain(nn), next)
  }

  /** `Brain::as_chromosome`: the network's weights, in the order `weights()` yields them. */
  function AsChromosome(brain: Brain): (r: Chromosome)
    ensures r.genes == NN.Weights(brain.nn)
  {
    Chromosome(NN.Weights(brain.nn))
  }

  /**
   * `Brain::from_chromosome`: the network rebuilt from the genes, which fails (a panic in
   * the source) unless there are exactly as many genes as the topology has weights.
   */
  function FromChromosome(chromosome: Chromosome, topology: NN.Topology): (r: Result<Brain, NN.DecodeError>)
    ensures r.Ok? <==> |chromosome.genes| == NN.WeightCount(topology)
    ensures r.Ok? ==> NN.Fits(r.value.nn, topology) && AsChromosome(r.value) == chromosome
  {
    match NN.FromWeights(chromosome.genes, topology)
    case Err(e) => Err(e)
    case Ok(nn) => Ok(Brain(nn))
  }

  /** A brain survives the trip through its chromosome unchanged. */
  lemma ChromosomeRoundTrip(brain: Brain, topology: NN.Topology)
    requires NN.Fits(brain.nn, topology)
    ensures FromChromosome(AsChromosome(brain), topology) == Ok(brain)
    ensures |AsChromosome(brain).genes| == NN.WeightCount(topology)
  {
    NN.RoundTrip(brain.nn, topology);
  }
}
