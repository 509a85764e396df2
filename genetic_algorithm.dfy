/**
 * The genetic-algorithm engine of `libs/genetic-algorithm`: roulette-wheel selection,
 * uniform crossover and Gaussian mutation over chromosomes of real genes, and `evolve`,
 * which breeds a new population of the same size. The engine is generic over the
 * population's members through the `Individual` capability (`IndividualOps` here).
 */
module GeneticAlgorithms {
  import opened Wrappers
  import opened RandomSource
  import opened Numbers

  /** An ordered sequence of genes; its length, indexing and `from_iter` are the sequence's own. */
  datatype Chromosome = Chromosome(genes: seq<real>)

  /** The `Individual` capability: a member's fitness, its chromosome, and `create`. */
  datatype IndividualOps<!I> = IndividualOps(
    fitness: I -> real,
    chromosome: I -> Chromosome,
    create: Chromosome -> I)

  datatype SelectionMethod = RouletteWheelSelection

  datatype CrossoverMethod = UniformCrossover

  datatype MutationMethod = GaussianMutation(chance: real, coeff: real)

  datatype GeneticAlgorithm = GeneticAlgorithm(
    selection: SelectionMethod,
    crossover: CrossoverMethod,
    mutation: MutationMethod)

  // ---------------------------------------------------------------------------
  // Roulette-wheel selection

  /** The errors of rand's `choose_weighted`, each of which `select` turns into a panic. */
  datatype WeightError = NoItem | InvalidWeight | AllWeightsZero

  predicate NonNegative(ws: seq<real>)
  {
    forall k :: 0 <= k < |ws| ==> ws[k] >= 0.0
  }

  predicate AllZero(ws: seq<real>)
  {
    forall k :: 0 <= k < |ws| ==> ws[k] == 0.0
  }

  /** Non-negative weights have a non-negative total, which is zero exactly when every weight is. */
  lemma {:induction false} SumOfNonNegative(ws: seq<real>)
    requires NonNegative(ws)
    ensures Sum(ws) >= 0.0
    ensures Sum(ws) == 0.0 <==> AllZero(ws)
    decreases |ws|
  {
    if |ws| > 0 {
      SumOfNonNegative(ws[1..]);
      if Sum(ws) == 0.0 {
        assert ws[0] == 0.0;
        forall k | 0 <= k < |ws| ensures ws[k] == 0.0 {
          if k > 0 { assert ws[k] == ws[1..][k - 1]; }
        }
      }
      if AllZero(ws) {
        assert AllZero(ws[1..]);
      }
    }
  }

  /**
   * The index `choose_weighted` returns for a target drawn from [0, total): the first
   * member whose running total exceeds the target (the partition point of the
   * cumulative weights). A member of weight zero is never the one picked.
   */
  function Pick(ws: seq<real>, target: real): (k: nat)
    requires |ws| > 0
    ensures k < |ws|
    ensures NonNegative(ws) && 0.0 <= target < Sum(ws) ==> ws[k] > 0.0
    decreases |ws|
  {
    if |ws| == 1 || target < ws[0] then 0
    else
      assert NonNegative(ws) ==> NonNegative(ws[1..]);
      1 + Pick(ws[1..], target - ws[0])
  }

  /**
   * rand's `choose_weighted`: no item, a negative weight, or a zero total is an error;
   * otherwise one draw scaled to the total picks an index.
   */
  function ChooseWeighted(ws: seq<real>, rng: Rng): (r: Result<(nat, Rng), WeightError>)
    ensures r == Err(NoItem) <==> |ws| == 0
    ensures r == Err(InvalidWeight) <==> |ws| > 0 && !NonNegative(ws)
    ensures r == Err(AllWeightsZero) <==> |ws| > 0 && NonNegative(ws) && AllZero(ws)
    ensures r.Ok? ==> r.value.0 < |ws| && ws[r.value.0] > 0.0
  {
    if |ws| == 0 then Err(NoItem)
    else if !NonNegative(ws) then Err(InvalidWeight)
    else
      SumOfNonNegative(ws);
      if Sum(ws) == 0.0 then Err(AllWeightsZero)
      else
        var (u, next) := NextUnit(rng);
        Ok((Pick(ws, Scale(Sum(ws), u)), next))
  }

  function Fitnesses<I>(ops: IndividualOps<I>, population: seq<I>): (ws: seq<real>)
    ensures |ws| == |population|
  {
    seq(|population|, k requires 0 <= k < |population| => ops.fitness(population[k]))
  }

  /** The populations on which `select` panics: empty, a negative fitness, or all fitness zero. */
  predicate SelectionFails<I>(ops: IndividualOps<I>, population: seq<I>)
  {
    var ws := Fitnesses(ops, population);
    |population| == 0 || !NonNegative(ws) || AllZero(ws)
  }

  /**
   * `RouletteWheelSelection::select`: the index of a member of the population, drawn
   * with probability proportional to fitness; a member with fitness zero is never drawn.
   */
  function Select<I>(selection: SelectionMethod, ops: IndividualOps<I>, population: seq<I>, rng: Rng)
    : (r: Result<(nat, Rng), WeightError>)
    ensures r.Err? <==> SelectionFails(ops, population)
    ensures r.Ok? ==> r.value.0 < |population| && ops.fitness(population[r.value.0]) > 0.0
  {
    match selection
    case RouletteWheelSelection => ChooseWeighted(Fitnesses(ops, population), rng)
  }

  // ---------------------------------------------------------------------------
  // Uniform crossover

  /** The first n genes of the child: a fair coin per gene picks parent A's or parent B's. */
  function CrossPrefix(a: seq<real>, b: seq<real>, rng: Rng, n: nat): (r: (seq<real>, Rng))
    requires n <= |a| && n <= |b|
    ensures |r.0| == n
    ensures forall k :: 0 <= k < n ==> r.0[k] == a[k] || r.0[k] == b[k]
    decreases n
  {
    if n == 0 then ([], rng)
    else
      var (init, mid) := CrossPrefix(a, b, rng, n - 1);
      var (fromA, next) := GenBool(mid, 0.5);
      (init + [if fromA then a[n - 1] else b[n - 1]], next)
  }

  /**
   * `UniformCrossover::crossover`: the parents are zipped, so the child is as long as the
   * shorter parent, and each gene is the gene of one parent at the same index.
   */
  function Crossover(crossover: CrossoverMethod, rng: Rng, parentA: Chromosome, parentB: Chromosome)
    : (r: (Chromosome, Rng))
    ensures |r.0.genes| == Min(|parentA.genes|, |parentB.genes|)
    ensures forall k :: 0 <= k < |r.0.genes| ==>
      r.0.genes[k] == parentA.genes[k] || r.0.genes[k] == parentB.genes[k]
  {
    match crossover
    case UniformCrossover =>
      var (genes, next) := CrossPrefix(parentA.genes, parentB.genes, rng, Min(|parentA.genes|, |parentB.genes|));
      (Chromosome(genes), next)
  }

  // ---------------------------------------------------------------------------
  // Gaussian mutation

  /** `GaussianMutation::new`, which asserts that the chance lies in [0, 1]. */
  function NewGaussianMutation(chance: real, coeff: real): (r: Option<MutationMethod>)
    ensures r.Some? <==> 0.0 <= chance <= 1.0
    ensures r.Some? ==> r.value.chance == chance && r.value.coeff == coeff
  {
    if 0.0 <= chance <= 1.0 then Some(GaussianMutation(chance, coeff)) else None
  }

  /** How far mutation may move a gene: nowhere when the chance is zero, else by |coeff|. */
  function Tolerance(m: MutationMethod): (t: real)
    ensures t >= 0.0
  {
    if m.chance <= 0.0 then 0.0 else Abs(m.coeff)
  }

  /** The step `sign * coeff * u` for a unit draw u: never longer than |coeff|. */
  function Step(positive: bool, coeff: real, u: Unit): (d: real)
    ensures Abs(d) <= Abs(coeff)
  {
    var magnitude := if coeff < 0.0 then Scale(-coeff, u) else if coeff > 0.0 then Scale(coeff, u) else 0.0;
    assert coeff < 0.0 ==> magnitude == -coeff * u;
    var d := coeff * u;
    if positive then d else -d
  }

  /**
   * One gene of `mutate`: a sign is drawn for every gene, and only when the chance draw
   * succeeds is a step of at most |coeff| added.
   */
  function MutateGene(m: MutationMethod, gene: real, rng: Rng): (r: (real, Rng))
    ensures Abs(r.0 - gene) <= Tolerance(m)
  {
    var (positive, mid) := GenBool(rng, 0.5);
    var (hit, rest) := GenBool(mid, m.chance);
    if hit then
      var (u, next) := NextUnit(rest);
      (gene + Step(positive, m.coeff, u), next)
    else (gene, rest)
  }

  /** The first n genes after mutation, in order. */
  function MutatePrefix(m: MutationMethod, genes: seq<real>, rng: Rng, n: nat): (r: (seq<real>, Rng))
    requires n <= |genes|
    ensures |r.0| == n
    ensures forall k :: 0 <= k < n ==> Abs(r.0[k] - genes[k]) <= Tolerance(m)
    decreases n
  {
    if n == 0 then ([], rng)
    else
      var (init, mid) := MutatePrefix(m, genes, rng, n - 1);
      var (gene, next) := MutateGene(m, genes[n - 1], mid);
      (init + [gene], next)
  }

  /**
   * The chromosome `mutate` leaves behind: as long as before, every gene within |coeff|
   * of what it was, and untouched when the chance is zero.
   */
  function Mutated(m: MutationMethod, genes: seq<real>, rng: Rng): (r: (seq<real>, Rng))
    ensures |r.0| == |genes|
    ensures forall k :: 0 <= k < |genes| ==> Abs(r.0[k] - genes[k]) <= Tolerance(m)
    ensures m.chance <= 0.0 ==> r.0 == genes
  {
    MutatePrefix(m, genes, rng, |genes|)
  }

  /** `GaussianMutation::mutate`: changes the genes of the child in place, one after the other. */
  method Mutate(m: MutationMethod, rng: Rng, child: array<real>) returns (next: Rng)
    modifies child
    ensures (child[..], next) == Mutated(m, old(child[..]), rng)
  {
    ghost var genes := child[..];
    next := rng;
    for i := 0 to child.Length
      invariant child[..i] == MutatePrefix(m, genes, rng, i).0
      invariant child[i..] == genes[i..]
      invariant next == MutatePrefix(m, genes, rng, i).1
    {
      assert child[i] == genes[i];
      var (gene, after) := MutateGene(m, child[i], next);
      child[i] := gene;
      next := after;
      assert child[..i + 1] == MutatePrefix(m, genes, rng, i).0 + [gene];
    }
    assert child[..] == child[..child.Length];
  }

  // ---------------------------------------------------------------------------
  // Evolution

  function Genes<I>(ops: IndividualOps<I>, member: I): seq<real>
  {
    ops.chromosome(member).genes
  }

  /** A child of two parents: as long as the shorter, each gene near one parent's gene. */
  predicate ChildOf(child: seq<real>, a: seq<real>, b: seq<real>, tolerance: real)
  {
    && |child| == Min(|a|, |b|)
    && forall k :: 0 <= k < |child| ==> Abs(child[k] - a[k]) <= tolerance || Abs(child[k] - b[k]) <= tolerance
  }

  /** A chromosome bred from two members of the population that both have positive fitness. */
  predicate Offspring<I>(ops: IndividualOps<I>, population: seq<I>, child: Chromosome, tolerance: real)
  {
    exists a, b :: 0 <= a < |population| && 0 <= b < |population|
      && ops.fitness(population[a]) > 0.0 && ops.fitness(population[b]) > 0.0
      && ChildOf(child.genes, Genes(ops, population[a]), Genes(ops, population[b]), tolerance)
  }

  /** One slot of `evolve`: select parent A, then parent B, cross them over, mutate the child. */
  function Breed<I>(ga: GeneticAlgorithm, ops: IndividualOps<I>, population: seq<I>, rng: Rng)
    : (r: Result<(Chromosome, Rng), WeightError>)
    ensures r.Err? <==> SelectionFails(ops, population)
    ensures r.Ok? ==> Offspring(ops, population, r.value.0, Tolerance(ga.mutation))
  {
    match Select(ga.selection, ops, population, rng)
    case Err(e) => Err(e)
    case Ok((a, mid)) =>
      match Select(ga.selection, ops, population, mid)
      case Err(e) => Err(e)
      case Ok((b, mid2)) =>
        var (crossed, mid3) := Crossover(ga.crossover, mid2, ops.chromosome(population[a]), ops.chromosome(population[b]));
        var (genes, next) := Mutated(ga.mutation, crossed.genes, mid3);
        var child := Chromosome(genes);
        assert ChildOf(child.genes, Genes(ops, population[a]), Genes(ops, population[b]), Tolerance(ga.mutation));
        Ok((child, next))
  }

  /** The first n members of the next generation, bred one slot after the other. */
  function EvolvePrefix<I>(ga: GeneticAlgorithm, ops: IndividualOps<I>, population: seq<I>, rng: Rng, n: nat)
    : (r: Result<(seq<I>, Rng), WeightError>)
    ensures n > 0 ==> (r.Err? <==> SelectionFails(ops, population))
    ensures n == 0 ==> r.Ok?
    ensures r.Ok? ==> |r.value.0| == n
    ensures r.Ok? ==> forall k :: 0 <= k < n ==>
      exists child :: r.value.0[k] == ops.create(child) && Offspring(ops, population, child, Tolerance(ga.mutation))
    decreases n
  {
    if n == 0 then Ok(([], rng))
    else
      match EvolvePrefix(ga, ops, population, rng, n - 1)
      case Err(e) => Err(e)
      case Ok((init, mid)) =>
        match Breed(ga, ops, population, mid)
        case Err(e) => Err(e)
        case Ok((child, next)) =>
          Ok((init + [ops.create(child)], next))
  }

  /**
   * `GeneticAlgorithm::evolve`: as many new members as the population has, each created
   * from a fresh child of two selected parents. An empty population gives an empty one
   * without drawing anything; otherwise evolution fails exactly when selection does.
   */
  function Evolve<I>(ga: GeneticAlgorithm, ops: IndividualOps<I>, population: seq<I>, rng: Rng)
    : (r: Result<(seq<I>, Rng), WeightError>)
    ensures r.Err? <==> |population| > 0 && SelectionFails(ops, population)
    ensures r.Ok? ==> |r.value.0| == |population|
    ensures r.Ok? ==> forall k :: 0 <= k < |population| ==>
      exists child :: r.value.0[k] == ops.create(child) && Offspring(ops, population, child, Tolerance(ga.mutation))
  {
    EvolvePrefix(ga, ops, population, rng, |population|)
  }

  predicate SameLength<I>(ops: IndividualOps<I>, population: seq<I>, len: nat)
  {
    forall k :: 0 <= k < |population| ==> |Genes(ops, population[k])| == len
  }

  /** When every parent's chromosome has one length, so does every child's. */
  lemma OffspringLength<I>(ops: IndividualOps<I>, population: seq<I>, child: Chromosome, tolerance: real, len: nat)
    requires SameLength(ops, population, len)
    requires Offspring(ops, population, child, tolerance)
    ensures |child.genes| == len
  {
    var a, b :| 0 <= a < |population| && 0 <= b < |population|
      && ops.fitness(population[a]) > 0.0 && ops.fitness(population[b]) > 0.0
      && ChildOf(child.genes, Genes(ops, population[a]), Genes(ops, population[b]), tolerance);
    assert |Genes(ops, population[a])| == len && |Genes(ops, population[b])| == len;
  }
}
