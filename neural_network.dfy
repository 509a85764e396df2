/**
 * The feed-forward network of `libs/neural-network`: layers of ReLU neurons, built at
 * random for a topology, evaluated by folding the layers over the input, and flattened to
 * and rebuilt from a stream of weights (per layer, per neuron: the bias, then the weights).
 */
module NeuralNetworks {
  import opened Wrappers
  import opened RandomSource
  import opened Numbers

  datatype Neuron = Neuron(bias: real, weights: seq<real>)

  datatype Layer = Layer(neurons: seq<Neuron>)

  datatype Network = Network(layers: seq<Layer>)

  /** The widths of the layers, input layer first (a slice of `LayerTopology`). */
  type Topology = seq<nat>

  /** One layer per adjacent pair of widths (`windows(2)`); none for fewer than two widths. */
  function LayerCount(topology: Topology): nat
  {
    if |topology| < 2 then 0 else |topology| - 1
  }

  predicate LayerFits(layer: Layer, inputs: nat, outputs: nat)
  {
    && |layer.neurons| == outputs
    && forall k :: 0 <= k < outputs ==> |layer.neurons[k].weights| == inputs
  }

  /** Layer i has topology[i+1] neurons, each with topology[i] weights (and one bias). */
  predicate Fits(network: Network, topology: Topology)
  {
    && |network.layers| == LayerCount(topology)
    && forall i :: 0 <= i < |network.layers| ==> LayerFits(network.layers[i], topology[i], topology[i + 1])
  }

  predicate InUnitRange(x: real)
  {
    -1.0 <= x < 1.0
  }

  predicate NeuronBounded(neuron: Neuron)
  {
    InUnitRange(neuron.bias) && forall j :: 0 <= j < |neuron.weights| ==> InUnitRange(neuron.weights[j])
  }

  predicate LayerBounded(layer: Layer)
  {
    forall k :: 0 <= k < |layer.neurons| ==> NeuronBounded(layer.neurons[k])
  }

  /** Every bias and weight lies in [-1, 1), the range `random` draws from. */
  predicate Bounded(network: Network)
  {
    forall i :: 0 <= i < |network.layers| ==> LayerBounded(network.layers[i])
  }

  // ---------------------------------------------------------------------------
  // Random construction

  /** `count` draws from [-1, 1), in order. */
  function DrawWeights(rng: Rng, count: nat): (r: (seq<real>, Rng))
    ensures |r.0| == count
    ensures forall j :: 0 <= j < count ==> InUnitRange(r.0[j])
    decreases count
  {
    if count == 0 then ([], rng)
    else
      var (init, mid) := DrawWeights(rng, count - 1);
      var (w, next) := GenRange(mid, -1.0, 1.0);
      (init + [w], next)
  }

  /** `Neuron::random`: the weights are drawn first, then the bias. */
  function NeuronRandom(rng: Rng, inputs: nat): (r: (Neuron, Rng))
    ensures |r.0.weights| == inputs
    ensures NeuronBounded(r.0)
  {
    var (weights, mid) := DrawWeights(rng, inputs);
    var (bias, next) := GenRange(mid, -1.0, 1.0);
    (Neuron(bias, weights), next)
  }

  /** `Layer::random`: `count` neurons, drawn one after the other. */
  function NeuronsRandom(rng: Rng, inputs: nat, count: nat): (r: (seq<Neuron>, Rng))
    ensures LayerFits(Layer(r.0), inputs, count)
    ensures LayerBounded(Layer(r.0))
    decreases count
  {
    if count == 0 then ([], rng)
    else
      var (init, mid) := NeuronsRandom(rng, inputs, count - 1);
      var (neuron, next) := NeuronRandom(mid, inputs);
      (init + [neuron], next)
  }

  function LayersRandom(rng: Rng, topology: Topology): (r: (seq<Layer>, Rng))
    ensures Fits(Network(r.0), topology)
    ensures Bounded(Network(r.0))
    decreases |topology|
  {
    if |topology| < 2 then ([], rng)
    else
      var (neurons, mid) := NeuronsRandom(rng, topology[0], topology[1]);
      var (rest, next) := LayersRandom(mid, topology[1..]);
      ([Layer(neurons)] + rest, next)
  }

  /** `Network::random`: a network of the given shape with every value drawn from [-1, 1). */
  function Random(rng: Rng, topology: Topology): (r: (Network, Rng))
    ensures Fits(r.0, topology)
    ensures Bounded(r.0)
  {
    var (layers, next) := LayersRandom(rng, topology);
    (Network(layers), next)
  }

  // ---------------------------------------------------------------------------
  // Inference

  /** The products of `zip` followed by `map`: one per pair, as many as the shorter sequence. */
  function Products(input: seq<real>, weights: seq<real>): (r: seq<real>)
    ensures |r| == Min(|input|, |weights|)
    decreases |input|
  {
    if |input| == 0 || |weights| == 0 then []
    else [input[0] * weights[0]] + Products(input[1..], weights[1..])
  }

  /** The dot product over `zip`: pairs past the shorter sequence are dropped. */
  function Dot(input: seq<real>, weights: seq<real>): (r: real)
    ensures r == Sum(Products(input, weights))
    decreases |input|
  {
    if |input| == 0 || |weights| == 0 then 0.0
    else
      var products := Products(input, weights);
      assert products[1..] == Products(input[1..], weights[1..]);
      input[0] * weights[0] + Dot(input[1..], weights[1..])
  }

  /** A length mismatch is truncated: only the common prefix of input and weights counts. */
  lemma {:induction false} DotTruncates(input: seq<real>, weights: seq<real>)
    ensures var m := Min(|input|, |weights|); Dot(input, weights) == Dot(input[..m], weights[..m])
    decreases |input|
  {
    var m := Min(|input|, |weights|);
    if m > 0 {
      DotTruncates(input[1..], weights[1..]);
      assert input[..m][1..] == input[1..][..m - 1];
      assert weights[..m][1..] == weights[1..][..m - 1];
    }
  }

  /** `Neuron::propagate`: ReLU of the bias plus the weighted sum. */
  function NeuronPropagate(neuron: Neuron, input: seq<real>): (r: real)
    ensures r >= 0.0 && r >= neuron.bias + Dot(input, neuron.weights)
    ensures r == 0.0 || r == neuron.bias + Dot(input, neuron.weights)
  {
    var s := neuron.bias + Dot(input, neuron.weights);
    if s > 0.0 then s else 0.0
  }

  /** `Layer::propagate`: every neuron sees the whole input. */
  function LayerPropagate(layer: Layer, input: seq<real>): (r: seq<real>)
    ensures |r| == |layer.neurons|
    ensures forall k :: 0 <= k < |r| ==> r[k] == NeuronPropagate(layer.neurons[k], input)
  {
    seq(|layer.neurons|, k requires 0 <= k < |layer.neurons| => NeuronPropagate(layer.neurons[k], input))
  }

  /** The fold of `Network::propagate`: each layer's output is the next layer's input. */
  function PropagateLayers(layers: seq<Layer>, input: seq<real>): (r: seq<real>)
    ensures |layers| == 0 ==> r == input
    ensures |layers| > 0 ==> |r| == |layers[|layers| - 1].neurons|
    ensures |layers| > 0 ==> forall k :: 0 <= k < |r| ==> r[k] >= 0.0
    decreases |layers|
  {
    if |layers| == 0 then input
    else PropagateLayers(layers[1..], LayerPropagate(layers[0], input))
  }

  function Propagate(network: Network, input: seq<real>): (r: seq<real>)
    ensures |network.layers| == 0 ==> r == input
    ensures |network.layers| > 0 ==> |r| == |network.layers[|network.layers| - 1].neurons|
    ensures |network.layers| > 0 ==> forall k :: 0 <= k < |r| ==> r[k] >= 0.0
  {
    PropagateLayers(network.layers, input)
  }

  /**
   * The output of a network built for a topology: the input itself when there is no
   * layer, otherwise one non-negative value per neuron of the last layer.
   */
  lemma PropagateShape(network: Network, topology: Topology, input: seq<real>)
    requires Fits(network, topology)
    ensures LayerCount(topology) == 0 ==> Propagate(network, input) == input
    ensures LayerCount(topology) > 0 ==>
      && |Propagate(network, input)| == topology[|topology| - 1]
      && forall k :: 0 <= k < topology[|topology| - 1] ==> Propagate(network, input)[k] >= 0.0
  {
  }

  // ---------------------------------------------------------------------------
  // Flattening

  function NeuronWeights(neuron: Neuron): seq<real>
  {
    [neuron.bias] + neuron.weights
  }

  function NeuronsWeights(neurons: seq<Neuron>): seq<real>
    decreases |neurons|
  {
    if |neurons| == 0 then [] else NeuronWeights(neurons[0]) + NeuronsWeights(neurons[1..])
  }

  function LayersWeights(layers: seq<Layer>): seq<real>
    decreases |layers|
  {
    if |layers| == 0 then [] else NeuronsWeights(layers[0].neurons) + LayersWeights(layers[1..])
  }

  /** `Network::weights`: per layer, per neuron, the bias and then the weights in order. */
  function Weights(network: Network): (r: seq<real>)
    ensures forall topology :: Fits(network, topology) ==> |r| == WeightCount(topology)
  {
    assert forall topology :: Fits(network, topology) ==> |LayersWeights(network.layers)| == WeightCount(topology) by {
      forall topology | Fits(network, topology)
        ensures |LayersWeights(network.layers)| == WeightCount(topology)
      {
        LayersRoundTrip(topology, network.layers, []);
        assert LayersWeights(network.layers) + [] == LayersWeights(network.layers);
      }
    }
    LayersWeights(network.layers)
  }

  /** The number of values a network of this topology flattens to. */
  function WeightCount(topology: Topology): nat
    decreases |topology|
  {
    if |topology| < 2 then 0 else topology[1] * (topology[0] + 1) + WeightCount(topology[1..])
  }

  // ---------------------------------------------------------------------------
  // Rebuilding from a stream

  datatype DecodeError = NotEnoughWeights | TooManyWeights

  /**
   * `Neuron::from_weights`: the bias, then `inputs` weights, taken from the front of the
   * stream; None where `unwrap` panics on an exhausted stream. Returns what is left.
   */
  function NeuronFrom(inputs: nat, stream: seq<real>): (r: Option<(Neuron, seq<real>)>)
    ensures r.Some? <==> |stream| > inputs
    ensures r.Some? ==> |r.value.0.weights| == inputs && NeuronWeights(r.value.0) + r.value.1 == stream
  {
    if |stream| <= inputs then None
    else
      var neuron := Neuron(stream[0], stream[1..inputs + 1]);
      assert NeuronWeights(neuron) == stream[..inputs + 1];
      Some((neuron, stream[inputs + 1..]))
  }

  /** `Layer::from_weights`: `count` neurons, taken one after the other. */
  function NeuronsFrom(inputs: nat, count: nat, stream: seq<real>): (r: Option<(seq<Neuron>, seq<real>)>)
    ensures r.Some? <==> |stream| >= count * (inputs + 1)
    ensures r.Some? ==> LayerFits(Layer(r.value.0), inputs, count)
    ensures r.Some? ==> NeuronsWeights(r.value.0) + r.value.1 == stream
    ensures r.Some? ==> |r.value.1| == |stream| - count * (inputs + 1)
    decreases count
  {
    if count == 0 then Some(([], stream))
    else
      BlockSplit(count, inputs + 1);
      match NeuronFrom(inputs, stream)
      case None => None
      case Some((neuron, mid)) =>
        match NeuronsFrom(inputs, count - 1, mid)
        case None => None
        case Some((neurons, rest)) =>
          NeuronsCons(inputs, neuron, neurons, mid, rest);
          Some(([neuron] + neurons, rest))
  }

  /** Decoding one more neuron in front of a decoded run extends the run by that neuron. */
  lemma NeuronsCons(inputs: nat, neuron: Neuron, neurons: seq<Neuron>, mid: seq<real>, rest: seq<real>)
    requires |neuron.weights| == inputs
    requires LayerFits(Layer(neurons), inputs, |neurons|)
    requires NeuronsWeights(neurons) + rest == mid
    ensures LayerFits(Layer([neuron] + neurons), inputs, |neurons| + 1)
    ensures NeuronsWeights([neuron] + neurons) + rest == NeuronWeights(neuron) + mid
  {
    NeuronsConsFits(inputs, neuron, neurons);
    NeuronsConsWeights(neuron, neurons, rest);
  }

  lemma NeuronsConsFits(inputs: nat, neuron: Neuron, neurons: seq<Neuron>)
    requires |neuron.weights| == inputs
    requires LayerFits(Layer(neurons), inputs, |neurons|)
    ensures LayerFits(Layer([neuron] + neurons), inputs, |neurons| + 1)
  {
    var all := [neuron] + neurons;
    forall k | 0 <= k < |all|
      ensures |all[k].weights| == inputs
    {
      if k > 0 {
        assert all[k] == neurons[k - 1];
      }
    }
  }

  lemma NeuronsConsWeights(neuron: Neuron, neurons: seq<Neuron>, rest: seq<real>)
    ensures NeuronsWeights([neuron] + neurons) + rest == NeuronWeights(neuron) + (NeuronsWeights(neurons) + rest)
  {
    var all := [neuron] + neurons;
    assert all[0] == neuron && all[1..] == neurons;
  }

  /** Decoding one more layer in front of decoded layers extends them by that layer. */
  lemma LayersCons(topology: Topology, neurons: seq<Neuron>, layers: seq<Layer>, mid: seq<real>, rest: seq<real>)
    requires |topology| >= 2
    requires LayerFits(Layer(neurons), topology[0], topology[1])
    requires Fits(Network(layers), topology[1..])
    requires LayersWeights(layers) + rest == mid
    ensures Fits(Network([Layer(neurons)] + layers), topology)
    ensures LayersWeights([Layer(neurons)] + layers) + rest == NeuronsWeights(neurons) + mid
  {
    var all := [Layer(neurons)] + layers;
    assert all[1..] == layers;
    assert forall i :: 1 <= i < |all| ==> all[i] == layers[i - 1];
  }

  /** A run of `count` blocks is one block followed by `count - 1` more. */
  lemma BlockSplit(count: nat, width: nat)
    requires count > 0
    ensures count * width == width + (count - 1) * width
    ensures count * width >= width
  {
  }

  function LayersFrom(topology: Topology, stream: seq<real>): (r: Option<(seq<Layer>, seq<real>)>)
    ensures r.Some? <==> |stream| >= WeightCount(topology)
    ensures r.Some? ==> Fits(Network(r.value.0), topology)
    ensures r.Some? ==> LayersWeights(r.value.0) + r.value.1 == stream
    ensures r.Some? ==> |r.value.1| == |stream| - WeightCount(topology)
    decreases |topology|
  {
    if |topology| < 2 then Some(([], stream))
    else
      match NeuronsFrom(topology[0], topology[1], stream)
      case None => None
      case Some((neurons, mid)) =>
        match LayersFrom(topology[1..], mid)
        case None => None
        case Some((layers, rest)) =>
          LayersCons(topology, neurons, layers, mid, rest);
          Some(([Layer(neurons)] + layers, rest))
  }

  /**
   * `Network::from_weights`: rebuilds a network of the given topology; an exhausted
   * stream is NotEnoughWeights, values left over are TooManyWeights.
   */
  function FromWeights(stream: seq<real>, topology: Topology): (r: Result<Network, DecodeError>)
    ensures r == Err(NotEnoughWeights) <==> |stream| < WeightCount(topology)
    ensures r == Err(TooManyWeights) <==> |stream| > WeightCount(topology)
    ensures r.Ok? ==> Fits(r.value, topology) && Weights(r.value) == stream
  {
    match LayersFrom(topology, stream)
    case None => Err(NotEnoughWeights)
    case Some((layers, rest)) =>
      if |rest| > 0 then Err(TooManyWeights) else Ok(Network(layers))
  }

  // ---------------------------------------------------------------------------
  // The flatten/rebuild round trip

  lemma NeuronRoundTrip(inputs: nat, neuron: Neuron, rest: seq<real>)
    requires |neuron.weights| == inputs
    ensures NeuronFrom(inputs, NeuronWeights(neuron) + rest) == Some((neuron, rest))
  {
    var stream := NeuronWeights(neuron) + rest;
    assert stream[0] == neuron.bias;
    assert stream[1..inputs + 1] == neuron.weights;
    assert stream[inputs + 1..] == rest;
  }

  lemma {:induction false} NeuronsRoundTrip(inputs: nat, neurons: seq<Neuron>, rest: seq<real>)
    requires LayerFits(Layer(neurons), inputs, |neurons|)
    ensures NeuronsFrom(inputs, |neurons|, NeuronsWeights(neurons) + rest) == Some((neurons, rest))
    decreases |neurons|
  {
    if |neurons| > 0 {
      var tail := neurons[1..];
      var mid := NeuronsWeights(tail) + rest;
      assert LayerFits(Layer(tail), inputs, |tail|);
      assert NeuronsWeights(neurons) + rest == NeuronWeights(neurons[0]) + mid;
      var stream := NeuronsWeights(neurons) + rest;
      NeuronRoundTrip(inputs, neurons[0], mid);
      NeuronsRoundTrip(inputs, tail, rest);
      assert [neurons[0]] + tail == neurons;
    } else {
      assert NeuronsWeights(neurons) + rest == rest;
    }
  }

  lemma {:induction false} LayersRoundTrip(topology: Topology, layers: seq<Layer>, rest: seq<real>)
    requires Fits(Network(layers), topology)
    ensures LayersFrom(topology, LayersWeights(layers) + rest) == Some((layers, rest))
    decreases |topology|
  {
    if |topology| >= 2 {
      var tail := layers[1..];
      assert Fits(Network(tail), topology[1..]);
      var head := layers[0].neurons;
      assert LayerFits(layers[0], topology[0], topology[1]);
      assert LayersWeights(layers) + rest == NeuronsWeights(head) + (LayersWeights(tail) + rest);
      NeuronsRoundTrip(topology[0], head, LayersWeights(tail) + rest);
      LayersRoundTrip(topology[1..], tail, rest);
      assert [Layer(head)] + tail == layers;
    } else {
      assert LayersWeights(layers) + rest == rest;
    }
  }

  /**
   * Rebuilding a network from its own weights, for the topology it was built for, gives
   * back the same network: every bias and weight in its place.
   */
  lemma {:induction false} RoundTrip(network: Network, topology: Topology)
    requires Fits(network, topology)
    ensures FromWeights(Weights(network), topology) == Ok(network)
    ensures |Weights(network)| == WeightCount(topology)
  {
    LayersRoundTrip(topology, network.layers, []);
    assert LayersWeights(network.layers) + [] == Weights(network);
  }

  /** Two networks of one topology with the same weight stream are the same network. */
  lemma {:induction false} WeightsInjective(a: Network, b: Network, topology: Topology)
    requires Fits(a, topology) && Fits(b, topology)
    requires Weights(a) == Weights(b)
    ensures a == b
  {
    RoundTrip(a, topology);
    RoundTrip(b, topology);
  }

  /** The three ReLU cases the source checks. */
  lemma ReluExamples()
    ensures NeuronPropagate(Neuron(0.0, [1.0, 1.0, 1.0]), [1.0, 1.0, 1.0]) == 3.0
    ensures NeuronPropagate(Neuron(0.0, [1.0, 1.0, 1.0]), [-1.0, -1.0, -1.0]) == 0.0
    ensures NeuronPropagate(Neuron(1.0, [1.0, 1.0, 1.0]), [1.0, 1.0, 1.0]) == 4.0
  {
    var ones := [1.0, 1.0, 1.0];
    var minus := [-1.0, -1.0, -1.0];
    assert Dot(ones[2..], ones[2..]) == 1.0;
    assert Dot(ones[1..], ones[1..]) == 2.0;
    assert Dot(ones, ones) == 3.0;
    assert Dot(minus[2..], ones[2..]) == -1.0;
    assert Dot(minus[1..], ones[1..]) == -2.0;
    assert Dot(minus, ones) == -3.0;
  }
}
