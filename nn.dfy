/** The neural-network library: a layered feed-forward network of ReLU
    neurons, and its flat genome encoding (`weights` / `from_weights`). */
module Nn {
  import opened Wrappers
  import opened Random

  datatype LayerTopology = LayerTopology(neurons: nat)

  datatype Neuron = Neuron(bias: real, weights: seq<real>)

  datatype Layer = Layer(neurons: seq<Neuron>)

  datatype Network = Network(layers: seq<Layer>)

  // ---------------------------------------------------------------- Shape

  /** A layer with `outputs` neurons, each reading `inputs` values. */
  predicate LayerShaped(l: Layer, inputs: nat, outputs: nat)
  {
    |l.neurons| == outputs &&
    forall j :: 0 <= j < outputs ==> |l.neurons[j].weights| == inputs
  }

  /** `layers` are the layers built from the windows `t[k..]`: one layer per
      adjacent pair of topology entries. */
  predicate LayersShaped(layers: seq<Layer>, t: seq<LayerTopology>, k: nat)
  {
    k < |t| && |layers| == |t| - 1 - k &&
    forall i :: 0 <= i < |layers| ==> LayerShaped(layers[i], t[k + i].neurons, t[k + i + 1].neurons)
  }

  /** `net` is what `random` or `from_weights` build from topology `t`. */
  predicate Shaped(net: Network, t: seq<LayerTopology>)
  {
    1 < |t| && LayersShaped(net.layers, t, 0)
  }

  /** Number of genes a layer of `outputs` neurons over `inputs` values holds:
      one bias and `inputs` weights per neuron. */
  function LayerParams(inputs: nat, outputs: nat): nat
  {
    outputs * (inputs + 1)
  }

  function ParamCountFrom(t: seq<LayerTopology>, k: nat): nat
    requires k < |t|
    decreases |t| - k
  {
    if k + 1 == |t| then 0
    else LayerParams(t[k].neurons, t[k + 1].neurons) + ParamCountFrom(t, k + 1)
  }

  /** Number of genes of a network of topology `t`. */
  function ParamCount(t: seq<LayerTopology>): nat
    requires 0 < |t|
  {
    ParamCountFrom(t, 0)
  }

  // ---------------------------------------------------------------- Propagation

  /** `Σ inputs[i] * weights[i]`, summed from the front. */
  function Dot(inputs: seq<real>, weights: seq<real>): real
    requires |inputs| == |weights|
  {
    if |inputs| == 0 then 0.0
    else Dot(inputs[..|inputs| - 1], weights[..|weights| - 1]) + inputs[|inputs| - 1] * weights[|weights| - 1]
  }

  /** `Neuron::propagate`: ReLU of the bias plus the weighted inputs. The
      `assert_eq!` on the lengths is the caller's obligation. */
  function NeuronPropagate(n: Neuron, inputs: seq<real>): (r: real)
    requires |inputs| == |n.weights|
    ensures 0.0 <= r && n.bias + Dot(inputs, n.weights) <= r
    ensures r == 0.0 || r == n.bias + Dot(inputs, n.weights)
  {
    var output := Dot(inputs, n.weights);
    if n.bias + output < 0.0 then 0.0 else n.bias + output
  }

  /** Every neuron of `l` reads `width` inputs. */
  predicate Reads(l: Layer, width: nat)
  {
    forall j :: 0 <= j < |l.neurons| ==> |l.neurons[j].weights| == width
  }

  /** `Layer::propagate`: one output per neuron, in neuron order. */
  function LayerPropagate(l: Layer, inputs: seq<real>): (r: seq<real>)
    requires Reads(l, |inputs|)
    ensures |r| == |l.neurons|
    ensures forall j :: 0 <= j < |r| ==> r[j] == NeuronPropagate(l.neurons[j], inputs)
  {
    seq(|l.neurons|, j requires 0 <= j < |l.neurons| => NeuronPropagate(l.neurons[j], inputs))
  }

  /** Inputs of `width` values flow through `layers` without tripping the
      length assertion of any neuron. */
  predicate Accepts(layers: seq<Layer>, width: nat)
  {
    |layers| == 0 || (Reads(layers[0], width) && Accepts(layers[1..], |layers[0].neurons|))
  }

  /** The fold of `Network::propagate` over the remaining `layers`. */
  function PropagateLayers(layers: seq<Layer>, inputs: seq<real>): (r: seq<real>)
    requires Accepts(layers, |inputs|)
    ensures |layers| == 0 ==> r == inputs
    ensures 0 < |layers| ==> |r| == |layers[|layers| - 1].neurons|
    ensures 0 < |layers| ==> forall i :: 0 <= i < |r| ==> 0.0 <= r[i]
    decreases |layers|
  {
    if |layers| == 0 then inputs
    else PropagateLayers(layers[1..], LayerPropagate(layers[0], inputs))
  }

  /** `Network::propagate`: the inputs folded through every layer. With no
      layer they come back as they are; otherwise there is one output per
      neuron of the last layer, and no output is negative. */
  function Propagate(net: Network, inputs: seq<real>): (r: seq<real>)
    requires Accepts(net.layers, |inputs|)
    ensures |net.layers| == 0 ==> r == inputs
    ensures 0 < |net.layers| ==> |r| == |net.layers[|net.layers| - 1].neurons|
    ensures 0 < |net.layers| ==> forall i :: 0 <= i < |r| ==> 0.0 <= r[i]
  {
    PropagateLayers(net.layers, inputs)
  }

  lemma {:induction false} LayersShapedAccept(layers: seq<Layer>, t: seq<LayerTopology>, k: nat)
    requires LayersShaped(layers, t, k)
    ensures Accepts(layers, t[k].neurons)
    decreases |layers|
  {
    if 0 < |layers| {
      assert LayerShaped(layers[0], t[k].neurons, t[k + 1].neurons);
      ShapedTail(layers, t, k);
      LayersShapedAccept(layers[1..], t, k + 1);
    }
  }

  /** A network shaped by `t` accepts `t[0].neurons` inputs and answers with
      `t[last].neurons` non-negative outputs. */
  lemma PropagateShaped(net: Network, t: seq<LayerTopology>, inputs: seq<real>)
    requires Shaped(net, t) && |inputs| == t[0].neurons
    ensures Accepts(net.layers, |inputs|)
    ensures |Propagate(net, inputs)| == t[|t| - 1].neurons
    ensures forall i :: 0 <= i < |Propagate(net, inputs)| ==> 0.0 <= Propagate(net, inputs)[i]
  {
    LayersShapedAccept(net.layers, t, 0);
    assert LayerShaped(net.layers[|t| - 2], t[|t| - 2].neurons, t[|t| - 1].neurons);
  }

  // ---------------------------------------------------------------- Genome

  /** A neuron's genes: its bias, then its weights. */
  function NeuronWeights(n: Neuron): seq<real>
  {
    [n.bias] + n.weights
  }

  function NeuronsWeights(ns: seq<Neuron>): seq<real>
  {
    if |ns| == 0 then [] else NeuronWeights(ns[0]) + NeuronsWeights(ns[1..])
  }

  function LayersWeights(ls: seq<Layer>): seq<real>
  {
    if |ls| == 0 then [] else NeuronsWeights(ls[0].neurons) + LayersWeights(ls[1..])
  }

  /** `Network::weights`: layer by layer, neuron by neuron, bias first. An
      empty network has no genes; otherwise the first gene is the bias of the
      first neuron of the first layer. */
  function Weights(net: Network): (r: seq<real>)
    ensures |net.layers| == 0 ==> r == []
    ensures 0 < |net.layers| && 0 < |net.layers[0].neurons| ==> 0 < |r| && r[0] == net.layers[0].neurons[0].bias
  {
    LayersWeights(net.layers)
  }

  /** The genes of a stack of layers are those of its lower layers followed
      by those of its upper ones. */
  lemma {:induction false} LayersWeightsAppend(a: seq<Layer>, b: seq<Layer>)
    ensures LayersWeights(a + b) == LayersWeights(a) + LayersWeights(b)
    decreases |a|
  {
    if 0 < |a| {
      assert (a + b)[1..] == a[1..] + b;
      LayersWeightsAppend(a[1..], b);
    } else {
      assert a + b == b;
    }
  }

  lemma {:induction false} NeuronsWeightsCount(ns: seq<Neuron>, inputs: nat)
    requires LayerShaped(Layer(ns), inputs, |ns|)
    ensures |NeuronsWeights(ns)| == LayerParams(inputs, |ns|)
    decreases |ns|
  {
    if 0 < |ns| {
      assert LayerShaped(Layer(ns[1..]), inputs, |ns| - 1) by {
        forall j | 0 <= j < |ns| - 1 ensures |ns[1..][j].weights| == inputs {
          assert ns[1..][j] == ns[j + 1];
        }
      }
      NeuronsWeightsCount(ns[1..], inputs);
      assert LayerParams(inputs, |ns|) == inputs + 1 + LayerParams(inputs, |ns| - 1);
    }
  }

  lemma {:induction false} LayersWeightsCount(ls: seq<Layer>, t: seq<LayerTopology>, k: nat)
    requires LayersShaped(ls, t, k)
    ensures |LayersWeights(ls)| == ParamCountFrom(t, k)
    decreases |ls|
  {
    if 0 < |ls| {
      assert LayerShaped(ls[0], t[k].neurons, t[k + 1].neurons);
      NeuronsWeightsCount(ls[0].neurons, t[k].neurons);
      ShapedTail(ls, t, k);
      LayersWeightsCount(ls[1..], t, k + 1);
    }
  }

  lemma ShapedTail(ls: seq<Layer>, t: seq<LayerTopology>, k: nat)
    requires LayersShaped(ls, t, k) && 0 < |ls|
    ensures LayersShaped(ls[1..], t, k + 1)
  {
    forall i | 0 <= i < |ls| - 1
      ensures LayerShaped(ls[1..][i], t[k + 1 + i].neurons, t[k + 1 + i + 1].neurons)
    {
      assert ls[1..][i] == ls[i + 1];
    }
  }

  /** A network of topology `t` has exactly `ParamCount(t)` genes. */
  lemma WeightsCount(net: Network, t: seq<LayerTopology>)
    requires Shaped(net, t)
    ensures |Weights(net)| == ParamCount(t)
  {
    LayersWeightsCount(net.layers, t, 0);
  }

  lemma SliceSplit(w: seq<real>, a: nat, b: nat, c: nat)
    requires a <= b <= c <= |w|
    ensures w[a..c] == w[a..b] + w[b..c]
  {
  }

  /** `Neuron::from_weights`: the bias, then `inputs` weights, read from the
      shared cursor `at`; running dry panics. */
  function NeuronFrom(inputs: nat, w: seq<real>, at: nat): (r: Result<(Neuron, nat)>)
    requires at <= |w|
    ensures r.Ok? <==> at + inputs + 1 <= |w|
    ensures r.Ok? ==> r.value.1 == at + inputs + 1 && |r.value.0.weights| == inputs
    ensures r.Ok? ==> NeuronWeights(r.value.0) == w[at..r.value.1]
    ensures r.Err? ==> r.error == "got not enough weights"
  {
    if |w| < at + inputs + 1 then Err("got not enough weights")
    else Ok((Neuron(w[at], w[at + 1..at + inputs + 1]), at + inputs + 1))
  }

  /** `Layer::from_weights`: `count` neurons read one after another. */
  function NeuronsFrom(inputs: nat, count: nat, w: seq<real>, at: nat): (r: Result<(seq<Neuron>, nat)>)
    requires at <= |w|
    ensures r.Ok? <==> at + LayerParams(inputs, count) <= |w|
    ensures r.Ok? ==> r.value.1 == at + LayerParams(inputs, count)
    ensures r.Ok? ==> LayerShaped(Layer(r.value.0), inputs, count)
    ensures r.Ok? ==> NeuronsWeights(r.value.0) == w[at..r.value.1]
    ensures r.Err? ==> r.error == "got not enough weights"
    decreases count
  {
    assert count == 0 || LayerParams(inputs, count) == inputs + 1 + LayerParams(inputs, count - 1);
    if count == 0 then Ok(([], at))
    else
      var first :- NeuronFrom(inputs, w, at);
      var rest :- NeuronsFrom(inputs, count - 1, w, first.1);
      assert ([first.0] + rest.0)[1..] == rest.0;
      SliceSplit(w, at, first.1, rest.1);
      Ok(([first.0] + rest.0, rest.1))
  }

  /** The layers of `Network::from_weights` for the windows `t[k..]`. */
  function LayersFrom(t: seq<LayerTopology>, k: nat, w: seq<real>, at: nat): (r: Result<(seq<Layer>, nat)>)
    requires k < |t| && at <= |w|
    ensures r.Ok? <==> at + ParamCountFrom(t, k) <= |w|
    ensures r.Ok? ==> r.value.1 == at + ParamCountFrom(t, k)
    ensures r.Ok? ==> LayersShaped(r.value.0, t, k)
    ensures r.Ok? ==> LayersWeights(r.value.0) == w[at..r.value.1]
    ensures r.Err? ==> r.error == "got not enough weights"
    decreases |t| - k
  {
    if k + 1 == |t| then Ok(([], at))
    else
      var layer :- NeuronsFrom(t[k].neurons, t[k + 1].neurons, w, at);
      var rest :- LayersFrom(t, k + 1, w, layer.1);
      LayersCons(Layer(layer.0), rest.0, t, k);
      SliceSplit(w, at, layer.1, rest.1);
      Ok(([Layer(layer.0)] + rest.0, rest.1))
  }

  /** A layer of the first window before layers of the later windows. */
  lemma LayersCons(l: Layer, rest: seq<Layer>, t: seq<LayerTopology>, k: nat)
    requires k + 1 < |t|
    requires LayerShaped(l, t[k].neurons, t[k + 1].neurons) && LayersShaped(rest, t, k + 1)
    ensures LayersShaped([l] + rest, t, k)
    ensures LayersWeights([l] + rest) == NeuronsWeights(l.neurons) + LayersWeights(rest)
  {
    var ls := [l] + rest;
    assert ls[1..] == rest;
    assert forall i :: 0 < i < |ls| ==> ls[i] == rest[i - 1];
  }

  /** `Network::from_weights`: rebuilds a network of topology `t` from its
      genes; too few genes, leftover genes and a topology of fewer than two
      entries all panic. */
  function FromWeights(t: seq<LayerTopology>, w: seq<real>): (r: Result<Network>)
    ensures r.Ok? <==> 1 < |t| && |w| == ParamCount(t)
    ensures r.Ok? ==> Shaped(r.value, t) && Weights(r.value) == w
    ensures 1 < |t| && |w| < ParamCount(t) ==> r == Err("got not enough weights")
    ensures 1 < |t| && ParamCount(t) < |w| ==> r == Err("got too many weights")
  {
    if |t| <= 1 then Err("assertion failed: layers.len() > 1")
    else
      var layers :- LayersFrom(t, 0, w, 0);
      if layers.1 < |w| then Err("got too many weights")
      else
        assert w[0..layers.1] == w;
        Ok(Network(layers.0))
  }

  /** Neurons of one shape are determined by their genes. */
  lemma {:induction false} NeuronsInjective(inputs: nat, a: seq<Neuron>, b: seq<Neuron>)
    requires |a| == |b| && LayerShaped(Layer(a), inputs, |a|) && LayerShaped(Layer(b), inputs, |b|)
    requires NeuronsWeights(a) == NeuronsWeights(b)
    ensures a == b
    decreases |a|
  {
    if 0 < |a| {
      var x := NeuronsWeights(a);
      assert NeuronWeights(a[0]) == x[..inputs + 1];
      assert NeuronWeights(b[0]) == x[..inputs + 1];
      assert a[0].weights == NeuronWeights(a[0])[1..];
      assert b[0].weights == NeuronWeights(b[0])[1..];
      assert NeuronsWeights(a[1..]) == x[inputs + 1..];
      assert NeuronsWeights(b[1..]) == x[inputs + 1..];
      assert LayerShaped(Layer(a[1..]), inputs, |a| - 1) by {
        forall j | 0 <= j < |a| - 1 ensures |a[1..][j].weights| == inputs {
          assert a[1..][j] == a[j + 1];
        }
      }
      assert LayerShaped(Layer(b[1..]), inputs, |b| - 1) by {
        forall j | 0 <= j < |b| - 1 ensures |b[1..][j].weights| == inputs {
          assert b[1..][j] == b[j + 1];
        }
      }
      NeuronsInjective(inputs, a[1..], b[1..]);
      assert a == [a[0]] + a[1..];
      assert b == [b[0]] + b[1..];
    }
  }

  /** Layers of one topology are determined by their genes. */
  lemma {:induction false} LayersInjective(a: seq<Layer>, b: seq<Layer>, t: seq<LayerTopology>, k: nat)
    requires LayersShaped(a, t, k) && LayersShaped(b, t, k)
    requires LayersWeights(a) == LayersWeights(b)
    ensures a == b
    decreases |a|
  {
    if 0 < |a| {
      var x := LayersWeights(a);
      assert LayerShaped(a[0], t[k].neurons, t[k + 1].neurons);
      assert LayerShaped(b[0], t[k].neurons, t[k + 1].neurons);
      NeuronsWeightsCount(a[0].neurons, t[k].neurons);
      NeuronsWeightsCount(b[0].neurons, t[k].neurons);
      var n := LayerParams(t[k].neurons, t[k + 1].neurons);
      assert NeuronsWeights(a[0].neurons) == x[..n];
      assert NeuronsWeights(b[0].neurons) == x[..n];
      NeuronsInjective(t[k].neurons, a[0].neurons, b[0].neurons);
      assert LayersWeights(a[1..]) == x[n..];
      assert LayersWeights(b[1..]) == x[n..];
      ShapedTail(a, t, k);
      ShapedTail(b, t, k);
      LayersInjective(a[1..], b[1..], t, k + 1);
      assert a == [a[0]] + a[1..];
      assert b == [b[0]] + b[1..];
    }
  }

  /** Rebuilding a network from its own genes gives the network back. */
  lemma FromWeightsRoundTrip(net: Network, t: seq<LayerTopology>)
    requires Shaped(net, t)
    ensures FromWeights(t, Weights(net)) == Ok(net)
  {
    var w := Weights(net);
    WeightsCount(net, t);
    var r := FromWeights(t, w);
    LayersInjective(r.value.layers, net.layers, t, 0);
  }

  // ---------------------------------------------------------------- Random

  /** Every gene lies in [-1, 1]. */
  predicate Unitary(w: seq<real>)
  {
    forall i :: 0 <= i < |w| ==> -1.0 <= w[i] <= 1.0
  }

  lemma UnitaryConcat(a: seq<real>, b: seq<real>)
    requires Unitary(a) && Unitary(b)
    ensures Unitary(a + b)
  {
    forall i | 0 <= i < |a + b| ensures -1.0 <= (a + b)[i] <= 1.0 {
      if i >= |a| {
        assert (a + b)[i] == b[i - |a|];
      }
    }
  }

  /** `n` draws of `gen_range(-1.0..=1.0)`, in order. */
  function RandomWeights(rng: Rng, n: nat): (r: (seq<real>, Rng))
    ensures |r.0| == n && Unitary(r.0)
    ensures r.1 == Rng(rng.stream, rng.next + n)
    decreases n
  {
    if n == 0 then ([], rng)
    else
      var x := GenSigned(rng);
      var rest := RandomWeights(x.1, n - 1);
      UnitaryConcat([x.0], rest.0);
      ([x.0] + rest.0, rest.1)
  }

  /** `Neuron::random`: the bias is drawn first, then one weight per input. */
  function RandomNeuron(rng: Rng, inputs: nat): (r: (Neuron, Rng))
    ensures |r.0.weights| == inputs && Unitary(NeuronWeights(r.0))
    ensures r.1 == Rng(rng.stream, rng.next + inputs + 1)
  {
    var bias := GenSigned(rng);
    var weights := RandomWeights(bias.1, inputs);
    UnitaryConcat([bias.0], weights.0);
    (Neuron(bias.0, weights.0), weights.1)
  }

  /** `Layer::random`: `count` neurons drawn one after another. */
  function RandomNeurons(rng: Rng, inputs: nat, count: nat): (r: (seq<Neuron>, Rng))
    ensures LayerShaped(Layer(r.0), inputs, count) && Unitary(NeuronsWeights(r.0))
    ensures r.1 == Rng(rng.stream, rng.next + LayerParams(inputs, count))
    decreases count
  {
    assert count == 0 || LayerParams(inputs, count) == inputs + 1 + LayerParams(inputs, count - 1);
    if count == 0 then ([], rng)
    else
      var first := RandomNeuron(rng, inputs);
      var rest := RandomNeurons(first.1, inputs, count - 1);
      assert ([first.0] + rest.0)[1..] == rest.0;
      UnitaryConcat(NeuronWeights(first.0), NeuronsWeights(rest.0));
      ([first.0] + rest.0, rest.1)
  }

  function RandomLayers(rng: Rng, t: seq<LayerTopology>, k: nat): (r: (seq<Layer>, Rng))
    requires k < |t|
    ensures LayersShaped(r.0, t, k) && Unitary(LayersWeights(r.0))
    ensures r.1 == Rng(rng.stream, rng.next + ParamCountFrom(t, k))
    decreases |t| - k
  {
    if k + 1 == |t| then ([], rng)
    else
      var layer := RandomNeurons(rng, t[k].neurons, t[k + 1].neurons);
      var rest := RandomLayers(layer.1, t, k + 1);
      var ls := [Layer(layer.0)] + rest.0;
      assert ls[1..] == rest.0;
      assert forall i :: 0 < i < |ls| ==> ls[i] == rest.0[i - 1];
      UnitaryConcat(NeuronsWeights(layer.0), LayersWeights(rest.0));
      (ls, rest.1)
  }

  /** `Network::random`: a network of topology `t` whose every gene lies in
      [-1, 1], drawn with one draw per gene. The `assert!` on the topology
      length is the caller's obligation. */
  function RandomNetwork(rng: Rng, t: seq<LayerTopology>): (r: (Network, Rng))
    requires 1 < |t|
    ensures Shaped(r.0, t) && Unitary(Weights(r.0))
    ensures r.1 == Rng(rng.stream, rng.next + ParamCount(t))
  {
    var layers := RandomLayers(rng, t, 0);
    (Network(layers.0), layers.1)
  }
}
