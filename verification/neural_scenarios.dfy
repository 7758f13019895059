/** The network tests: a random provider that always returns the same value
    gives every weight that value, and a network whose output neurons share
    their weights gives the same value on every output. */
module NeuralScenarios {
  import opened Neural

  /** Every weight of a neuron of the layer occurs in the layer's weights. */
  lemma {:induction false} NeuronWeightOccurs(layer: seq<Neuron>, n: nat, j: nat)
    requires n < |layer| && j < |layer[n].weights|
    ensures layer[n].weights[j] in NeuronWeights(layer)
  {
    if n > 0 {
      NeuronWeightOccurs(layer[1..], n - 1, j);
      assert layer[1..][n - 1] == layer[n];
    }
  }

  /** Every weight of every neuron occurs in the weights of the layers. */
  lemma {:induction false} LayerWeightOccurs(layers: seq<seq<Neuron>>, l: nat, n: nat, j: nat)
    requires l < |layers| && n < |layers[l]| && j < |layers[l][n].weights|
    ensures layers[l][n].weights[j] in LayerWeights(layers)
  {
    if l == 0 {
      NeuronWeightOccurs(layers[0], n, j);
    } else {
      LayerWeightOccurs(layers[1..], l - 1, n, j);
      assert layers[1..][l - 1] == layers[l];
    }
  }

  /** With a provider that always returns `v`, every weight of a new network
      is `v`. */
  lemma ConstantDrawsEveryWeight(sizes: seq<nat>, v: real, draws: Draws, start: nat, l: nat, n: nat, j: nat)
    requires forall p :: draws(p) == v
    requires l < |sizes| && n < sizes[l] && j < LinksPerNeuron(sizes, l)
    ensures var net := NewNetwork(sizes, draws, start);
      l < |net.layers| && n < |net.layers[l]| && j < |net.layers[l][n].weights|
      && net.layers[l][n].weights[j] == v
  {
    var net := NewNetwork(sizes, draws, start);
    LayerWeightOccurs(net.layers, l, n, j);
    var w := Window(draws, start, WeightCount(sizes));
    assert forall x | x in w :: x == v;
  }

  /** When all neurons of the output layer carry the same weights, `Run`
      returns the same value on every output. */
  lemma SharedOutputWeightsGiveEqualOutputs(net: Network, input: seq<real>, act: real -> real, i: nat, k: nat)
    requires Runnable(net, input)
    requires var last := net.layers[|net.layers| - 1];
      forall a, b | 0 <= a < |last| && 0 <= b < |last| :: last[a].weights == last[b].weights
    requires i < |Run(net, input, act).0| && k < |Run(net, input, act).0|
    ensures Run(net, input, act).0[i] == Run(net, input, act).0[k]
  {
    var r := Run(net, input, act);
    var after := r.1.layers;
    var top := |after| - 1;
    assert top == |net.layers| - 1 && |after[top]| == |net.layers[top]|;
    assert r.0 == Values(after[top]);
    var previous := Values(after[top - 1]);
    assert Follows(after[top], after[top - 1], act);
    assert after[top][i].weights == net.layers[top][i].weights;
    assert after[top][k].weights == net.layers[top][k].weights;
    calc {
      r.0[i];
      act(Dot(after[top][i].weights, previous));
      act(Dot(after[top][k].weights, previous));
      r.0[k];
    }
  }

  /** A new network built from a constant provider is runnable on an input
      of the input layer's size, and gives the same value on every output. */
  lemma ConstantDrawsGiveEqualOutputs(sizes: seq<nat>, v: real, draws: Draws, start: nat,
                                      input: seq<real>, act: real -> real, i: nat, k: nat)
    requires forall p :: draws(p) == v
    requires |sizes| >= 3 && |input| == sizes[0]
    requires i < sizes[|sizes| - 1] && k < sizes[|sizes| - 1]
    ensures var net := NewNetwork(sizes, draws, start);
      && Runnable(net, input)
      && i < |Run(net, input, act).0| && k < |Run(net, input, act).0|
      && Run(net, input, act).0[i] == Run(net, input, act).0[k]
  {
    var net := NewNetwork(sizes, draws, start);
    var top := |sizes| - 1;
    var last := net.layers[top];
    forall a, b | 0 <= a < |last| && 0 <= b < |last| ensures last[a].weights == last[b].weights {
      forall j | 0 <= j < sizes[top - 1] ensures last[a].weights[j] == last[b].weights[j] {
        ConstantDrawsEveryWeight(sizes, v, draws, start, top, a, j);
        ConstantDrawsEveryWeight(sizes, v, draws, start, top, b, j);
      }
    }
    SharedOutputWeightsGiveEqualOutputs(net, input, act, i, k);
  }
}
