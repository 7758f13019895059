/** The feed-forward network: neurons holding a value and the weights of
    their links to the previous layer, construction from a stream of random
    draws, the forward pass, and the (identity) mutation. Single-precision
    numbers are modelled as reals. */
module Neural {

  /** One cell: its last computed value and one weight per neuron of the
      previous layer (none in the input layer). */
  datatype Neuron = Neuron(value: real, weights: seq<real>)

  /** A network: its fitness score and its layers of neurons, input first. */
  datatype Network = Network(fitness: real, layers: seq<seq<Neuron>>)

  /** The random source as a stream: `draws(k)` is the k-th value returned by
      `NextRange(-1, 1)`. Every weight consumes exactly one draw. */
  type Draws = nat -> real

  /** The `count` draws starting at position `start`. */
  function Window(draws: Draws, start: nat, count: nat): (w: seq<real>)
    ensures |w| == count
    ensures forall k | 0 <= k < count :: w[k] == draws(start + k)
  {
    seq(count, k requires 0 <= k < count => draws(start + k))
  }

  /** Consecutive windows join into one. */
  lemma WindowSplit(draws: Draws, start: nat, a: nat, b: nat)
    ensures Window(draws, start, a + b) == Window(draws, start, a) + Window(draws, start + a, b)
  {
    var whole := Window(draws, start, a + b);
    var parts := Window(draws, start, a) + Window(draws, start + a, b);
    forall k | 0 <= k < a + b ensures whole[k] == parts[k] {
      if k >= a {
        assert parts[k] == Window(draws, start + a, b)[k - a];
      }
    }
  }

  /** Number of draws taken by `k` blocks of `w` draws each: `k * w`,
      spelled out as repeated addition. */
  function Blocks(k: nat, w: nat): nat {
    if k == 0 then 0 else Blocks(k - 1, w) + w
  }

  /** Number of weights of each neuron of layer `l`: the size of the
      previous layer, or none for the input layer. */
  function LinksPerNeuron(sizes: seq<nat>, l: nat): nat
    requires l < |sizes|
  {
    if l == 0 then 0 else sizes[l - 1]
  }

  /** Number of weights in layers `l` onwards. */
  function WeightsFrom(sizes: seq<nat>, l: nat): nat
    requires l <= |sizes|
    decreases |sizes| - l
  {
    if l == |sizes| then 0 else Blocks(sizes[l], LinksPerNeuron(sizes, l)) + WeightsFrom(sizes, l + 1)
  }

  /** Number of weights of a network with layer sizes `sizes`. */
  function WeightCount(sizes: seq<nat>): nat {
    WeightsFrom(sizes, 0)
  }

  /** The weights of a layer, neuron by neuron, in order. */
  function NeuronWeights(layer: seq<Neuron>): seq<real> {
    if |layer| == 0 then [] else layer[0].weights + NeuronWeights(layer[1..])
  }

  /** The weights of a list of layers, layer by layer, in order. */
  function LayerWeights(layers: seq<seq<Neuron>>): seq<real> {
    if |layers| == 0 then [] else NeuronWeights(layers[0]) + LayerWeights(layers[1..])
  }

  /** All weights of a network in the order layer, neuron, link: the order
      in which they are drawn, saved and loaded. */
  function Weights(net: Network): seq<real> {
    LayerWeights(net.layers)
  }

  /** The network has layer sizes `sizes`, and each neuron one weight per
      neuron of the previous layer. */
  ghost predicate Shaped(net: Network, sizes: seq<nat>) {
    && |net.layers| == |sizes|
    && (forall l | 0 <= l < |sizes| :: |net.layers[l]| == sizes[l])
    && (forall l, n | 0 <= l < |sizes| && 0 <= n < |net.layers[l]| ::
          |net.layers[l][n].weights| == LinksPerNeuron(sizes, l))
  }

  /** Every neuron of the layers holds the value zero. */
  ghost predicate Quiet(layers: seq<seq<Neuron>>) {
    forall l, n | 0 <= l < |layers| && 0 <= n < |layers[l]| :: layers[l][n].value == 0.0
  }

  /** `newNeuron`: a zero value and `links` fresh draws from `start`. */
  function NewNeuron(links: nat, draws: Draws, start: nat): (n: Neuron)
    ensures n.value == 0.0 && |n.weights| == links
  {
    Neuron(0.0, Window(draws, start, links))
  }

  /** `count` new neurons of `links` weights each, drawn one after another. */
  function NewNeurons(count: nat, links: nat, draws: Draws, start: nat): (layer: seq<Neuron>)
    ensures |layer| == count
    ensures forall n | 0 <= n < count :: layer[n].value == 0.0 && |layer[n].weights| == links
    ensures NeuronWeights(layer) == Window(draws, start, Blocks(count, links))
    decreases count
  {
    if count == 0 then []
    else
      var first := NewNeuron(links, draws, start);
      var rest := NewNeurons(count - 1, links, draws, start + links);
      var layer := [first] + rest;
      assert layer[1..] == rest;
      WindowSplit(draws, start, links, Blocks(count - 1, links));
      layer
  }

  /** Layers `l` onwards of a new network, drawing from `start`. */
  function NewLayers(sizes: seq<nat>, l: nat, draws: Draws, start: nat): (layers: seq<seq<Neuron>>)
    requires l <= |sizes|
    ensures |layers| == |sizes| - l
    ensures forall k | 0 <= k < |layers| :: |layers[k]| == sizes[l + k]
    ensures forall k, n | 0 <= k < |layers| && 0 <= n < |layers[k]| ::
      layers[k][n].value == 0.0 && |layers[k][n].weights| == LinksPerNeuron(sizes, l + k)
    ensures LayerWeights(layers) == Window(draws, start, WeightsFrom(sizes, l))
    decreases |sizes| - l
  {
    if l == |sizes| then []
    else
      var links := LinksPerNeuron(sizes, l);
      var first := NewNeurons(sizes[l], links, draws, start);
      var rest := NewLayers(sizes, l + 1, draws, start + Blocks(sizes[l], links));
      var layers := [first] + rest;
      assert layers[1..] == rest;
      WindowSplit(draws, start, Blocks(sizes[l], links), WeightsFrom(sizes, l + 1));
      layers
  }

  /** `NewNetwork`: a network of the given layer sizes whose weights are the
      next `WeightCount(sizes)` draws, consumed in save order; values and
      fitness start at zero. */
  function NewNetwork(sizes: seq<nat>, draws: Draws, start: nat): (net: Network)
    ensures Shaped(net, sizes)
    ensures Quiet(net.layers) && net.fitness == 0.0
    ensures Weights(net) == Window(draws, start, WeightCount(sizes))
  {
    Network(0.0, NewLayers(sizes, 0, draws, start))
  }

  /** The values of a layer's neurons. */
  function Values(layer: seq<Neuron>): (vs: seq<real>)
    ensures |vs| == |layer|
    ensures forall n | 0 <= n < |layer| :: vs[n] == layer[n].value
  {
    seq(|layer|, n requires 0 <= n < |layer| => layer[n].value)
  }

  /** The weighted sum over the previous layer: one product per value, in
      order; weights beyond the previous layer's size are not read. */
  function Dot(weights: seq<real>, values: seq<real>): real
    requires |weights| >= |values|
  {
    if |values| == 0 then 0.0
    else Dot(weights, values[..|values| - 1]) + weights[|values| - 1] * values[|values| - 1]
  }

  /** Every neuron past the input layer has a weight for each neuron of the
      previous layer. */
  ghost predicate LinksFit(layers: seq<seq<Neuron>>) {
    forall l, n | 1 <= l < |layers| && 0 <= n < |layers[l]| :: |layers[l][n].weights| >= |layers[l - 1]|
  }

  /** The conditions without which `Run` panics: an input, at least one
      hidden and an output layer, an input of the input layer's size, and
      a weight for every link. */
  ghost predicate Runnable(net: Network, input: seq<real>) {
    && |net.layers| >= 3
    && |net.layers[0]| == |input|
    && LinksFit(net.layers)
  }

  /** The two lists of layers have the same sizes and the same weights;
      only values may differ. */
  ghost predicate SameLinks(a: seq<seq<Neuron>>, b: seq<seq<Neuron>>) {
    && |a| == |b|
    && (forall l | 0 <= l < |a| :: |a[l]| == |b[l]|)
    && (forall l, n | 0 <= l < |a| && 0 <= n < |a[l]| :: a[l][n].weights == b[l][n].weights)
  }

  /** Each neuron of `layer` holds `act` of its weighted sum over the
      values of `previous`. */
  ghost predicate Follows(layer: seq<Neuron>, previous: seq<Neuron>, act: real -> real) {
    && (forall n | 0 <= n < |layer| :: |layer[n].weights| >= |previous|)
    && (forall n | 0 <= n < |layer| :: layer[n].value == act(Dot(layer[n].weights, Values(previous))))
  }

  /** The values of `layers` are those of a forward pass: each layer past
      the input layer follows the one before it. */
  ghost predicate Propagated(layers: seq<seq<Neuron>>, act: real -> real) {
    && LinksFit(layers)
    && forall l | 1 <= l < |layers| :: Follows(layers[l], layers[l - 1], act)
  }

  /** One layer evaluated against the values of the layer before it. */
  function Evaluate(layer: seq<Neuron>, previous: seq<real>, act: real -> real): (out: seq<Neuron>)
    requires forall n | 0 <= n < |layer| :: |layer[n].weights| >= |previous|
    ensures |out| == |layer|
    ensures forall n | 0 <= n < |layer| :: out[n].weights == layer[n].weights
    ensures forall n | 0 <= n < |layer| :: out[n].value == act(Dot(layer[n].weights, previous))
  {
    seq(|layer|, n requires 0 <= n < |layer| =>
      Neuron(act(Dot(layer[n].weights, previous)), layer[n].weights))
  }

  /** Evaluating the first pending layer keeps the links. */
  lemma EvaluateKeepsLinks(done: seq<seq<Neuron>>, rest: seq<seq<Neuron>>, next: seq<Neuron>)
    requires |done| >= 1 && |rest| >= 1 && LinksFit(done + rest)
    requires |next| == |rest[0]| && forall n | 0 <= n < |next| :: next[n].weights == rest[0][n].weights
    ensures LinksFit(done + [next] + rest[1..])
    ensures SameLinks(done + [next] + rest[1..], done + rest)
  {
    var all: seq<seq<Neuron>> := done + rest;
    var s: seq<seq<Neuron>> := done + [next] + rest[1..];
    assert s == done + ([next] + rest[1..]);
    forall l | 0 <= l < |all|
      ensures |s[l]| == |all[l]|
      ensures forall n | 0 <= n < |s[l]| :: s[l][n].weights == all[l][n].weights
    {
      if l == |done| {
        assert s[l] == next && all[l] == rest[0];
      } else {
        assert s[l] == all[l];
      }
    }
  }

  /** ... and extends the evaluated prefix by one layer. */
  lemma EvaluateExtends(done: seq<seq<Neuron>>, rest: seq<seq<Neuron>>, act: real -> real)
    requires |done| >= 1 && |rest| >= 1 && LinksFit(done + rest) && Propagated(done, act)
    ensures forall n | 0 <= n < |rest[0]| :: |rest[0][n].weights| >= |done[|done| - 1]|
    ensures Propagated(done + [Evaluate(rest[0], Values(done[|done| - 1]), act)], act)
  {
    var all := done + rest;
    assert all[|done|] == rest[0] && all[|done| - 1] == done[|done| - 1];
    var next := Evaluate(rest[0], Values(done[|done| - 1]), act);
    ExtendedLinksFit(done, rest, next);
    var done' := done + [next];
    forall l | 1 <= l < |done'| ensures Follows(done'[l], done'[l - 1], act) {
      if l < |done| {
        assert done'[l] == done[l] && done'[l - 1] == done[l - 1];
      } else {
        assert done'[l] == next && done'[l - 1] == done[|done| - 1];
      }
    }
  }

  /** A layer with the links of the first pending one keeps the evaluated
      prefix's links fitting. */
  lemma ExtendedLinksFit(done: seq<seq<Neuron>>, rest: seq<seq<Neuron>>, next: seq<Neuron>)
    requires |done| >= 1 && |rest| >= 1 && LinksFit(done + rest)
    requires |next| == |rest[0]| && forall n | 0 <= n < |next| :: next[n].weights == rest[0][n].weights
    ensures LinksFit(done + [next])
  {
    var all := done + rest;
    var done': seq<seq<Neuron>> := done + [next];
    forall l, n | 1 <= l < |done'| && 0 <= n < |done'[l]| ensures |done'[l][n].weights| >= |done'[l - 1]| {
      assert done'[l - 1] == all[l - 1];
      if l < |done| {
        assert done'[l] == all[l];
      } else {
        assert done'[l] == next && all[l] == rest[0];
      }
    }
  }

  lemma SameLinksSymmetric(a: seq<seq<Neuron>>, b: seq<seq<Neuron>>)
    requires SameLinks(a, b)
    ensures SameLinks(b, a)
  {
  }

  lemma SameLinksTransitive(a: seq<seq<Neuron>>, b: seq<seq<Neuron>>, c: seq<seq<Neuron>>)
    requires SameLinks(a, b) && SameLinks(b, c)
    ensures SameLinks(a, c)
  {
  }

  /** The layers after `done` evaluated one after another, `done` being the
      layers already evaluated (the input layer at least). */
  function Forward(done: seq<seq<Neuron>>, rest: seq<seq<Neuron>>, act: real -> real): (out: seq<seq<Neuron>>)
    requires |done| >= 1 && LinksFit(done + rest) && Propagated(done, act)
    ensures SameLinks(out, done + rest)
    ensures out[..|done|] == done
    ensures Propagated(out, act)
    decreases |rest|
  {
    if |rest| == 0 then
      assert done + rest == done;
      done
    else
      EvaluateExtends(done, rest, act);
      var next := Evaluate(rest[0], Values(done[|done| - 1]), act);
      EvaluateKeepsLinks(done, rest, next);
      var done' := done + [next];
      var out := Forward(done', rest[1..], act);
      SameLinksTransitive(out, done' + rest[1..], done + rest);
      assert out[..|done|] == out[..|done'|][..|done|];
      out
  }

  /** `Run`: writes the input into the input layer, evaluates the layers in
      order with the activation `act` (tanh in the game) and returns the
      output layer's values together with the network holding the new
      values; sizes, weights and fitness are unchanged. */
  function Run(net: Network, input: seq<real>, act: real -> real): (r: (seq<real>, Network))
    requires Runnable(net, input)
    ensures SameLinks(r.1.layers, net.layers) && r.1.fitness == net.fitness
    ensures Values(r.1.layers[0]) == input
    ensures Propagated(r.1.layers, act)
    ensures r.0 == Values(r.1.layers[|r.1.layers| - 1])
  {
    var inputLayer := WithValues(net.layers[0], input);
    InputKeepsLinks(net.layers, inputLayer);
    var layers := Forward([inputLayer], net.layers[1..], act);
    assert layers[0] == inputLayer;
    (Values(layers[|layers| - 1]), Network(net.fitness, layers))
  }

  /** The layer with its values replaced by `values`, links unchanged. */
  function WithValues(layer: seq<Neuron>, values: seq<real>): (out: seq<Neuron>)
    requires |values| == |layer|
    ensures |out| == |layer| && Values(out) == values
    ensures forall n | 0 <= n < |layer| :: out[n].weights == layer[n].weights
  {
    var out := seq(|layer|, n requires 0 <= n < |layer| => layer[n].(value := values[n]));
    assert Values(out) == values;
    out
  }

  /** Replacing the values of the input layer keeps the links. */
  lemma InputKeepsLinks(layers: seq<seq<Neuron>>, first: seq<Neuron>)
    requires |layers| >= 1 && LinksFit(layers)
    requires |first| == |layers[0]| && forall n | 0 <= n < |first| :: first[n].weights == layers[0][n].weights
    ensures LinksFit([first] + layers[1..])
    ensures SameLinks([first] + layers[1..], layers)
  {
    var s: seq<seq<Neuron>> := [first] + layers[1..];
    forall l | 1 <= l < |s| ensures s[l] == layers[l] {
    }
  }

  /** Two evaluated lists of layers with the same links and the same input
      values agree on every value. */
  lemma {:induction false} PropagationIsDetermined(a: seq<seq<Neuron>>, b: seq<seq<Neuron>>, act: real -> real, l: nat)
    requires SameLinks(a, b)
    requires Propagated(a, act) && Propagated(b, act)
    requires |a| >= 1 && Values(a[0]) == Values(b[0])
    requires l < |a|
    ensures Values(a[l]) == Values(b[l])
  {
    if l > 0 {
      PropagationIsDetermined(a, b, act, l - 1);
      forall n | 0 <= n < |a[l]| ensures a[l][n].value == b[l][n].value {
        NeuronIsDetermined(a, b, act, l, n);
      }
      SameValues(a[l], b[l]);
    }
  }

  lemma NeuronIsDetermined(a: seq<seq<Neuron>>, b: seq<seq<Neuron>>, act: real -> real, l: nat, n: nat)
    requires SameLinks(a, b) && Propagated(a, act) && Propagated(b, act)
    requires 1 <= l < |a| && n < |a[l]| && Values(a[l - 1]) == Values(b[l - 1])
    ensures a[l][n].value == b[l][n].value
  {
    assert a[l][n].weights == b[l][n].weights;
  }

  lemma SameValues(x: seq<Neuron>, y: seq<Neuron>)
    requires |x| == |y| && forall n | 0 <= n < |x| :: x[n].value == y[n].value
    ensures Values(x) == Values(y)
  {
  }

  /** The values a layer carries are determined by its links and values. */
  lemma SameLinksSameValues(a: seq<seq<Neuron>>, b: seq<seq<Neuron>>)
    requires SameLinks(a, b)
    requires forall l | 0 <= l < |a| :: Values(a[l]) == Values(b[l])
    ensures a == b
  {
    forall l | 0 <= l < |a| ensures a[l] == b[l] {
      forall n | 0 <= n < |a[l]| ensures a[l][n] == b[l][n] {
        assert Values(a[l])[n] == Values(b[l])[n];
      }
    }
  }

  /** The output of `Run` depends only on the weights and the input: the
      values left over from an earlier run and the fitness play no part. */
  lemma RunDependsOnlyOnLinks(a: Network, b: Network, input: seq<real>, act: real -> real)
    requires Runnable(a, input) && SameLinks(a.layers, b.layers)
    ensures Runnable(b, input)
    ensures Run(a, input, act).0 == Run(b, input, act).0
    ensures Run(a, input, act).1.layers == Run(b, input, act).1.layers
  {
    RunLayersDependOnlyOnLinks(a, b, input, act);
    var ra := Run(a, input, act).1.layers;
    assert Run(a, input, act).0 == Values(ra[|ra| - 1]);
  }

  lemma RunLayersDependOnlyOnLinks(a: Network, b: Network, input: seq<real>, act: real -> real)
    requires Runnable(a, input) && SameLinks(a.layers, b.layers)
    ensures Runnable(b, input)
    ensures Run(a, input, act).1.layers == Run(b, input, act).1.layers
  {
    SameLinksFit(a.layers, b.layers);
    var ra := Run(a, input, act).1.layers;
    var rb := Run(b, input, act).1.layers;
    SameLinksTransitive(ra, a.layers, b.layers);
    SameLinksSymmetric(rb, b.layers);
    SameLinksTransitive(ra, b.layers, rb);
    PropagationIsUnique(ra, rb, act);
  }

  /** Two evaluated lists of layers with the same links and the same input
      values are the same. */
  lemma PropagationIsUnique(a: seq<seq<Neuron>>, b: seq<seq<Neuron>>, act: real -> real)
    requires SameLinks(a, b) && Propagated(a, act) && Propagated(b, act)
    requires |a| >= 1 && Values(a[0]) == Values(b[0])
    ensures a == b
  {
    forall l | 0 <= l < |a| ensures Values(a[l]) == Values(b[l]) {
      PropagationIsDetermined(a, b, act, l);
    }
    SameLinksSameValues(a, b);
  }

  /** Whether the links fit depends on the links alone. */
  lemma SameLinksFit(a: seq<seq<Neuron>>, b: seq<seq<Neuron>>)
    requires SameLinks(a, b) && LinksFit(a)
    ensures LinksFit(b)
  {
    forall l, n | 1 <= l < |b| && 0 <= n < |b[l]| ensures |b[l][n].weights| >= |b[l - 1]| {
      assert b[l][n].weights == a[l][n].weights;
    }
  }

  /** Running the network a second time on the same input changes nothing. */
  lemma RunIsRepeatable(net: Network, input: seq<real>, act: real -> real)
    requires Runnable(net, input)
    ensures Runnable(Run(net, input, act).1, input)
    ensures Run(Run(net, input, act).1, input, act) == Run(net, input, act)
  {
    var first := Run(net, input, act).1;
    RunDependsOnlyOnLinks(net, first, input, act);
    var second := Run(first, input, act).1;
    assert second.layers == first.layers;
  }

  /** `Mutated`: the documented sign flips and scalings are not performed;
      the network comes back as it is, weights, values and fitness alike. */
  function Mutated(net: Network): (m: Network)
    ensures m.layers == net.layers && m.fitness == net.fitness
  {
    net
  }
}
