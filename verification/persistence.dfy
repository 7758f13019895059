/** Saving the fittest network to text and loading a network back into a
    population. The text is the layer sizes separated by commas, a bar, and
    the weights in the order layer, neuron, link, separated by commas.
    Reading and writing the file are left to the caller: `Save` returns the
    text, and `Load` takes the file's content, or `Nothing` when it could
    not be read. */
module Persistence {
  import opened Results
  import opened Text
  import opened Neural
  import opened Manager

  /** How one weight is written (`fmt.Sprintf("%f")`) and read back
      (`strconv.ParseFloat` at 32 bits, then the conversion to `float32`). */
  datatype Codec = Codec(format: real -> string, parse: string -> Option<real>)

  /** What the file format needs of the codec: a written weight holds
      neither separator and reads back as a number. */
  ghost predicate Readable(c: Codec) {
    && (forall w: real :: ',' !in c.format(w) && '|' !in c.format(w))
    && (forall w: real :: c.parse(c.format(w)).Some?)
  }

  /** The codec reads back exactly the weight it wrote. */
  ghost predicate Exact(c: Codec) {
    forall w: real :: c.parse(c.format(w)) == Some(w)
  }

  lemma ExactAt(c: Codec, w: real)
    requires Exact(c)
    ensures c.parse(c.format(w)) == Some(w)
  {
  }

  /** The layer sizes as decimal text. */
  function LayerTexts(layers: seq<nat>): (texts: seq<string>)
    ensures |texts| == |layers|
    ensures forall i | 0 <= i < |layers| :: texts[i] == Itoa(layers[i])
  {
    seq(|layers|, i requires 0 <= i < |layers| => Itoa(layers[i]))
  }

  /** The weights as text, one entry per weight. */
  function WeightTexts(ws: seq<real>, c: Codec): (texts: seq<string>)
    ensures |texts| == |ws|
    ensures forall i | 0 <= i < |ws| :: texts[i] == c.format(ws[i])
  {
    seq(|ws|, i requires 0 <= i < |ws| => c.format(ws[i]))
  }

  /** The layer sizes separated by commas: the first half of a saved file. */
  function Header(layers: seq<nat>): string {
    Join(LayerTexts(layers), ",")
  }

  /** `SaveToFile` without the file: the manager's networks are ordered by
      fitness (the sort reorders the caller's slice as well, which shares
      its backing array), and the text holds the layer sizes and the
      weights of the fittest network. The loops append a comma after every
      layer size but the last and after every weight, and the last
      character is cut off; without weights, that character is the bar.
      An empty population makes the source panic. */
  function Save(m: NetworkManager, c: Codec): (r: (string, NetworkManager))
    requires |m.networks| >= 1
    ensures r.1 == m.(networks := r.1.networks)
    ensures |r.1.networks| == |m.networks|
    ensures ByFitness(r.1.networks) && multiset(r.1.networks) == multiset(m.networks)
    ensures |Weights(r.1.networks[0])| >= 1 ==>
      r.0 == Header(m.layers) + "|" + Join(WeightTexts(Weights(r.1.networks[0]), c), ",")
    ensures |Weights(r.1.networks[0])| == 0 ==> r.0 == Header(m.layers)
  {
    var sorted := SortByFitness(m.networks);
    var ws := Weights(sorted[0]);
    var text := Header(m.layers) + "|" + Terminated(WeightTexts(ws, c), ",");
    if |ws| >= 1 then
      TerminatedIsJoin(WeightTexts(ws, c), ',');
      assert text == Header(m.layers) + "|" + Join(WeightTexts(ws, c), ",") + ",";
      (text[..|text| - 1], m.(networks := sorted))
    else
      assert text == Header(m.layers) + "|";
      (text[..|text| - 1], m.(networks := sorted))
  }

  /** Why `LoadFromFile` gives up: the file could not be read, it has not
      exactly one bar, the number of layer sizes differs, a layer size is
      not an integer or differs, there are fewer weights than the network
      needs, or a weight is not a number. */
  datatype LoadError =
    | ReadFailed
    | IncorrectFormat
    | IncompatibleLayerCount
    | LayerNotInteger(index: nat)
    | IncompatibleLayer(index: nat, parsed: int)
    | IncompatibleWeightsLength
    | WeightNotNumber(index: nat)

  /** The layer loop of `LoadFromFile` from index `i`: the first entry that
      is not an integer, or is one that differs from the layer size, ends
      the load. */
  function CheckLayers(texts: seq<string>, layers: seq<nat>, i: nat): (r: Option<LoadError>)
    requires |texts| == |layers| && i <= |layers|
    ensures r.Nothing? <==> forall j | i <= j < |layers| :: Atoi(texts[j]) == Some(layers[j] as int)
    ensures r.Some? ==>
      && (r.value.LayerNotInteger? || r.value.IncompatibleLayer?)
      && i <= r.value.index < |layers|
      && (forall j | i <= j < r.value.index :: Atoi(texts[j]) == Some(layers[j] as int))
      && (r.value.LayerNotInteger? <==> Atoi(texts[r.value.index]).Nothing?)
      && (r.value.IncompatibleLayer? ==>
            Atoi(texts[r.value.index]) == Some(r.value.parsed) && r.value.parsed != layers[r.value.index])
    decreases |layers| - i
  {
    if i == |layers| then Nothing
    else
      match Atoi(texts[i])
      case Nothing => Some(LayerNotInteger(i))
      case Some(v) => if v != layers[i] then Some(IncompatibleLayer(i, v)) else CheckLayers(texts, layers, i + 1)
  }

  /** The weight loop of `LoadFromFile` from weight `i` of `count`: each
      weight first needs an entry at its index, then that entry must read
      as a number; the first failure ends the load. Entries past `count`
      are ignored. */
  function ReadWeights(texts: seq<string>, c: Codec, count: nat, i: nat): (r: Result<seq<real>, LoadError>)
    requires i <= count
    ensures r.Ok? <==> (i < count ==> count <= |texts|) && forall j | i <= j < count :: c.parse(texts[j]).Some?
    ensures r.Ok? ==> |r.value| == count - i && forall j | i <= j < count :: c.parse(texts[j]) == Some(r.value[j - i])
    ensures r == Err(IncompatibleWeightsLength) <==>
      i < count && |texts| < count && forall j | i <= j < |texts| :: c.parse(texts[j]).Some?
    ensures r.Err? && !r.error.IncompatibleWeightsLength? ==>
      && r.error.WeightNotNumber?
      && i <= r.error.index < count && r.error.index < |texts|
      && c.parse(texts[r.error.index]).Nothing?
      && forall j | i <= j < r.error.index :: c.parse(texts[j]).Some?
    decreases count - i
  {
    if i == count then Ok([])
    else if i > |texts| - 1 then Err(IncompatibleWeightsLength)
    else
      match c.parse(texts[i])
      case Nothing => Err(WeightNotNumber(i))
      case Some(w) =>
        match ReadWeights(texts, c, count, i + 1)
        case Err(e) => Err(e)
        case Ok(ws) => Ok([w] + ws)
  }

  /** The two lists of layers have the same number of neurons per layer and
      of weights per neuron. */
  ghost predicate SameShape(a: seq<seq<Neuron>>, b: seq<seq<Neuron>>) {
    && |a| == |b|
    && (forall l | 0 <= l < |a| :: |a[l]| == |b[l]|)
    && (forall l, n | 0 <= l < |a| && 0 <= n < |a[l]| :: |a[l][n].weights| == |b[l][n].weights|)
  }

  /** New neurons shaped like those of `layer`, holding zero and taking
      their weights in order from `ws`. */
  function RebuildLayer(layer: seq<Neuron>, ws: seq<real>): (out: seq<Neuron>)
    requires |ws| == |NeuronWeights(layer)|
    ensures |out| == |layer|
    ensures forall n | 0 <= n < |layer| :: out[n].value == 0.0 && |out[n].weights| == |layer[n].weights|
    ensures NeuronWeights(out) == ws
  {
    if |layer| == 0 then []
    else
      var k := |layer[0].weights|;
      var rest := RebuildLayer(layer[1..], ws[k..]);
      var out := [Neuron(0.0, ws[..k])] + rest;
      assert out[1..] == rest;
      out
  }

  /** New layers shaped like `layers`, holding zeros and taking their
      weights in order from `ws`: the network `LoadFromFile` assembles. */
  function Rebuild(layers: seq<seq<Neuron>>, ws: seq<real>): (out: seq<seq<Neuron>>)
    requires |ws| == |LayerWeights(layers)|
    ensures SameShape(out, layers) && Quiet(out)
    ensures LayerWeights(out) == ws
  {
    if |layers| == 0 then []
    else
      var k := |NeuronWeights(layers[0])|;
      var first := RebuildLayer(layers[0], ws[..k]);
      var rest := Rebuild(layers[1..], ws[k..]);
      var out := [first] + rest;
      assert out[1..] == rest;
      out
  }

  /** Within one layer, neurons of the same shape with the same flattened
      weights have the same weights one by one. */
  lemma {:induction false} NeuronWeightsDetermine(a: seq<Neuron>, b: seq<Neuron>)
    requires |a| == |b| && forall n | 0 <= n < |a| :: |a[n].weights| == |b[n].weights|
    requires NeuronWeights(a) == NeuronWeights(b)
    ensures forall n | 0 <= n < |a| :: a[n].weights == b[n].weights
  {
    if |a| > 0 {
      var k := |a[0].weights|;
      assert NeuronWeights(a)[..k] == a[0].weights;
      assert NeuronWeights(b)[..k] == b[0].weights;
      assert NeuronWeights(a)[k..] == NeuronWeights(a[1..]);
      assert NeuronWeights(b)[k..] == NeuronWeights(b[1..]);
      NeuronWeightsDetermine(a[1..], b[1..]);
      forall n | 1 <= n < |a| ensures a[n].weights == b[n].weights {
        assert a[n] == a[1..][n - 1] && b[n] == b[1..][n - 1];
      }
    }
  }

  lemma NeuronWeightsLength(a: seq<Neuron>, b: seq<Neuron>)
    requires |a| == |b| && forall n | 0 <= n < |a| :: |a[n].weights| == |b[n].weights|
    ensures |NeuronWeights(a)| == |NeuronWeights(b)|
  {
    if |a| > 0 {
      NeuronWeightsLength(a[1..], b[1..]);
    }
  }

  /** Flattening loses nothing once the shape is known: lists of layers of
      the same shape with the same weight sequence have the same weights
      neuron by neuron. `Rebuild` is thus the inverse of `LayerWeights`. */
  lemma {:induction false} ShapeAndWeightsDetermineLinks(a: seq<seq<Neuron>>, b: seq<seq<Neuron>>)
    requires SameShape(a, b) && LayerWeights(a) == LayerWeights(b)
    ensures SameLinks(a, b)
  {
    if |a| > 0 {
      NeuronWeightsLength(a[0], b[0]);
      var k := |NeuronWeights(a[0])|;
      assert LayerWeights(a)[..k] == NeuronWeights(a[0]);
      assert LayerWeights(b)[..k] == NeuronWeights(b[0]);
      assert LayerWeights(a)[k..] == LayerWeights(a[1..]);
      assert LayerWeights(b)[k..] == LayerWeights(b[1..]);
      NeuronWeightsDetermine(a[0], b[0]);
      ShapeAndWeightsDetermineLinks(a[1..], b[1..]);
      forall l, n | 1 <= l < |a| && 0 <= n < |a[l]| ensures a[l][n].weights == b[l][n].weights {
        assert a[l] == a[1..][l - 1] && b[l] == b[1..][l - 1];
      }
    }
  }

  /** `LoadFromFile` without the file. The checks run in the source's
      order; on success the network is rebuilt in the shape of the first
      network of the population, with zero values, zero fitness and the
      weights read, and it takes the place of the last network (the write
      goes through the slice the caller shares). The source panics when
      the population is empty. */
  function Load(m: NetworkManager, content: Option<string>, c: Codec): (r: Result<NetworkManager, LoadError>)
    requires |m.networks| >= 1
    ensures content.Nothing? ==> r == Err(ReadFailed)
    ensures content.Some? && Occurrences(content.value, '|') != 1 ==> r == Err(IncorrectFormat)
  {
    if content.Nothing? then Err(ReadFailed)
    else
      var parts := Split(content.value, '|');
      if |parts| != 2 then Err(IncorrectFormat)
      else LoadParts(m, Split(parts[0], ','), Split(parts[1], ','), c)
  }

  /** Loading succeeds exactly when the text has one '|', as many layer
      sizes as the manager has layers, each equal to the manager's, and
      at least as many readable weights as the first network has. */
  lemma LoadSucceedsExactly(m: NetworkManager, content: Option<string>, c: Codec)
    requires |m.networks| >= 1
    ensures var r := Load(m, content, c);
      r.Ok? <==>
      && content.Some?
      && Occurrences(content.value, '|') == 1
      && var parts := Split(content.value, '|');
         var layerTexts := Split(parts[0], ',');
         var weightTexts := Split(parts[1], ',');
         && |layerTexts| == |m.layers|
         && (forall j | 0 <= j < |m.layers| :: Atoi(layerTexts[j]) == Some(m.layers[j] as int))
         && |Weights(m.networks[0])| <= |weightTexts|
         && (forall j | 0 <= j < |Weights(m.networks[0])| :: c.parse(weightTexts[j]).Some?)
  {
  }

  /** A successful load keeps all but the last network and puts there a
      network shaped like the first, holding zeros and the weights read
      from the first entries of the body. */
  lemma LoadedNetwork(m: NetworkManager, content: Option<string>, c: Codec)
    requires |m.networks| >= 1
    ensures var r := Load(m, content, c);
      r.Ok? ==>
      && r.value == m.(networks := r.value.networks)
      && |r.value.networks| == |m.networks|
      && r.value.networks[..|m.networks| - 1] == m.networks[..|m.networks| - 1]
      && var loaded := r.value.networks[|m.networks| - 1];
         var weightTexts := Split(Split(content.value, '|')[1], ',');
         && loaded.fitness == 0.0
         && Quiet(loaded.layers)
         && SameShape(loaded.layers, m.networks[0].layers)
         && |Weights(loaded)| == |Weights(m.networks[0])|
         && forall j | 0 <= j < |Weights(loaded)| :: c.parse(weightTexts[j]) == Some(Weights(loaded)[j])
  {
  }

  /** `LoadFromFile` once the text has split into a header and a body:
      the layer count first, then each layer size, then the weights. */
  function LoadParts(m: NetworkManager, layerTexts: seq<string>, weightTexts: seq<string>, c: Codec)
    : (r: Result<NetworkManager, LoadError>)
    requires |m.networks| >= 1
    ensures r == Err(IncompatibleLayerCount) <==> |layerTexts| != |m.layers|
    ensures r.Ok? <==>
      && |layerTexts| == |m.layers|
      && (forall j | 0 <= j < |m.layers| :: Atoi(layerTexts[j]) == Some(m.layers[j] as int))
      && |Weights(m.networks[0])| <= |weightTexts|
      && (forall j | 0 <= j < |Weights(m.networks[0])| :: c.parse(weightTexts[j]).Some?)
    ensures r.Ok? ==>
      && r.value == m.(networks := r.value.networks)
      && |r.value.networks| == |m.networks|
      && r.value.networks[..|m.networks| - 1] == m.networks[..|m.networks| - 1]
      && var loaded := r.value.networks[|m.networks| - 1];
         && loaded.fitness == 0.0
         && Quiet(loaded.layers)
         && SameShape(loaded.layers, m.networks[0].layers)
         && |Weights(loaded)| == |Weights(m.networks[0])|
         && forall j | 0 <= j < |Weights(loaded)| :: c.parse(weightTexts[j]) == Some(Weights(loaded)[j])
  {
    if |layerTexts| != |m.layers| then Err(IncompatibleLayerCount)
    else
      match CheckLayers(layerTexts, m.layers, 0)
      case Some(e) => Err(e)
      case Nothing =>
        match ReadWeights(weightTexts, c, |Weights(m.networks[0])|, 0)
        case Err(e) => Err(e)
        case Ok(ws) => Ok(Installed(m, ws))
  }

  /** The manager with its last network replaced by one shaped like the
      first, holding zeros and the weights `ws`. */
  function Installed(m: NetworkManager, ws: seq<real>): (r: NetworkManager)
    requires |m.networks| >= 1 && |ws| == |Weights(m.networks[0])|
    ensures r == m.(networks := r.networks)
    ensures |r.networks| == |m.networks|
    ensures r.networks[..|m.networks| - 1] == m.networks[..|m.networks| - 1]
    ensures var loaded := r.networks[|m.networks| - 1];
      && loaded.fitness == 0.0 && Quiet(loaded.layers)
      && SameShape(loaded.layers, m.networks[0].layers)
      && Weights(loaded) == ws
  {
    var last := |m.networks| - 1;
    m.(networks := m.networks[last := Network(0.0, Rebuild(m.networks[0].layers, ws))])
  }

  /** No layer size text holds a separator. */
  lemma HeaderAvoids(layers: seq<nat>, c: char)
    requires c == ',' || c == '|'
    ensures forall i | 0 <= i < |layers| :: c !in LayerTexts(layers)[i]
  {
    forall i | 0 <= i < |layers| ensures c !in LayerTexts(layers)[i] {
      assert !IsDigit(c) && c != '-';
    }
  }

  lemma FormatAvoids(c: Codec, w: real)
    requires Readable(c)
    ensures ',' !in c.format(w) && '|' !in c.format(w)
  {
  }

  /** No weight text holds a separator. */
  lemma WeightTextsAvoid(ws: seq<real>, c: Codec, sep: char)
    requires Readable(c) && (sep == ',' || sep == '|')
    ensures forall i | 0 <= i < |ws| :: sep !in WeightTexts(ws, c)[i]
  {
    forall i | 0 <= i < |ws| ensures sep !in WeightTexts(ws, c)[i] {
      FormatAvoids(c, ws[i]);
    }
  }

  /** The file `Save` writes splits back into its header and its weight
      entries, when the network has weights and a layer size. */
  lemma SavedTextSplits(layers: seq<nat>, ws: seq<real>, c: Codec)
    requires Readable(c) && |layers| >= 1 && |ws| >= 1
    ensures var text := Header(layers) + "|" + Join(WeightTexts(ws, c), ",");
      && Split(text, '|') == [Header(layers), Join(WeightTexts(ws, c), ",")]
      && Split(Header(layers), ',') == LayerTexts(layers)
      && Split(Join(WeightTexts(ws, c), ","), ',') == WeightTexts(ws, c)
  {
    var header := Header(layers);
    var body := Join(WeightTexts(ws, c), ",");
    HeaderAvoids(layers, '|');
    HeaderAvoids(layers, ',');
    WeightTextsAvoid(ws, c, '|');
    WeightTextsAvoid(ws, c, ',');
    JoinExcludes(LayerTexts(layers), ",", '|');
    JoinExcludes(WeightTexts(ws, c), ",", '|');
    assert Join([header, body], "|") == header + "|" + body;
    SplitJoin([header, body], '|');
    SplitJoin(LayerTexts(layers), ',');
    SplitJoin(WeightTexts(ws, c), ',');
  }

  lemma ParseSucceeds(c: Codec, w: real)
    requires Readable(c)
    ensures c.parse(c.format(w)).Some?
  {
  }

  /** The text `Save` writes for a manager whose first network is `best`
      loads back into that manager: the last slot receives a network
      shaped like `best`, with zero values and fitness, whose weights are
      those of `best` after being written and read back. */
  lemma LoadSavedText(m: NetworkManager, c: Codec)
    requires |m.networks| >= 1 && Readable(c)
    requires |m.layers| >= 1 && forall i | 0 <= i < |m.layers| :: m.layers[i] <= MaxInt64
    requires |Weights(m.networks[0])| >= 1
    ensures var best := m.networks[0];
      var r := Load(m, Some(Header(m.layers) + "|" + Join(WeightTexts(Weights(best), c), ",")), c);
      && r.Ok?
      && r.value.networks[..|m.networks| - 1] == m.networks[..|m.networks| - 1]
      && var loaded := r.value.networks[|m.networks| - 1];
         && loaded.fitness == 0.0 && Quiet(loaded.layers)
         && SameShape(loaded.layers, best.layers)
         && |Weights(loaded)| == |Weights(best)|
         && forall j | 0 <= j < |Weights(best)| :: c.parse(c.format(Weights(best)[j])) == Some(Weights(loaded)[j])
  {
    var ws := Weights(m.networks[0]);
    var text := Header(m.layers) + "|" + Join(WeightTexts(ws, c), ",");
    SavedTextSplits(m.layers, ws, c);
    var parts := Split(text, '|');
    assert |parts| == 2;
    forall j | 0 <= j < |m.layers| ensures Atoi(LayerTexts(m.layers)[j]) == Some(m.layers[j] as int) {
      AtoiItoa(m.layers[j]);
    }
    forall j | 0 <= j < |ws| ensures c.parse(WeightTexts(ws, c)[j]).Some? {
      ParseSucceeds(c, ws[j]);
    }
    LoadSucceedsExactly(m, Some(text), c);
    LoadedNetwork(m, Some(text), c);
  }

  /** Saving and loading back: when the fittest network has weights and
      there is at least one layer size and every one fits a 64-bit
      integer, the saved text loads into the sorted population. Its last
      slot then holds a network shaped like the fittest one, with zero
      values and fitness, whose weights are the fittest network's weights
      after being written and read back. */
  lemma SaveThenLoad(m: NetworkManager, c: Codec)
    requires |m.networks| >= 1 && Readable(c)
    requires |m.layers| >= 1 && forall i | 0 <= i < |m.layers| :: m.layers[i] <= MaxInt64
    requires |Weights(Save(m, c).1.networks[0])| >= 1
    ensures var saved := Save(m, c);
      var best := saved.1.networks[0];
      var r := Load(saved.1, Some(saved.0), c);
      && r.Ok?
      && r.value.networks[..|m.networks| - 1] == saved.1.networks[..|m.networks| - 1]
      && var loaded := r.value.networks[|m.networks| - 1];
         && loaded.fitness == 0.0 && Quiet(loaded.layers)
         && SameShape(loaded.layers, best.layers)
         && |Weights(loaded)| == |Weights(best)|
         && forall j | 0 <= j < |Weights(best)| :: c.parse(c.format(Weights(best)[j])) == Some(Weights(loaded)[j])
  {
    var saved := Save(m, c);
    assert saved.1.layers == m.layers;
    LoadSavedText(saved.1, c);
  }

  /** With a codec that reads back exactly what it writes, the loaded
      network has the fittest network's sizes and weights link by link;
      only its values and fitness are reset. */
  lemma SaveThenLoadExactly(m: NetworkManager, c: Codec)
    requires |m.networks| >= 1 && Readable(c)
    requires Exact(c)
    requires |m.layers| >= 1 && forall i | 0 <= i < |m.layers| :: m.layers[i] <= MaxInt64
    requires |Weights(Save(m, c).1.networks[0])| >= 1
    ensures var saved := Save(m, c);
      var r := Load(saved.1, Some(saved.0), c);
      && r.Ok?
      && var loaded := r.value.networks[|m.networks| - 1];
         && SameLinks(loaded.layers, saved.1.networks[0].layers)
         && Quiet(loaded.layers) && loaded.fitness == 0.0
  {
    var saved := Save(m, c);
    SaveThenLoad(m, c);
    var loaded := Load(saved.1, Some(saved.0), c).value.networks[|m.networks| - 1];
    ReadBackExactly(loaded, saved.1.networks[0], c);
  }

  /** A network read back through an exact codec has the links of the
      network written. */
  lemma ReadBackExactly(loaded: Network, best: Network, c: Codec)
    requires Exact(c)
    requires SameShape(loaded.layers, best.layers) && |Weights(loaded)| == |Weights(best)|
    requires forall j | 0 <= j < |Weights(best)| :: c.parse(c.format(Weights(best)[j])) == Some(Weights(loaded)[j])
    ensures SameLinks(loaded.layers, best.layers)
  {
    forall j | 0 <= j < |Weights(best)| ensures Weights(loaded)[j] == Weights(best)[j] {
      ExactAt(c, Weights(best)[j]);
    }
    assert Weights(loaded) == Weights(best);
    ShapeAndWeightsDetermineLinks(loaded.layers, best.layers);
  }

  /** When the fittest network has no weights, `Save` cuts the bar off and
      the text it writes cannot be loaded back. */
  lemma SaveWithoutWeightsCannotLoad(m: NetworkManager, c: Codec)
    requires |m.networks| >= 1
    requires |Weights(Save(m, c).1.networks[0])| == 0
    ensures Load(Save(m, c).1, Some(Save(m, c).0), c) == Err(IncorrectFormat)
  {
    HeaderAvoids(m.layers, '|');
    JoinExcludes(LayerTexts(m.layers), ",", '|');
    assert multiset(Header(m.layers))['|'] == 0;
  }
}
