/** The population of networks: its construction, the ordering by fitness
    and the step to the next generation. The random source is the stream
    of draws of `Neural`, and the manager records how far into it it has
    read, so that networks made later continue where earlier ones stopped. */
module Manager {
  import opened Neural

  /** `NetworkManager`: the networks, the generation counter, the layer
      sizes every network is built with, and the position of the next
      unread draw. */
  datatype NetworkManager = NetworkManager(networks: seq<Network>, generation: int, layers: seq<nat>, cursor: nat)

  /** `makeLayers`: the input size, the hidden sizes in order, the output size. */
  function MakeLayers(inputs: nat, outputs: nat, hidden: seq<nat>): (sizes: seq<nat>)
    ensures |sizes| == |hidden| + 2
    ensures sizes[0] == inputs && sizes[|sizes| - 1] == outputs
    ensures forall k | 0 <= k < |hidden| :: sizes[k + 1] == hidden[k]
  {
    [inputs] + hidden + [outputs]
  }

  /** `count` networks built one after another from the stream: the k-th
      from position `start + Blocks(k, WeightCount(sizes))`. */
  function NewNetworks(sizes: seq<nat>, count: nat, draws: Draws, start: nat): (nets: seq<Network>)
    ensures |nets| == count
    ensures forall k {:trigger nets[k]} | 0 <= k < count ::
      nets[k] == NewNetwork(sizes, draws, start + Blocks(k, WeightCount(sizes)))
  {
    seq(count, k requires 0 <= k < count => NewNetwork(sizes, draws, start + Blocks(k, WeightCount(sizes))))
  }

  /** Every network of the pool has the sizes `sizes`, fitness zero, and
      as weights its own block of draws: the k-th network the block from
      position `start + Blocks(k, WeightCount(sizes))` on. */
  ghost predicate FreshPool(pool: seq<Network>, sizes: seq<nat>, draws: Draws, start: nat) {
    forall k {:trigger pool[k]} | 0 <= k < |pool| ::
      && Shaped(pool[k], sizes) && pool[k].fitness == 0.0
      && Weights(pool[k]) == Window(draws, start + Blocks(k, WeightCount(sizes)), WeightCount(sizes))
  }

  /** The networks `NewNetworks` builds form a fresh pool. */
  lemma PoolIsFresh(pool: seq<Network>, sizes: seq<nat>, count: nat, draws: Draws, start: nat)
    requires pool == NewNetworks(sizes, count, draws, start)
    ensures |pool| == count && FreshPool(pool, sizes, draws, start)
  {
    forall k {:trigger pool[k]} | 0 <= k < count
      ensures Shaped(pool[k], sizes) && pool[k].fitness == 0.0
      ensures Weights(pool[k]) == Window(draws, start + Blocks(k, WeightCount(sizes)), WeightCount(sizes))
    {
      var net := NewNetwork(sizes, draws, start + Blocks(k, WeightCount(sizes)));
    }
  }

  /** `NewNetworkManager`: generation 0 and a fresh pool of `population`
      networks of the layer sizes `MakeLayers(inputs, outputs, hidden)`,
      the k-th one built from the k-th block of `WeightCount` draws. */
  function NewNetworkManager(inputs: nat, outputs: nat, hidden: seq<nat>, population: nat,
                             draws: Draws, start: nat): (m: NetworkManager)
    ensures m.generation == 0 && m.layers == MakeLayers(inputs, outputs, hidden)
    ensures |m.networks| == population
    ensures FreshPool(m.networks, m.layers, draws, start)
    ensures m.cursor == start + Blocks(population, WeightCount(m.layers))
  {
    var sizes := MakeLayers(inputs, outputs, hidden);
    var pool := NewNetworks(sizes, population, draws, start);
    PoolIsFresh(pool, sizes, population, draws, start);
    NetworkManager(pool, 0, sizes, start + Blocks(population, WeightCount(sizes)))
  }

  /** With at least one hidden layer, every network of a new manager can be
      run on an input of the input size. */
  lemma NewNetworksAreRunnable(inputs: nat, outputs: nat, hidden: seq<nat>, population: nat,
                               draws: Draws, start: nat, k: nat, input: seq<real>)
    requires |hidden| >= 1 && k < population && |input| == inputs
    ensures Runnable(NewNetworkManager(inputs, outputs, hidden, population, draws, start).networks[k], input)
  {
    var m := NewNetworkManager(inputs, outputs, hidden, population, draws, start);
    var net := m.networks[k];
    assert Shaped(net, m.layers);
    assert |net.layers[0]| == inputs;
    forall l, n | 1 <= l < |net.layers| && 0 <= n < |net.layers[l]|
      ensures |net.layers[l][n].weights| >= |net.layers[l - 1]|
    {
      assert |net.layers[l][n].weights| == m.layers[l - 1];
    }
  }

  /** The order `sortNetworksByFitness` establishes: fitness never increases
      along the sequence. */
  ghost predicate ByFitness(s: seq<Network>) {
    forall i, j | 0 <= i < j < |s| :: s[i].fitness >= s[j].fitness
  }

  /** `net` placed into a sequence ordered by fitness, before the first
      network that is not fitter. */
  function Insert(net: Network, s: seq<Network>): (r: seq<Network>)
    requires ByFitness(s)
    ensures ByFitness(r)
    ensures multiset(r) == multiset(s) + multiset{net}
    ensures |r| == |s| + 1
  {
    if |s| == 0 || s[0].fitness <= net.fitness then [net] + s
    else
      var rest := Insert(net, s[1..]);
      InsertBehindHead(net, s, rest);
      [s[0]] + rest
  }

  /** A network less fit than the head of `s`, inserted among the others,
      leaves the head in front. */
  lemma InsertBehindHead(net: Network, s: seq<Network>, rest: seq<Network>)
    requires ByFitness(s) && |s| >= 1 && s[0].fitness > net.fitness
    requires ByFitness(rest) && multiset(rest) == multiset(s[1..]) + multiset{net}
    ensures ByFitness([s[0]] + rest)
    ensures multiset([s[0]] + rest) == multiset(s) + multiset{net}
  {
    var r := [s[0]] + rest;
    assert s == [s[0]] + s[1..];
    forall k | 0 <= k < |rest| ensures s[0].fitness >= rest[k].fitness {
      HeadBounds(net, s, rest, k);
    }
    assert forall i, j | 0 < i < j < |r| :: r[i] == rest[i - 1] && r[j] == rest[j - 1];
  }

  /** Every network of `rest` is `net` or one of the others of `s`, so the
      head of `s` is at least as fit. */
  lemma HeadBounds(net: Network, s: seq<Network>, rest: seq<Network>, k: nat)
    requires ByFitness(s) && |s| >= 1 && s[0].fitness > net.fitness
    requires multiset(rest) == multiset(s[1..]) + multiset{net}
    requires k < |rest|
    ensures s[0].fitness >= rest[k].fitness
  {
    assert rest[k] in multiset(rest);
    if rest[k] != net {
      assert rest[k] in multiset(s[1..]);
      var j :| 0 <= j < |s[1..]| && s[1..][j] == rest[k];
      assert s[j + 1] == rest[k];
    }
  }

  /** `sortNetworksByFitness`: the same networks, fittest first. Go's
      `sort.Slice` leaves the order of equally fit networks open; this is
      one admissible order. */
  function SortByFitness(s: seq<Network>): (r: seq<Network>)
    ensures ByFitness(r)
    ensures multiset(r) == multiset(s)
    ensures |r| == |s|
  {
    if |s| == 0 then []
    else
      assert s == [s[0]] + s[1..];
      Insert(s[0], SortByFitness(s[1..]))
  }

  /** The first network of a sequence ordered by fitness is at least as fit
      as every network of the original population. */
  lemma SortedHeadIsFittest(s: seq<Network>)
    requires |s| >= 1
    ensures SortByFitness(s)[0] in s
    ensures forall k | 0 <= k < |s| :: SortByFitness(s)[0].fitness >= s[k].fitness
  {
    var r := SortByFitness(s);
    assert r[0] in multiset(r);
    forall k | 0 <= k < |s| ensures r[0].fitness >= s[k].fitness {
      assert s[k] in multiset(r);
      var j :| 0 <= j < |r| && r[j] == s[k];
      assert j == 0 || r[0].fitness >= r[j].fitness;
    }
  }

  /** Index of the first slot of a population of `n` that gets a new
      random network: the least `k` with `k / n >= 0.9`. */
  function FreshStart(n: nat): nat {
    (9 * n + 9) / 10
  }

  /** `FreshStart(n)` is the least slot `k` with `10 * k >= 9 * n`. */
  lemma FreshStartIsLeast(n: nat, k: int)
    ensures k >= FreshStart(n) <==> 10 * k >= 9 * n
  {
  }

  /** A tenth of the population, rounded down, is replaced by new random
      networks. */
  lemma FreshShare(n: nat)
    ensures FreshStart(n) <= n
    ensures n - FreshStart(n) == n / 10
  {
    var q, r := n / 10, n % 10;
    assert n == 10 * q + r;
    assert (9 * n + 9) / 10 == 9 * q + (9 * r + 9) / 10;
  }

  /** Which of the three fittest networks the slot `k` of `n` descends
      from: the fittest up to half the population, the second up to
      eight tenths, the third up to nine tenths. */
  function Parent(n: nat, k: nat): (p: nat)
    ensures p < 3
    ensures p == 0 <==> 10 * k < 5 * n
    ensures p == 1 <==> 5 * n <= 10 * k < 8 * n
  {
    if 10 * k < 5 * n then 0 else if 10 * k < 8 * n then 1 else 2
  }

  /** The network for slot `k` of the next generation, given the fittest
      three in `sorted`: slot 0 keeps the fittest itself, the other slots
      up to nine tenths take a mutant of their parent. */
  function Offspring(sorted: seq<Network>, k: nat): Network
    requires |sorted| >= 3
  {
    if k == 0 then sorted[0] else Mutated(sorted[Parent(|sorted|, k)])
  }

  /** The next population from the networks `sorted` by fitness and the
      pool `made` of new networks: the offspring below `FreshStart`, then
      the pool in order. */
  function Assemble(sorted: seq<Network>, made: seq<Network>): (next: seq<Network>)
    requires |sorted| >= 3 && |made| == |sorted| / 10
    ensures |next| == |sorted|
    ensures forall k | 0 <= k < FreshStart(|sorted|) :: next[k] == Offspring(sorted, k)
    ensures forall k | FreshStart(|sorted|) <= k < |sorted| :: next[k] == made[k - FreshStart(|sorted|)]
  {
    var n := |sorted|;
    FreshShare(n);
    seq(n, k requires 0 <= k < n => if k < FreshStart(n) then Offspring(sorted, k) else made[k - FreshStart(n)])
  }

  /** `NextGeneration`: orders the population by fitness and replaces it by
      one of the same size (the slots are described by `NextGenerationSlot`);
      the generation counter goes up by one and a tenth of the population,
      rounded down, is made from new draws. Populations below three make
      the source panic. */
  function NextGeneration(m: NetworkManager, draws: Draws): (r: NetworkManager)
    requires |m.networks| >= 3
    ensures |r.networks| == |m.networks| && r.layers == m.layers && r.generation == m.generation + 1
    ensures r.cursor == m.cursor + Blocks(|m.networks| / 10, WeightCount(m.layers))
  {
    var sorted := SortByFitness(m.networks);
    var made := NewNetworks(m.layers, |sorted| / 10, draws, m.cursor);
    NetworkManager(Assemble(sorted, made), m.generation + 1, m.layers, m.cursor + Blocks(|sorted| / 10, WeightCount(m.layers)))
  }

  /** Slot `k` of the next generation: slot 0 keeps the fittest network,
      the slots below half the population take mutants of the fittest,
      those below eight tenths of the second fittest, those below nine
      tenths of the third, and the rest, in order, the networks of the pool
      `NewNetworks` makes one after another from the unread draws. */
  lemma NextGenerationSlot(m: NetworkManager, draws: Draws, k: nat)
    requires |m.networks| >= 3 && k < |m.networks|
    ensures var sorted := SortByFitness(m.networks);
      var n := |m.networks|;
      var r := NextGeneration(m, draws);
      && (k == 0 ==> r.networks[k] == sorted[0])
      && (0 < k && 10 * k < 5 * n ==> r.networks[k] == Mutated(sorted[0]))
      && (5 * n <= 10 * k < 8 * n ==> r.networks[k] == Mutated(sorted[1]))
      && (8 * n <= 10 * k < 9 * n ==> r.networks[k] == Mutated(sorted[2]))
      && (10 * k >= 9 * n ==>
            && 0 <= k - FreshStart(n) < n / 10
            && r.networks[k] == NewNetworks(m.layers, n / 10, draws, m.cursor)[k - FreshStart(n)])
  {
    var n := |m.networks|;
    FreshStartIsLeast(n, k);
    if 10 * k < 9 * n {
      KeptSlot(m, draws, k);
    } else {
      PooledSlot(m, draws, k);
    }
  }

  lemma KeptSlot(m: NetworkManager, draws: Draws, k: nat)
    requires |m.networks| >= 3 && k < |m.networks| && k < FreshStart(|m.networks|)
    ensures NextGeneration(m, draws).networks[k] == Offspring(SortByFitness(m.networks), k)
  {
  }

  lemma PooledSlot(m: NetworkManager, draws: Draws, k: nat)
    requires |m.networks| >= 3 && k < |m.networks| && k >= FreshStart(|m.networks|)
    ensures FreshStart(|m.networks|) <= k < FreshStart(|m.networks|) + |m.networks| / 10
    ensures NextGeneration(m, draws).networks[k] ==
      NewNetworks(m.layers, |m.networks| / 10, draws, m.cursor)[k - FreshStart(|m.networks|)]
  {
    var sorted := SortByFitness(m.networks);
    FreshShare(|sorted|);
    AssembledFromPool(sorted, NewNetworks(m.layers, |sorted| / 10, draws, m.cursor), k);
  }

  /** The slots from `FreshStart` on come from the pool, in order. */
  lemma AssembledFromPool(sorted: seq<Network>, made: seq<Network>, k: nat)
    requires |sorted| >= 3 && |made| == |sorted| / 10 && FreshStart(|sorted|) <= k < |sorted|
    ensures k - FreshStart(|sorted|) < |made|
    ensures Assemble(sorted, made)[k] == made[k - FreshStart(|sorted|)]
  {
    FreshShare(|sorted|);
  }

  /** The fittest network of a generation survives into the next one, in
      slot 0. */
  lemma NextGenerationKeepsFittest(m: NetworkManager, draws: Draws)
    requires |m.networks| >= 3
    ensures NextGeneration(m, draws).networks[0] in m.networks
    ensures forall k | 0 <= k < |m.networks| ::
      NextGeneration(m, draws).networks[0].fitness >= m.networks[k].fitness
  {
    SortedHeadIsFittest(m.networks);
  }

  /** For a population of ten: slots 0 to 4 hold the fittest network,
      5 to 7 the second, 8 the third, and 9 the single new network made
      from the next block of draws. */
  lemma GenerationOfTen(m: NetworkManager, draws: Draws)
    requires |m.networks| == 10
    ensures var sorted := SortByFitness(m.networks);
      var r := NextGeneration(m, draws);
      && r.networks[0] == sorted[0]
      && (forall k | 1 <= k < 5 :: r.networks[k] == Mutated(sorted[0]))
      && (forall k | 5 <= k < 8 :: r.networks[k] == Mutated(sorted[1]))
      && r.networks[8] == Mutated(sorted[2])
      && r.networks[9] == NewNetworks(m.layers, 1, draws, m.cursor)[0]
      && r.cursor == m.cursor + WeightCount(m.layers)
  {
    KeptOfTen(m, draws);
    FreshOfTen(m, draws);
  }

  /** Slots 0 to 8 of a generation of ten. */
  lemma KeptOfTen(m: NetworkManager, draws: Draws)
    requires |m.networks| == 10
    ensures var sorted := SortByFitness(m.networks);
      var r := NextGeneration(m, draws);
      && r.networks[0] == sorted[0]
      && (forall k | 1 <= k < 5 :: r.networks[k] == Mutated(sorted[0]))
      && (forall k | 5 <= k < 8 :: r.networks[k] == Mutated(sorted[1]))
      && r.networks[8] == Mutated(sorted[2])
  {
    assert FreshStart(10) == 9;
    forall k | 0 <= k < 9 ensures NextGeneration(m, draws).networks[k] == Offspring(SortByFitness(m.networks), k) {
      KeptSlot(m, draws, k);
    }
  }

  /** Slot 9 of a generation of ten, and the cursor after it. */
  lemma FreshOfTen(m: NetworkManager, draws: Draws)
    requires |m.networks| == 10
    ensures var r := NextGeneration(m, draws);
      && r.networks[9] == NewNetworks(m.layers, 1, draws, m.cursor)[0]
      && r.cursor == m.cursor + WeightCount(m.layers)
  {
    assert FreshStart(10) == 9;
    PooledSlot(m, draws, 9);
  }
}
