/** The genetic operators of the training loop, over individuals given as
    their network's weight layers. Every random choice (the parent pair and
    split points of crossover, the mutation coin and noise) is a parameter,
    so the operators are pure. */
module Genetics {

  /** One weight tensor: its values in row-major order and its shape. */
  datatype Layer = Layer(values: seq<real>, shape: seq<nat>)

  /** An individual is the list of its network's weight tensors. */
  type Individual = seq<Layer>

  const PopulationSize: nat := 20

  /** Truncation selection keeps the top fifth of the configured size. */
  const ParentCount: nat := PopulationSize / 5

  function Product(dims: seq<nat>): nat {
    if |dims| == 0 then 1 else dims[0] * Product(dims[1..])
  }

  /** The flat values fill the shape exactly, so they can be reshaped to it. */
  predicate WellShaped(layer: Layer) {
    |layer.values| == Product(layer.shape)
  }

  /** The individual's layers have exactly the shapes listed in arch. */
  predicate HasShapes(ind: Individual, arch: seq<seq<nat>>) {
    && |ind| == |arch|
    && forall l :: 0 <= l < |ind| ==> ind[l].shape == arch[l] && WellShaped(ind[l])
  }

  /** Every individual of the population has the architecture arch. */
  predicate SameArchitecture(population: seq<Individual>, arch: seq<seq<nat>>) {
    forall i :: 0 <= i < |population| ==> HasShapes(population[i], arch)
  }

  predicate Distinct(s: seq<nat>) {
    forall i, j :: 0 <= i < j < |s| ==> s[i] != s[j]
  }

  function Min(a: nat, b: nat): nat {
    if a <= b then a else b
  }

  // ---------------------------------------------------------------------
  // Selection

  function Range(n: nat): (r: seq<nat>)
    ensures |r| == n && Distinct(r)
    ensures forall i :: 0 <= i < n ==> r[i] == i
  {
    seq(n, i requires 0 <= i < n => i)
  }

  /** s without its element at position m. */
  function RemoveAt(s: seq<nat>, m: nat): (r: seq<nat>)
    requires m < |s| && Distinct(s)
    ensures |r| == |s| - 1 && Distinct(r)
    ensures forall x :: x in r <==> x in s && x != s[m]
  {
    var r := s[..m] + s[m + 1..];
    assert forall i :: 0 <= i < |r| ==> r[i] == if i < m then s[i] else s[i + 1];
    assert forall x :: x in s && x != s[m] ==> x in r by {
      forall x | x in s && x != s[m]
        ensures x in r
      {
        var i :| 0 <= i < |s| && s[i] == x;
        if i < m { assert r[i] == x; } else { assert r[i - 1] == x; }
      }
    }
    r
  }

  /** The position in rest of a best score among the indices it holds. */
  method BestRemaining(rest: seq<nat>, scores: seq<real>) returns (m: nat)
    requires 0 < |rest|
    requires forall p :: 0 <= p < |rest| ==> rest[p] < |scores|
    ensures m < |rest|
    ensures forall x :: x in rest ==> scores[x] <= scores[rest[m]]
  {
    m := 0;
    for q := 1 to |rest|
      invariant m < |rest|
      invariant forall p :: 0 <= p < q ==> scores[rest[p]] <= scores[rest[m]]
    {
      if scores[rest[q]] > scores[rest[m]] {
        m := q;
      }
    }
  }

  /** Truncation selection: the indices of the ParentCount best scores (all
      of them when the population is smaller), best first, and the
      individuals at those indices. Ties may be taken in any order. */
  method Selection(population: seq<Individual>, scores: seq<real>)
      returns (parents: seq<Individual>, picks: seq<nat>)
    requires |scores| == |population|
    ensures |picks| == Min(ParentCount, |population|) && |parents| == |picks|
    ensures forall j :: 0 <= j < |picks| ==> picks[j] < |population| && parents[j] == population[picks[j]]
    ensures Distinct(picks)
    ensures forall j, k :: 0 <= j < k < |picks| ==> scores[picks[j]] >= scores[picks[k]]
    ensures forall j, i :: 0 <= j < |picks| && 0 <= i < |scores| && i !in picks ==>
      scores[i] <= scores[picks[j]]
  {
    var n := |population|;
    var count := Min(ParentCount, n);
    var rest: seq<nat> := Range(n);
    forall i | 0 <= i < n
      ensures i in rest
    {
      assert rest[i] == i;
    }
    picks := [];
    while |picks| < count
      invariant |picks| <= count
      invariant |picks| + |rest| == n
      invariant Distinct(picks) && Distinct(rest)
      invariant forall j :: 0 <= j < |picks| ==> picks[j] < n
      invariant forall p :: 0 <= p < |rest| ==> rest[p] < n
      invariant forall x :: x in rest ==> x < n && x !in picks
      invariant forall i :: 0 <= i < n ==> i in picks || i in rest
      invariant forall j, k :: 0 <= j < k < |picks| ==> scores[picks[j]] >= scores[picks[k]]
      invariant forall j, x :: 0 <= j < |picks| && x in rest ==> scores[x] <= scores[picks[j]]
      decreases count - |picks|
    {
      var m := BestRemaining(rest, scores);
      var best := rest[m];
      assert best in rest && best !in picks;
      picks := picks + [best];
      rest := RemoveAt(rest, m);
    }
    parents := seq(|picks|, j requires 0 <= j < |picks| => population[picks[j]]);
  }

  // ---------------------------------------------------------------------
  // Crossover

  /** The random choices of one breeding: two distinct parent positions and
      one split point per layer. */
  datatype Draw = Draw(first: nat, second: nat, splits: seq<nat>)

  /** The choices the random source can make for parentCount parents of
      architecture arch: distinct parents, each split in [0, layer size). */
  predicate ValidDraw(d: Draw, parentCount: nat, arch: seq<seq<nat>>) {
    && d.first < parentCount && d.second < parentCount && d.first != d.second
    && |d.splits| == |arch|
    && forall l :: 0 <= l < |arch| ==> d.splits[l] < Product(arch[l])
  }

  /** a's values before position s followed by b's from position s on. */
  function Splice(a: seq<real>, b: seq<real>, s: nat): (c: seq<real>)
    requires |a| == |b| && s <= |a|
    ensures |c| == |a|
    ensures c[..s] == a[..s] && c[s..] == b[s..]
    ensures forall g :: 0 <= g < |c| ==> c[g] == if g < s then a[g] else b[g]
  {
    a[..s] + b[s..]
  }

  /** The child taking p's prefix and q's suffix of every layer, reshaped to
      p's shapes. */
  function Cross(p: Individual, q: Individual, splits: seq<nat>, ghost arch: seq<seq<nat>>): (c: Individual)
    requires HasShapes(p, arch) && HasShapes(q, arch)
    requires |splits| == |arch|
    requires forall l :: 0 <= l < |arch| ==> splits[l] < Product(arch[l])
    ensures HasShapes(c, arch)
    ensures forall l :: 0 <= l < |c| ==>
      c[l] == Layer(Splice(p[l].values, q[l].values, splits[l]), p[l].shape)
  {
    seq(|p|, l requires 0 <= l < |p| => Layer(Splice(p[l].values, q[l].values, splits[l]), p[l].shape))
  }

  /** The two children of one breeding, in the order they join the
      offspring. */
  function Child(parents: seq<Individual>, d: Draw, second: bool, ghost arch: seq<seq<nat>>): Individual
    requires SameArchitecture(parents, arch)
    requires ValidDraw(d, |parents|, arch)
  {
    if second then Cross(parents[d.second], parents[d.first], d.splits, arch)
    else Cross(parents[d.first], parents[d.second], d.splits, arch)
  }

  /** Gene locality: in either child of a breeding, every value of every
      layer sits where it sat in one of the two parents: before the split
      from the parent named first for that child, from the split on from the
      other; the layer keeps its parent's shape and no value is
      interpolated. */
  lemma GeneLocality(parents: seq<Individual>, d: Draw, second: bool, arch: seq<seq<nat>>,
                     l: nat, g: nat)
    requires SameArchitecture(parents, arch)
    requires ValidDraw(d, |parents|, arch)
    requires l < |arch| && g < Product(arch[l])
    ensures var c := Child(parents, d, second, arch);
      var (p, q) := if second then (parents[d.second], parents[d.first]) else (parents[d.first], parents[d.second]);
      && c[l].shape == p[l].shape
      && (g < d.splits[l] ==> c[l].values[g] == p[l].values[g])
      && (g >= d.splits[l] ==> c[l].values[g] == q[l].values[g])
    ensures var c := Child(parents, d, second, arch);
      c[l].values[g] == parents[d.first][l].values[g] || c[l].values[g] == parents[d.second][l].values[g]
  {
  }

  /** Breeding rounds needed to fill the population after the elite. */
  const Breedings: nat := PopulationSize / 2

  /** Every draw is one the random source can make. */
  predicate DrawsValid(draws: seq<Draw>, parentCount: nat, arch: seq<seq<nat>>) {
    forall t :: 0 <= t < |draws| ==> ValidDraw(draws[t], parentCount, arch)
  }

  /** The offspring at position i >= 1: the children of breeding t sit at
      positions 1 + 2t and 2 + 2t. */
  function Bred(parents: seq<Individual>, draws: seq<Draw>, i: nat, ghost arch: seq<seq<nat>>): (c: Individual)
    requires SameArchitecture(parents, arch)
    requires DrawsValid(draws, |parents|, arch)
    requires 1 <= i <= 2 * |draws|
    ensures HasShapes(c, arch)
  {
    Child(parents, draws[(i - 1) / 2], (i - 1) % 2 == 1, arch)
  }

  /** The first n members of the crossover's output: the elite, then the
      bred children in order. */
  function Brood(parents: seq<Individual>, draws: seq<Draw>, n: nat, ghost arch: seq<seq<nat>>): (b: seq<Individual>)
    requires 1 <= |parents| && SameArchitecture(parents, arch)
    requires DrawsValid(draws, |parents|, arch)
    requires n <= 1 + 2 * |draws|
    ensures |b| == n
    ensures SameArchitecture(b, arch)
    ensures forall i :: 1 <= i < n ==> b[i] == Bred(parents, draws, i, arch)
    ensures 0 < n ==> b[0] == parents[0]
  {
    seq(n, i requires 0 <= i < n => if i == 0 then parents[0] else Bred(parents, draws, i, arch))
  }

  /** Growing the brood by one appends exactly the next bred child. */
  lemma BroodGrows(parents: seq<Individual>, draws: seq<Draw>, n: nat, arch: seq<seq<nat>>)
    requires 1 <= |parents| && SameArchitecture(parents, arch)
    requires DrawsValid(draws, |parents|, arch)
    requires 1 <= n < 1 + 2 * |draws|
    ensures Brood(parents, draws, n + 1, arch) == Brood(parents, draws, n, arch) + [Bred(parents, draws, n, arch)]
  {
  }

  /** Breeding t fills positions 1 + 2t and 2 + 2t with its two children. */
  lemma BredPair(parents: seq<Individual>, draws: seq<Draw>, t: nat, arch: seq<seq<nat>>)
    requires SameArchitecture(parents, arch)
    requires DrawsValid(draws, |parents|, arch)
    requires t < |draws|
    ensures Bred(parents, draws, 1 + 2 * t, arch) == Child(parents, draws[t], false, arch)
    ensures Bred(parents, draws, 2 + 2 * t, arch) == Child(parents, draws[t], true, arch)
  {
  }

  /** Elitist single-point crossover: the first parent is carried over
      unchanged, then each draw breeds two children until the population is
      full; the second child of the last draw is dropped when it would not
      fit. */
  method Crossover(parents: seq<Individual>, draws: seq<Draw>, ghost arch: seq<seq<nat>>)
      returns (offspring: seq<Individual>)
    requires 2 <= |parents|
    requires SameArchitecture(parents, arch)
    requires Breedings <= |draws|
    requires DrawsValid(draws, |parents|, arch)
    ensures |offspring| == PopulationSize
    ensures offspring[0] == parents[0]
    ensures SameArchitecture(offspring, arch)
    ensures forall i :: 1 <= i < |offspring| ==> offspring[i] == Bred(parents, draws, i, arch)
  {
    offspring := [parents[0]];
    assert offspring == Brood(parents, draws, 1, arch);
    var t := 0;
    while |offspring| < PopulationSize
      invariant t <= Breedings
      invariant |offspring| == Min(1 + 2 * t, PopulationSize)
      invariant offspring == Brood(parents, draws, |offspring|, arch)
      decreases PopulationSize - |offspring|
    {
      var d := draws[t];
      BredPair(parents, draws, t, arch);
      BroodGrows(parents, draws, 1 + 2 * t, arch);
      offspring := offspring + [Child(parents, d, false, arch)];
      if |offspring| < PopulationSize {
        BroodGrows(parents, draws, 2 + 2 * t, arch);
        offspring := offspring + [Child(parents, d, true, arch)];
      }
      t := t + 1;
    }
  }

  // ---------------------------------------------------------------------
  // Mutation

  /** One layer of one individual: mutated when its coin roll is below the
      rate, by adding the noise elementwise; otherwise left as it is. */
  function MutateLayer(layer: Layer, roll: real, rate: real, noise: seq<real>): (r: Layer)
    requires |noise| == |layer.values|
    ensures r.shape == layer.shape && |r.values| == |layer.values|
    ensures roll >= rate ==> r == layer
    ensures roll < rate ==> forall g :: 0 <= g < |r.values| ==> r.values[g] == layer.values[g] + noise[g]
  {
    if roll < rate then
      Layer(seq(|noise|, g requires 0 <= g < |noise| => layer.values[g] + noise[g]), layer.shape)
    else
      layer
  }

  /** The coin rolls and noise drawn for every layer of the population fit
      its architecture (the elite's entries are never used). */
  predicate DrawsFit(population: seq<Individual>, rolls: seq<seq<real>>, noise: seq<seq<seq<real>>>) {
    && |rolls| == |population| && |noise| == |population|
    && forall i :: 1 <= i < |population| ==>
         && |rolls[i]| == |population[i]| && |noise[i]| == |population[i]|
         && forall l :: 0 <= l < |population[i]| ==> |noise[i][l]| == |population[i][l].values|
  }

  /** Mutation: the elite at position 0 is left untouched; every layer of
      every other individual is independently either left unchanged or
      shifted by its noise, keeping its shape; no layer is added or lost. */
  function Mutation(population: seq<Individual>, rate: real,
                    rolls: seq<seq<real>>, noise: seq<seq<seq<real>>>): (r: seq<Individual>)
    requires DrawsFit(population, rolls, noise)
    ensures |r| == |population|
    ensures |population| > 0 ==> r[0] == population[0]
    ensures forall i :: 0 <= i < |r| ==> |r[i]| == |population[i]|
    ensures forall i, l :: 1 <= i < |r| && 0 <= l < |r[i]| ==>
      && r[i][l].shape == population[i][l].shape
      && |r[i][l].values| == |population[i][l].values|
      && (rolls[i][l] >= rate ==> r[i][l] == population[i][l])
      && (rolls[i][l] < rate ==>
            forall g :: 0 <= g < |r[i][l].values| ==>
              r[i][l].values[g] == population[i][l].values[g] + noise[i][l][g])
    ensures forall arch :: SameArchitecture(population, arch) ==> SameArchitecture(r, arch)
  {
    seq(|population|, i requires 0 <= i < |population| =>
      if i == 0 then population[0]
      else seq(|population[i]|, l requires 0 <= l < |population[i]| =>
             MutateLayer(population[i][l], rolls[i][l], rate, noise[i][l])))
  }
}
