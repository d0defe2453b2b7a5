/** The training loop's bookkeeping: each generation's best individual, the
    best individual over all generations, and the passage from one scored
    generation to the next (selection, then crossover, then mutation).
    Scoring an individual means playing a live match; the scores are inputs
    here. */
module Training {
  import opened Opt
  import opened Genetics

  /** The first position of a highest score. */
  function Argmax(scores: seq<real>): (i: nat)
    requires |scores| > 0
    ensures i < |scores|
    ensures forall j :: 0 <= j < |scores| ==> scores[j] <= scores[i]
    ensures forall j :: 0 <= j < i ==> scores[j] < scores[i]
  {
    if |scores| == 1 then 0
    else
      var k := Argmax(scores[..|scores| - 1]);
      if scores[|scores| - 1] > scores[k] then |scores| - 1 else k
  }

  /** The best individual seen so far, with its fitness. */
  datatype Champion = Champion(fitness: real, individual: Individual)

  /** One evaluated generation. */
  datatype Generation = Generation(population: seq<Individual>, scores: seq<real>)

  predicate Scored(g: Generation) {
    0 < |g.scores| == |g.population|
  }

  /** The generation's best is compared with the best so far (None stands
      for the initial negative infinity) and replaces it only when strictly
      better. */
  function Track(best: Option<Champion>, g: Generation): (r: Champion)
    requires Scored(g)
    ensures best.Some? ==> best.value.fitness <= r.fitness
    ensures forall i :: 0 <= i < |g.scores| ==> g.scores[i] <= r.fitness
    ensures best.Some? && g.scores[Argmax(g.scores)] <= best.value.fitness ==> r == best.value
    ensures r == Champion(g.scores[Argmax(g.scores)], g.population[Argmax(g.scores)])
         || (best.Some? && r == best.value)
  {
    var i := Argmax(g.scores);
    if best.None? || g.scores[i] > best.value.fitness then Champion(g.scores[i], g.population[i])
    else best.value
  }

  /** The champion carries the fitness one of its own evaluations gave it. */
  ghost predicate Witnessed(c: Champion, gens: seq<Generation>) {
    exists k, i :: 0 <= k < |gens| && 0 <= i < |gens[k].scores| && i < |gens[k].population|
      && c == Champion(gens[k].scores[i], gens[k].population[i])
  }

  /** The best-so-far after the given generations, starting from negative
      infinity: at least every score seen, and itself one of them. */
  function BestOverall(gens: seq<Generation>): (r: Option<Champion>)
    requires forall k :: 0 <= k < |gens| ==> Scored(gens[k])
    ensures r.Some? <==> |gens| > 0
    ensures r.Some? ==> Witnessed(r.value, gens)
    ensures forall k, i :: 0 <= k < |gens| && 0 <= i < |gens[k].scores| ==>
      r.Some? && gens[k].scores[i] <= r.value.fitness
    decreases |gens|
  {
    if |gens| == 0 then None
    else
      var before := BestOverall(gens[..|gens| - 1]);
      var g := gens[|gens| - 1];
      var r := Track(before, g);
      assert before.Some? ==> Witnessed(before.value, gens) by {
        if before.Some? {
          var k, i :| 0 <= k < |gens| - 1 && 0 <= i < |gens[..|gens| - 1][k].scores|
            && i < |gens[..|gens| - 1][k].population|
            && before.value == Champion(gens[..|gens| - 1][k].scores[i], gens[..|gens| - 1][k].population[i]);
          assert gens[..|gens| - 1][k] == gens[k];
        }
      }
      assert forall k :: 0 <= k < |gens| - 1 ==> gens[..|gens| - 1][k] == gens[k];
      Some(r)
  }

  /** The best-so-far fitness never decreases from one generation to the
      next. */
  lemma BestNeverDecreases(gens: seq<Generation>, m: nat)
    requires forall k :: 0 <= k < |gens| ==> Scored(gens[k])
    requires 0 < m <= |gens|
    ensures BestOverall(gens[..m]).value.fitness <= BestOverall(gens).value.fitness
  {
  }

  /** The next generation from a scored one: truncation selection, elitist
      crossover, then mutation. Its size is the configured population size,
      its architecture is the same, and its first individual is a highest
      scorer of the previous generation, unchanged. */
  method NextGeneration(population: seq<Individual>, scores: seq<real>, ghost arch: seq<seq<nat>>,
                        draws: seq<Draw>, rate: real,
                        rolls: seq<seq<real>>, noise: seq<seq<seq<real>>>)
      returns (next: seq<Individual>)
    requires 2 <= |population| == |scores|
    requires SameArchitecture(population, arch)
    requires Breedings <= |draws|
    requires DrawsValid(draws, Min(ParentCount, |population|), arch)
    requires |rolls| == PopulationSize && |noise| == PopulationSize
    requires forall i :: 1 <= i < PopulationSize ==>
      && |rolls[i]| == |arch| && |noise[i]| == |arch|
      && forall l :: 0 <= l < |arch| ==> |noise[i][l]| == Product(arch[l])
    ensures |next| == PopulationSize
    ensures SameArchitecture(next, arch)
    ensures exists e ::
              && 0 <= e < |population| && next[0] == population[e]
              && forall j :: 0 <= j < |scores| ==> scores[j] <= scores[e]
  {
    var parents, picks := Selection(population, scores);
    var offspring := Crossover(parents, draws, arch);
    next := Mutation(offspring, rate, rolls, noise);
    var e := picks[0];
    assert next[0] == population[e];
    forall j | 0 <= j < |scores|
      ensures scores[j] <= scores[e]
    {
      if j !in picks {
      } else {
        var k :| 0 <= k < |picks| && picks[k] == j;
        if k > 0 {
          assert scores[picks[0]] >= scores[picks[k]];
        }
      }
    }
  }
}
