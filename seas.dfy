/** `simulation/src/sea.rs`: the world — the collectors and the wastes. */
module Seas {
  import opened Random
  import opened Geometry
  import opened Wastes
  import opened Collectors

  datatype Sea = Sea(collectors: seq<Collector>, wastes: seq<Waste>)

  const COLLECTORS: nat := 40
  const WASTES: nat := 60

  /** `n` calls of `Collector::random`, in order. */
  function RandomCollectors(rng: Rng, n: nat): (r: (seq<Collector>, Rng))
    ensures |r.0| == n
    ensures forall i :: 0 <= i < n ==> Newborn(r.0[i])
    ensures r.1 == Rng(rng.stream, rng.next + n * RANDOM_DRAWS)
    decreases n
  {
    if n == 0 then ([], rng)
    else
      var first := RandomCollector(rng);
      var rest := RandomCollectors(first.1, n - 1);
      Prepend(first.0, rest.0);
      ([first.0] + rest.0, rest.1)
  }

  lemma Prepend(c: Collector, s: seq<Collector>)
    requires Newborn(c) && forall i :: 0 <= i < |s| ==> Newborn(s[i])
    ensures forall i :: 0 <= i < |s| + 1 ==> Newborn(([c] + s)[i])
  {
    forall i | 0 <= i < |s| + 1 ensures Newborn(([c] + s)[i]) {
      if i > 0 {
        assert ([c] + s)[i] == s[i - 1];
      }
    }
  }

  /** `n` calls of `Waste::random`, in order. */
  function RandomWastes(rng: Rng, n: nat): (r: (seq<Waste>, Rng))
    ensures |r.0| == n
    ensures forall j :: 0 <= j < n ==> InUnitSquare(r.0[j].position)
    ensures r.1 == Rng(rng.stream, rng.next + 2 * n)
    decreases n
  {
    if n == 0 then ([], rng)
    else
      var first := RandomWaste(rng);
      var rest := RandomWastes(first.1, n - 1);
      assert forall j :: 0 < j < n ==> ([first.0] + rest.0)[j] == rest.0[j - 1];
      ([first.0] + rest.0, rest.1)
  }

  /** `Sea::random`: 40 fresh collectors, then 60 wastes. */
  function RandomSea(rng: Rng): (r: (Sea, Rng))
    ensures |r.0.collectors| == COLLECTORS && |r.0.wastes| == WASTES
    ensures forall i :: 0 <= i < COLLECTORS ==> Newborn(r.0.collectors[i])
    ensures forall j :: 0 <= j < WASTES ==> InUnitSquare(r.0.wastes[j].position)
    ensures r.1 == Rng(rng.stream, rng.next + COLLECTORS * RANDOM_DRAWS + 2 * WASTES)
  {
    var collectors := RandomCollectors(rng, COLLECTORS);
    var wastes := RandomWastes(collectors.1, WASTES);
    (Sea(collectors.0, wastes.0), wastes.1)
  }

  /** `Sea::collectors`. */
  function CollectorsOf(sea: Sea): seq<Collector>
  {
    sea.collectors
  }

  /** `Sea::wastes`. */
  function WastesOf(sea: Sea): seq<Waste>
  {
    sea.wastes
  }
}
