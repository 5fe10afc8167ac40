/** `simulation/src/brain.rs`: a collector's brain, a network reading one
    input per eye sector, with a hidden layer twice as wide and two outputs
    (speed and rotation). Its chromosome is the network's flattened weights. */
module Brains {
  import opened Wrappers
  import opened Random
  import opened Nn
  import Ga
  import Eyes

  datatype Brain = Brain(nn: Network)

  /** `Brain::topology`: input, hidden and output layer widths. */
  function Topology(eye: Eyes.Eye): (t: seq<LayerTopology>)
    ensures |t| == 3 && t[0].neurons == eye.cells && t[1].neurons == 2 * eye.cells && t[2].neurons == 2
  {
    [LayerTopology(eye.cells), LayerTopology(2 * eye.cells), LayerTopology(2)]
  }

  /** A brain for an eye of `c` sectors holds 2c(c+1) + 2(2c+1) genes. */
  lemma GenomeLength(eye: Eyes.Eye)
    ensures ParamCount(Topology(eye)) == 2 * eye.cells * (eye.cells + 1) + 2 * (2 * eye.cells + 1)
  {
    var t := Topology(eye);
    assert ParamCountFrom(t, 2) == 0;
    assert ParamCountFrom(t, 1) == 2 * (2 * eye.cells + 1);
  }

  /** The genome of a brain behind the default eye has 218 genes. */
  lemma DefaultGenomeLength()
    ensures ParamCount(Topology(Eyes.Default())) == 218
  {
    GenomeLength(Eyes.Default());
  }

  /** `Brain::random`: a network of the brain topology, one draw per gene. */
  function RandomBrain(rng: Rng, eye: Eyes.Eye): (r: (Brain, Rng))
    ensures Shaped(r.0.nn, Topology(eye)) && Unitary(Weights(r.0.nn))
    ensures r.1 == Rng(rng.stream, rng.next + ParamCount(Topology(eye)))
  {
    var net := RandomNetwork(rng, Topology(eye));
    (Brain(net.0), net.1)
  }

  /** `Brain::as_chromosome`: the network's weights, bias first per neuron. */
  function AsChromosome(b: Brain): (c: Ga.Chromosome)
    ensures c.genes == Weights(b.nn)
  {
    Ga.FromIter(Weights(b.nn))
  }

  /** `Brain::from_chromosome`: the network rebuilt from the genes; a
      chromosome of the wrong length panics inside `Network::from_weights`. */
  function FromChromosome(c: Ga.Chromosome, eye: Eyes.Eye): (r: Result<Brain>)
    ensures r.Ok? <==> |c.genes| == ParamCount(Topology(eye))
    ensures r.Ok? ==> Shaped(r.value.nn, Topology(eye)) && AsChromosome(r.value) == c
    ensures |c.genes| < ParamCount(Topology(eye)) ==> r == Err("got not enough weights")
    ensures ParamCount(Topology(eye)) < |c.genes| ==> r == Err("got too many weights")
  {
    var net :- FromWeights(Topology(eye), Ga.IntoIter(c));
    Ok(Brain(net))
  }

  /** Rebuilding a brain from its own chromosome gives the brain back. */
  lemma ChromosomeRoundTrip(b: Brain, eye: Eyes.Eye)
    requires Shaped(b.nn, Topology(eye))
    ensures FromChromosome(AsChromosome(b), eye) == Ok(b)
  {
    FromWeightsRoundTrip(b.nn, Topology(eye));
  }
}
