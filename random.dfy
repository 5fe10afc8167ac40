/** The random generator (`&mut dyn RngCore`) handed to every stochastic
    operation, modelled as an explicit input: an endless stream of uniform
    draws and the position of the next unused one. Distributions are not
    modelled, only which draw feeds which decision. */
module Random {

  /** One uniform draw, as `rng.gen::<f32>()` returns it: a value in [0, 1). */
  type Unit = r: real | 0.0 <= r < 1.0

  datatype Rng = Rng(stream: nat -> Unit, next: nat)

  /** `rng.gen::<f32>()`: the next draw. */
  function Gen(rng: Rng): (r: (Unit, Rng))
    ensures r.1 == Rng(rng.stream, rng.next + 1)
  {
    (rng.stream(rng.next), Rng(rng.stream, rng.next + 1))
  }

  /** `rng.gen_bool(p)`: true when the next draw falls below `p`. */
  function GenBool(rng: Rng, p: real): (r: (bool, Rng))
    ensures r.1 == Rng(rng.stream, rng.next + 1)
    ensures p <= 0.0 ==> !r.0
    ensures 1.0 <= p ==> r.0
  {
    (rng.stream(rng.next) < p, Rng(rng.stream, rng.next + 1))
  }

  /** `rng.gen_range(-1.0..=1.0)`: the next draw stretched onto [-1, 1]. */
  function GenSigned(rng: Rng): (r: (real, Rng))
    ensures -1.0 <= r.0 <= 1.0
    ensures r.1 == Rng(rng.stream, rng.next + 1)
  {
    (2.0 * rng.stream(rng.next) - 1.0, Rng(rng.stream, rng.next + 1))
  }
}
