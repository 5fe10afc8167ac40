/** `simulation/src/waste.rs`: a piece of floating waste, known only by its
    position. */
module Wastes {
  import opened Random
  import opened Geometry

  datatype Waste = Waste(position: Point)

  /** `Waste::random`: the position is the point drawn from the rng. */
  function RandomWaste(rng: Rng): (r: (Waste, Rng))
    ensures (r.0.position, r.1) == RandomPoint(rng)
    ensures InUnitSquare(r.0.position)
  {
    var p := RandomPoint(rng);
    (Waste(p.0), p.1)
  }

  /** `Waste::position`. */
  function Position(w: Waste): Point
  {
    w.position
  }
}
