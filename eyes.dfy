/** `simulation/src/eye.rs`: a collector's eye. Its field of view, of radius
    `fovRange` and opening `fovAngle` centred on the collector's heading, is
    split into `cells` equal sectors; each visible waste adds to the sector
    it lies in an energy that grows as the waste gets closer. */
module Eyes {
  import opened Wrappers
  import opened Geometry
  import opened Wastes

  const FOV_RANGE: real := 0.25
  const FOV_ANGLE: real := PI + FRAC_PI_4
  const CELLS: nat := 9

  datatype Eye = Eye(fovRange: real, fovAngle: real, cells: nat)

  /** What `Eye::new` admits. */
  predicate Valid(e: Eye)
  {
    0.0 < e.fovRange && 0.0 < e.fovAngle && 0 < e.cells
  }

  /** `Eye::new`: a positive range, a positive angle and at least one cell,
      else the matching assertion fails. */
  function New(fovRange: real, fovAngle: real, cells: nat): (r: Result<Eye>)
    ensures r.Ok? <==> 0.0 < fovRange && 0.0 < fovAngle && 0 < cells
    ensures r.Ok? ==> Valid(r.value) && r.value.fovRange == fovRange && r.value.fovAngle == fovAngle && r.value.cells == cells
    ensures fovRange <= 0.0 ==> r == Err("assertion failed: fov_range > 0.0")
  {
    if fovRange <= 0.0 then Err("assertion failed: fov_range > 0.0")
    else if fovAngle <= 0.0 then Err("assertion failed: fov_angle > 0.0")
    else if cells == 0 then Err("assertion failed: cells > 0")
    else Ok(Eye(fovRange, fovAngle, cells))
  }

  /** `Eye::default`: range 0.25, angle π + π/4, 9 cells. */
  function Default(): (e: Eye)
    ensures Valid(e)
  {
    Eye(FOV_RANGE, FOV_ANGLE, CELLS)
  }

  /** `Eye::default` goes through `Eye::new`, whose assertions the default
      constants pass. */
  lemma DefaultIsNew()
    ensures New(FOV_RANGE, FOV_ANGLE, CELLS) == Ok(Default())
  {
  }

  /** `Eye::cells`. */
  function Cells(e: Eye): nat
  {
    e.cells
  }

  // ---------------------------------------------------------------- One waste

  /** The waste's bearing relative to the heading, wrapped into [-π, π]. */
  function RelativeAngle(g: Geometry, position: Point, rotation: real, waste: Waste): (r: real)
    ensures -PI <= r <= PI
  {
    Wrap(AngleFromY(g, Sub(waste.position, position)) - rotation, -PI, PI)
  }

  /** The sector of a bearing inside the field of view; the cast truncates and
      the `min` folds the right edge into the last sector. */
  function CellIndex(e: Eye, angle: real): (n: nat)
    requires Valid(e) && -e.fovAngle / 2.0 <= angle <= e.fovAngle / 2.0
    ensures n < e.cells
  {
    var raw := ToUsize((angle + e.fovAngle / 2.0) / e.fovAngle * e.cells as real);
    if raw < e.cells - 1 then raw else e.cells - 1
  }

  /** At the right edge of the field of view the truncated index is one past
      the last sector: the `min` is what keeps it in range. */
  lemma RightEdgeOverflows(e: Eye)
    requires Valid(e)
    ensures ToUsize((e.fovAngle / 2.0 + e.fovAngle / 2.0) / e.fovAngle * e.cells as real) == e.cells
    ensures CellIndex(e, e.fovAngle / 2.0) == e.cells - 1
  {
    assert (e.fovAngle / 2.0 + e.fovAngle / 2.0) / e.fovAngle == 1.0;
  }

  /** The energy a waste at distance `dist` adds. */
  function Energy(e: Eye, dist: real): real
    requires Valid(e)
  {
    (e.fovRange - dist) / e.fovRange
  }

  lemma EnergyBounds(e: Eye, dist: real)
    requires Valid(e) && 0.0 <= dist < e.fovRange
    ensures 0.0 < Energy(e, dist) <= 1.0
  {
    var d := e.fovRange - dist;
    assert 0.0 < d <= e.fovRange;
    assert d / e.fovRange <= e.fovRange / e.fovRange;
  }

  /** Where a waste shows up: a sector and the energy it adds there. */
  datatype Sighting = Sighting(cell: nat, energy: real)

  /** One pass of the loop of `process_vision`: nothing for a waste out of
      range or outside the field of view, else the sector it falls in and its
      energy. */
  function Look(g: Geometry, e: Eye, position: Point, rotation: real, waste: Waste): (r: Option<Sighting>)
    requires Valid(e)
    ensures r.Some? <==>
      Norm(g, Sub(waste.position, position)) < e.fovRange &&
      Abs(RelativeAngle(g, position, rotation, waste)) <= e.fovAngle / 2.0
    ensures r.Some? ==> r.value.cell < e.cells
  {
    var dist := Norm(g, Sub(waste.position, position));
    if dist >= e.fovRange then None
    else
      var angle := RelativeAngle(g, position, rotation, waste);
      if angle < -e.fovAngle / 2.0 || angle > e.fovAngle / 2.0 then None
      else
        Some(Sighting(CellIndex(e, angle), Energy(e, dist)))
  }

  /** A sighted waste adds an energy in (0, 1]. */
  lemma LookEnergy(g: Geometry, e: Eye, position: Point, rotation: real, waste: Waste)
    requires Valid(e) && Lawful(g)
    ensures Look(g, e, position, rotation, waste).Some? ==> 0.0 < Look(g, e, position, rotation, waste).value.energy <= 1.0
  {
    var dist := Norm(g, Sub(waste.position, position));
    if dist < e.fovRange {
      EnergyBounds(e, dist);
    }
  }

  // ---------------------------------------------------------------- All wastes

  /** Adds a sighting to its sector. */
  function Absorb(cells: seq<real>, s: Option<Sighting>): seq<real>
    requires s.Some? ==> s.value.cell < |cells|
  {
    if s.None? then cells else cells[s.value.cell := cells[s.value.cell] + s.value.energy]
  }

  /** `process_vision` after the wastes `wastes`, in order. */
  function Vision(g: Geometry, e: Eye, position: Point, rotation: real, wastes: seq<Waste>): (r: seq<real>)
    requires Valid(e)
    ensures |r| == e.cells
  {
    if |wastes| == 0 then seq(e.cells, _ => 0.0)
    else
      Absorb(Vision(g, e, position, rotation, wastes[..|wastes| - 1]), Look(g, e, position, rotation, wastes[|wastes| - 1]))
  }

  /** `Eye::process_vision`: one value per sector, accumulated waste by waste. */
  method ProcessVision(g: Geometry, e: Eye, position: Point, rotation: real, wastes: seq<Waste>) returns (cells: seq<real>)
    requires Valid(e)
    ensures cells == Vision(g, e, position, rotation, wastes)
  {
    var buf := new real[e.cells](_ => 0.0);
    assert buf[..] == Vision(g, e, position, rotation, []);
    for i := 0 to |wastes|
      invariant buf.Length == e.cells
      invariant buf[..] == Vision(g, e, position, rotation, wastes[..i])
    {
      assert wastes[..i + 1][..i] == wastes[..i];
      var waste := wastes[i];
      assert Vision(g, e, position, rotation, wastes[..i + 1]) ==
        Absorb(Vision(g, e, position, rotation, wastes[..i]), Look(g, e, position, rotation, waste));
      var dist := Norm(g, Sub(waste.position, position));
      if dist >= e.fovRange {
        continue;
      }
      var angle := RelativeAngle(g, position, rotation, waste);
      if angle < -e.fovAngle / 2.0 || angle > e.fovAngle / 2.0 {
        continue;
      }
      var cell := CellIndex(e, angle);
      buf[cell] := buf[cell] + Energy(e, dist);
    }
    assert wastes[..|wastes|] == wastes;
    cells := buf[..];
  }

  /** The energy the wastes put into sector `j`: the sum, over the wastes the
      eye sees in that sector, of their energies. */
  function SectorEnergy(g: Geometry, e: Eye, position: Point, rotation: real, wastes: seq<Waste>, j: nat): real
    requires Valid(e)
  {
    if |wastes| == 0 then 0.0
    else
      var s := Look(g, e, position, rotation, wastes[|wastes| - 1]);
      SectorEnergy(g, e, position, rotation, wastes[..|wastes| - 1], j) + (if s.Some? && s.value.cell == j then s.value.energy else 0.0)
  }

  /** Each sector holds exactly the energies of the wastes seen in it: every
      visible waste feeds one sector, and wastes out of range or out of the
      field of view feed none. */
  lemma {:induction false} VisionBySector(g: Geometry, e: Eye, position: Point, rotation: real, wastes: seq<Waste>, j: nat)
    requires Valid(e) && j < e.cells
    ensures Vision(g, e, position, rotation, wastes)[j] == SectorEnergy(g, e, position, rotation, wastes, j)
    decreases |wastes|
  {
    if 0 < |wastes| {
      VisionBySector(g, e, position, rotation, wastes[..|wastes| - 1], j);
    }
  }

  /** Sectors are never negative (with a lawful square root); they are not
      clipped, so several close wastes can push one above 1. */
  lemma {:induction false} VisionNonNegative(g: Geometry, e: Eye, position: Point, rotation: real, wastes: seq<Waste>)
    requires Valid(e) && Lawful(g)
    ensures forall j :: 0 <= j < e.cells ==> 0.0 <= Vision(g, e, position, rotation, wastes)[j]
    decreases |wastes|
  {
    if 0 < |wastes| {
      VisionNonNegative(g, e, position, rotation, wastes[..|wastes| - 1]);
      LookEnergy(g, e, position, rotation, wastes[|wastes| - 1]);
    }
  }

  /** With no wastes every sector is dark. */
  lemma VisionEmpty(g: Geometry, e: Eye, position: Point, rotation: real)
    requires Valid(e)
    ensures Vision(g, e, position, rotation, []) == seq(e.cells, _ => 0.0)
  {
  }
}
