/**
 * The eye of an animal (`eye.rs`): it sees the foods within its range and field of view
 * and sorts them into `cells` bins by bearing; each food adds to its bin an energy that
 * falls from 1 at the animal to 0 at the edge of the range.
 */
module Eyes {
  import opened Wrappers
  import opened Numbers
  import opened Geometry
  import opened Foods

  const FovRange: real := 0.25
  const FovAngle: real := Pi / (Pi / 4.0)
  const Cells: nat := 9

  datatype Eye = Eye(fovRange: real, fovAngle: real, cells: nat)

  /** What `Eye::new` asserts. */
  predicate Valid(eye: Eye)
  {
    eye.fovRange > 0.0 && eye.fovAngle > 0.0 && eye.cells > 0
  }

  /** `Eye::new`: panics (here: `None`) unless range, angle and cell count are positive. */
  function New(fovRange: real, fovAngle: real, cells: nat): (r: Option<Eye>)
    ensures r.Some? <==> fovRange > 0.0 && fovAngle > 0.0 && cells > 0
    ensures r.Some? ==> Valid(r.value)
    ensures r.Some? ==> r.value.fovRange == fovRange && r.value.fovAngle == fovAngle && r.value.cells == cells
  {
    if fovRange > 0.0 && fovAngle > 0.0 && cells > 0 then Some(Eye(fovRange, fovAngle, cells)) else None
  }

  /** `Eye::default`: range 0.25, a field of view of PI / FRAC_PI_4 = 4 radians, 9 cells. */
  function Default(): (r: Eye)
    ensures Valid(r)
    ensures r == Eye(0.25, 4.0, 9)
  {
    New(FovRange, FovAngle, Cells).value
  }

  /** Where one food lands: its bin and the energy it adds there. */
  datatype Sighting = Sighting(cell: nat, energy: real)

  /** The energy of a food at a distance within range: from 1 up close down to 0 at the edge. */
  function Energy(fovRange: real, distance: real): (e: real)
    requires fovRange > 0.0 && 0.0 <= distance <= fovRange
    ensures 0.0 <= e <= 1.0
  {
    var e := (fovRange - distance) / fovRange;
    assert e * fovRange == fovRange - distance;
    e
  }

  /**
   * The bin of a bearing: the cast to `usize`, then the `min(cells - 1)` clamp. The cast
   * truncates and saturates at 0, which for every real is the value of FloorNat.
   */
  function Cell(eye: Eye, angle: real): (c: nat)
    requires Valid(eye)
    ensures c < eye.cells
  {
    Min(FloorNat((angle + eye.fovAngle / 2.0) / eye.fovAngle * eye.cells as real), eye.cells - 1)
  }

  /** The bearing of a food relative to the animal's heading, wrapped into [-PI, PI]. */
  function Bearing(position: Point, rotation: real, food: Point, geo: Oracle): (a: real)
    ensures -Pi <= a <= Pi
  {
    Wrap(geo.bearing(Sub(food, position)) - rotation, -Pi, Pi)
  }

  /**
   * What one food contributes to the vision: nothing when it is farther than the range
   * or its bearing lies outside [-fov_angle, fov_angle]; otherwise a bin below `cells`
   * and an energy in [0, 1].
   */
  function Sight(eye: Eye, position: Point, rotation: real, food: Point, geo: Oracle): (r: Option<Sighting>)
    requires Valid(eye)
    ensures r.Some? <==> geo.norm(Sub(food, position)) <= eye.fovRange
                         && -eye.fovAngle <= Bearing(position, rotation, food, geo) <= eye.fovAngle
    ensures r.Some? ==> r.value.cell < eye.cells && 0.0 <= r.value.energy <= 1.0
  {
    var distance := geo.norm(Sub(food, position));
    if distance > eye.fovRange then None
    else
      var angle := Bearing(position, rotation, food, geo);
      if angle < -eye.fovAngle || angle > eye.fovAngle then None
      else Some(Sighting(Cell(eye, angle), Energy(eye.fovRange, distance)))
  }

  /** The bins after the first n foods: `cells` zeros, each sighting added to its bin. */
  function VisionUpTo(eye: Eye, position: Point, rotation: real, foods: seq<Food>, geo: Oracle, n: nat)
    : (r: seq<real>)
    requires Valid(eye) && n <= |foods|
    ensures |r| == eye.cells
    ensures forall k :: 0 <= k < |r| ==> r[k] >= 0.0
    decreases n
  {
    if n == 0 then seq(eye.cells, _ => 0.0)
    else
      var bins := VisionUpTo(eye, position, rotation, foods, geo, n - 1);
      match Sight(eye, position, rotation, foods[n - 1].position, geo)
      case None => bins
      case Some(s) => bins[s.cell := bins[s.cell] + s.energy]
  }

  /** The vision of an eye: one non-negative value per cell. */
  function Vision(eye: Eye, position: Point, rotation: real, foods: seq<Food>, geo: Oracle): (r: seq<real>)
    requires Valid(eye)
    ensures |r| == eye.cells
    ensures forall k :: 0 <= k < |r| ==> r[k] >= 0.0
  {
    VisionUpTo(eye, position, rotation, foods, geo, |foods|)
  }

  /** The energy of all sightings among the first n foods, whatever their bins. */
  function SeenEnergy(eye: Eye, position: Point, rotation: real, foods: seq<Food>, geo: Oracle, n: nat): real
    requires Valid(eye) && n <= |foods|
    decreases n
  {
    if n == 0 then 0.0
    else
      var rest := SeenEnergy(eye, position, rotation, foods, geo, n - 1);
      match Sight(eye, position, rotation, foods[n - 1].position, geo)
      case None => rest
      case Some(s) => rest + s.energy
  }

  /** Contributions add up: the bins together hold the energy of every food seen. */
  lemma {:induction false} VisionConserves(eye: Eye, position: Point, rotation: real, foods: seq<Food>, geo: Oracle, n: nat)
    requires Valid(eye) && n <= |foods|
    ensures Sum(VisionUpTo(eye, position, rotation, foods, geo, n)) == SeenEnergy(eye, position, rotation, foods, geo, n)
    decreases n
  {
    if n == 0 {
      ZerosSum(eye.cells);
    } else {
      VisionConserves(eye, position, rotation, foods, geo, n - 1);
      var bins := VisionUpTo(eye, position, rotation, foods, geo, n - 1);
      match Sight(eye, position, rotation, foods[n - 1].position, geo)
      case None =>
      case Some(s) => SumUpdate(bins, s.cell, s.energy);
    }
  }

  lemma {:induction false} ZerosSum(n: nat)
    ensures Sum(seq(n, _ => 0.0)) == 0.0
  {
    if n > 0 {
      assert seq(n, _ => 0.0)[1..] == seq(n - 1, _ => 0.0);
      ZerosSum(n - 1);
    }
  }

  /**
   * With the default eye no food in range is ever rejected for its bearing: the wrapped
   * bearing lies in [-PI, PI], inside the +-4 radian filter.
   */
  lemma DefaultSeesAllBearings(position: Point, rotation: real, food: Point, geo: Oracle)
    ensures Sight(Default(), position, rotation, food, geo).Some? <==> geo.norm(Sub(food, position)) <= 0.25
  {
    var b := Bearing(position, rotation, food, geo);
    assert -4.0 <= b <= 4.0;
  }

  /** `Eye::process_vision`: allocates `cells` zeros and adds each visible food's energy to its bin. */
  method ProcessVision(eye: Eye, position: Point, rotation: real, foods: seq<Food>, geo: Oracle)
    returns (cells: seq<real>)
    requires Valid(eye)
    ensures cells == Vision(eye, position, rotation, foods, geo)
  {
    var bins := new real[eye.cells](_ => 0.0);
    for i := 0 to |foods|
      invariant bins[..] == VisionUpTo(eye, position, rotation, foods, geo, i)
    {
      var distance := geo.norm(Sub(foods[i].position, position));
      if distance > eye.fovRange {
        continue;
      }
      var angle := Bearing(position, rotation, foods[i].position, geo);
      if angle < -eye.fovAngle || angle > eye.fovAngle {
        continue;
      }
      var cell := Cell(eye, angle);
      bins[cell] := bins[cell] + Energy(eye.fovRange, distance);
    }
    cells := bins[..];
  }
}
