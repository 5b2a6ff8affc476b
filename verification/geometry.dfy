/**
 * Gameplay space and simulation space (src/physics.rs).
 *
 * Gameplay space is measured in pixels and anchors a cuboid at its top-left
 * corner; simulation space is measured in metres and anchors every shape at
 * its centre.  Positions are reals: the f32 rounding of the game is not modelled.
 */
module Geometry {

  datatype Vec2 = Vec2(x: real, y: real)

  const Zero: Vec2 := Vec2(0.0, 0.0)

  /** The collision geometry of an entity in gameplay units (the `Shape` component). */
  datatype Shape = Ball(r: real) | Cuboid(size: Vec2)

  /** Pixels per metre (`PIXEL_TO_METER`). */
  const PixelToMeter: real := 100.0

  function Scale(v: Vec2, k: real): Vec2 {
    Vec2(v.x * k, v.y * k)
  }

  /** The gameplay point at which the simulation anchors a shape: the centre of a
      cuboid whose Position is its top-left corner, the Position itself for a ball. */
  function Centre(pos: Vec2, shape: Shape): Vec2 {
    match shape
    case Cuboid(size) => Vec2(pos.x + size.x / 2.0, pos.y + size.y / 2.0)
    case Ball(_) => pos
  }

  /** `macroquad_to_rapier2d`: the simulation translation of an entity at `pos`.
      Scaled back to pixels it is the anchor point of the shape. */
  function ToSim(pos: Vec2, shape: Shape): (t: Vec2)
    ensures Scale(t, PixelToMeter) == Centre(pos, shape)
  {
    match shape
    case Cuboid(size) =>
      Vec2((pos.x + size.x / 2.0) / PixelToMeter, (pos.y + size.y / 2.0) / PixelToMeter)
    case Ball(_) =>
      Vec2(pos.x / PixelToMeter, pos.y / PixelToMeter)
  }

  /** The read-back written inline in `sync_pos`: translation times the scale,
      then minus half the size for a cuboid.  Its anchor point is the scaled
      translation. */
  function FromSim(t: Vec2, shape: Shape): (pos: Vec2)
    ensures Centre(pos, shape) == Scale(t, PixelToMeter)
  {
    var p := Vec2(t.x * PixelToMeter, t.y * PixelToMeter);
    match shape
    case Cuboid(size) => Vec2(p.x - size.x / 2.0, p.y - size.y / 2.0)
    case Ball(_) => p
  }

  /** Two positions with the same anchor point for the same shape are equal. */
  lemma CentreInjective(p: Vec2, q: Vec2, shape: Shape)
    requires Centre(p, shape) == Centre(q, shape)
    ensures p == q
  {
  }

  /** Pushing a Position into the simulation and pulling it back returns it. */
  lemma PushThenPull(pos: Vec2, shape: Shape)
    ensures FromSim(ToSim(pos, shape), shape) == pos
  {
    var t := ToSim(pos, shape);
    assert Centre(FromSim(t, shape), shape) == Centre(pos, shape);
    CentreInjective(FromSim(t, shape), pos, shape);
  }

  /** Pulling a translation back and pushing it again returns it. */
  lemma PullThenPush(t: Vec2, shape: Shape)
    ensures ToSim(FromSim(t, shape), shape) == t
  {
    var p := FromSim(t, shape);
    assert Scale(ToSim(p, shape), PixelToMeter) == Scale(t, PixelToMeter);
  }
}
