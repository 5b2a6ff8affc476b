/**
 * The entity store and the physics engine's object tables, as values.
 *
 * The entity store maps each entity to the record of the components it
 * carries; the collider set and the rigid-body set are arenas that map
 * handles to the objects the engine owns.  A `Snapshot` gathers the three
 * together with the counters from which fresh handles are drawn.
 */
module Ecs {
  import opened Wrappers
  import opened Geometry

  type Entity = nat

  /** An arena index into the collider set or the rigid-body set. */
  type Handle = nat

  datatype BodyKind = Fixed | Dynamic

  /** Collision geometry in simulation units: a ball radius or cuboid half-extents. */
  datatype SimShape = SimBall(radius: real) | SimCuboid(halfExtents: Vec2)

  /** A collider not yet in the collider set (`ColliderWrapper`).  A surface
      coefficient that was never set is `None`: the engine's default applies. */
  datatype ColliderDesc = ColliderDesc(
    geometry: SimShape,
    friction: Option<real>,
    restitution: Option<real>,
    sensor: bool)

  /** A collider in the collider set.  Without a parent its translation is in
      world space; with a parent it is relative to the parent body. */
  datatype Collider = Collider(translation: Vec2, parent: Option<Handle>, desc: ColliderDesc)

  /** A rigid body in the rigid-body set. */
  datatype Body = Body(kind: BodyKind, translation: Vec2, linvel: Vec2)

  /** The `Player` component. */
  datatype Player = Player(speed: real, jump: real, isGrounded: bool)

  /**
   * The components one entity carries.  `changed` is the change-detection
   * state of its Position as seen by the position synchroniser: true when the
   * Position was added or written since the synchroniser last ran.
   * `colliderDesc` is the pending `ColliderWrapper`, `bodyDesc` the pending
   * `RigidBodyBuilder`; the two handles are `ColliderHandle` and `RigidBodyHandle`.
   */
  datatype Components = Components(
    position: Option<Vec2>,
    changed: bool,
    shape: Option<Shape>,
    colliderDesc: Option<ColliderDesc>,
    bodyDesc: Option<BodyKind>,
    colliderHandle: Option<Handle>,
    bodyHandle: Option<Handle>,
    player: Option<Player>,
    star: bool,
    platform: bool)

  /** An entity with no components at all. */
  const Empty: Components :=
    Components(None, false, None, None, None, None, None, None, false, false)

  datatype Snapshot = Snapshot(
    entities: map<Entity, Components>,
    colliders: map<Handle, Collider>,
    bodies: map<Handle, Body>,
    nextCollider: Handle,
    nextBody: Handle)

  /** Every handle in use lies below the counter it is drawn from, so the
      counter is a handle no object has. */
  ghost predicate FreshCounters(s: Snapshot) {
    && (forall h :: h in s.colliders ==> h < s.nextCollider)
    && (forall h :: h in s.bodies ==> h < s.nextBody)
  }

  /** No collider names a parent body that is not in the rigid-body set. */
  ghost predicate ParentsLive(s: Snapshot) {
    forall h :: h in s.colliders && s.colliders[h].parent.Some? ==> s.colliders[h].parent.value in s.bodies
  }

  /** Dropping the last of the first `i + 1` ids leaves the first `i`. */
  lemma PrefixStep(ids: seq<Entity>, i: nat)
    requires i < |ids|
    ensures ids[..i + 1][..i] == ids[..i]
  {
  }

  /** A query order visits each entity at most once. */
  ghost predicate Distinct(ids: seq<Entity>) {
    forall i, j :: 0 <= i < j < |ids| ==> ids[i] != ids[j]
  }
}
