/**
 * The bridge between the entity store and the physics engine (src/physics.rs):
 * the collider and body builders, the binding of pending descriptors, the
 * position synchroniser, the removal of engine objects, and the order of the
 * physics stages in the frame schedule.
 *
 * Each system that walks a query is specified here as a function of a
 * `Snapshot` and the query's visiting order, one entity at a time; the class
 * in module App runs the same steps in a loop and is proved equal to them.
 */
module Physics {
  import opened Wrappers
  import opened Geometry
  import opened Ecs

  // ---------------------------------------------------------------- builders

  /** The simulation geometry a gameplay shape is built with: the radius, or
      the half-extents, divided by the scale. */
  function SimGeometry(shape: Shape): (g: SimShape)
    ensures g.SimBall? <==> shape.Ball?
    ensures shape.Ball? ==> g.radius * PixelToMeter == shape.r
    ensures shape.Cuboid? ==> Scale(g.halfExtents, 2.0 * PixelToMeter) == shape.size
  {
    match shape
    case Ball(r) => SimBall(r / PixelToMeter)
    case Cuboid(size) => SimCuboid(Vec2(size.x / 2.0 / PixelToMeter, size.y / 2.0 / PixelToMeter))
  }

  /** The `ColliderBuilder` bundle: a pending collider and the Shape component. */
  datatype ColliderBuilder = ColliderBuilder(collider: ColliderDesc, shape: Shape) {
    function WithAsSensor(): (b: ColliderBuilder)
      ensures b.collider.sensor && b == this.(collider := collider.(sensor := b.collider.sensor))
    {
      this.(collider := collider.(sensor := true))
    }
    function WithFriction(coefficient: real): (b: ColliderBuilder)
      ensures b.collider.friction == Some(coefficient) && b == this.(collider := collider.(friction := b.collider.friction))
    {
      this.(collider := collider.(friction := Some(coefficient)))
    }
    function WithRestitution(coefficient: real): (b: ColliderBuilder)
      ensures b.collider.restitution == Some(coefficient) && b == this.(collider := collider.(restitution := b.collider.restitution))
    {
      this.(collider := collider.(restitution := Some(coefficient)))
    }
  }

  /** `ColliderBuilder::ball`: the engine's ball is the pixel radius in
      metres; no coefficient is set and the collider is solid. */
  function BallBuilder(r: real): (b: ColliderBuilder)
    ensures b.shape == Ball(r) && b.collider.geometry.SimBall? && b.collider.geometry.radius * PixelToMeter == r
    ensures b.collider.friction.None? && b.collider.restitution.None? && !b.collider.sensor
  {
    ColliderBuilder(ColliderDesc(SimGeometry(Ball(r)), None, None, false), Ball(r))
  }

  /** `ColliderBuilder::cuboid`: the engine's cuboid has half the pixel size,
      in metres; no coefficient is set and the collider is solid. */
  function CuboidBuilder(size: Vec2): (b: ColliderBuilder)
    ensures b.shape == Cuboid(size) && b.collider.geometry.SimCuboid?
    ensures Scale(b.collider.geometry.halfExtents, 2.0 * PixelToMeter) == size
    ensures b.collider.friction.None? && b.collider.restitution.None? && !b.collider.sensor
  {
    ColliderBuilder(ColliderDesc(SimGeometry(Cuboid(size)), None, None, false), Cuboid(size))
  }

  // ----------------------------------------------------------------- binding

  /** Matched by the query of `add_colliders`: a pending collider, a Position
      and a Shape, and no pending rigid body. */
  predicate PendingCollider(c: Components) {
    c.colliderDesc.Some? && c.position.Some? && c.shape.Some? && c.bodyDesc.None?
  }

  /** Matched by the query of `add_rigid_bodies`: a pending rigid body, a
      Position and a Shape (a pending collider is optional). */
  predicate PendingBody(c: Components) {
    c.bodyDesc.Some? && c.position.Some? && c.shape.Some?
  }

  /** Every collider and body of `s` is still in `r`, unchanged. */
  ghost predicate Extends(s: Snapshot, r: Snapshot) {
    && (forall h :: h in s.colliders ==> h in r.colliders && r.colliders[h] == s.colliders[h])
    && (forall h :: h in s.bodies ==> h in r.bodies && r.bodies[h] == s.bodies[h])
  }

  /** One iteration of `add_colliders`. */
  function AddCollider(s: Snapshot, e: Entity): (r: Snapshot)
    ensures r.bodies == s.bodies && r.nextBody == s.nextBody && r.entities.Keys == s.entities.Keys
    ensures e in s.entities && PendingCollider(s.entities[e]) ==> r.nextCollider == s.nextCollider + 1
  {
    if e in s.entities && PendingCollider(s.entities[e]) then
      var c := s.entities[e];
      var h := s.nextCollider;
      s.(entities := s.entities[e := c.(colliderDesc := None, colliderHandle := Some(h))],
         colliders := s.colliders[h := Collider(ToSim(c.position.value, c.shape.value), None, c.colliderDesc.value)],
         nextCollider := h + 1)
    else
      s
  }

  /** `add_colliders` over the entities `ids`, in that order.  It touches only
      the collider set and the entities of the query. */
  function AddColliders(s: Snapshot, ids: seq<Entity>): (r: Snapshot)
    decreases |ids|
    ensures r.bodies == s.bodies && r.nextBody == s.nextBody
    ensures r.entities.Keys == s.entities.Keys
    ensures s.nextCollider <= r.nextCollider
  {
    if ids == [] then s else AddCollider(AddColliders(s, ids[..|ids| - 1]), ids[|ids| - 1])
  }
  /** Binding one more entity of the order is one more step. */
  lemma AddCollidersSnoc(s: Snapshot, ids: seq<Entity>, i: nat)
    requires i < |ids|
    ensures AddColliders(s, ids[..i + 1]) == AddCollider(AddColliders(s, ids[..i]), ids[i])
  {
    assert ids[..i + 1][..i] == ids[..i];
  }


  /** One iteration of `add_rigid_bodies`.  The `RigidBodyHandle` names the
      body; the `ColliderHandle` names the collider inserted with that body as
      its parent. */
  function AddRigidBody(s: Snapshot, e: Entity): (r: Snapshot)
    ensures r.entities.Keys == s.entities.Keys
    ensures e in s.entities && PendingBody(s.entities[e]) ==>
              && r.nextBody == s.nextBody + 1
              && r.nextCollider == s.nextCollider + if s.entities[e].colliderDesc.Some? then 1 else 0
  {
    if e in s.entities && PendingBody(s.entities[e]) then
      var c := s.entities[e];
      var hb := s.nextBody;
      var bodies := s.bodies[hb := Body(c.bodyDesc.value, ToSim(c.position.value, c.shape.value), Zero)];
      if c.colliderDesc.Some? then
        var hc := s.nextCollider;
        s.(entities := s.entities[e := c.(bodyDesc := None, bodyHandle := Some(hb),
                                           colliderDesc := None, colliderHandle := Some(hc))],
           bodies := bodies, nextBody := hb + 1,
           colliders := s.colliders[hc := Collider(Zero, Some(hb), c.colliderDesc.value)],
           nextCollider := hc + 1)
      else
        s.(entities := s.entities[e := c.(bodyDesc := None, bodyHandle := Some(hb))],
           bodies := bodies, nextBody := hb + 1)
    else
      s
  }

  /** `add_rigid_bodies` over the entities `ids`, in that order. */
  function AddRigidBodies(s: Snapshot, ids: seq<Entity>): (r: Snapshot)
    decreases |ids|
    ensures r.entities.Keys == s.entities.Keys
    ensures s.nextBody <= r.nextBody && s.nextCollider <= r.nextCollider
  {
    if ids == [] then s else AddRigidBody(AddRigidBodies(s, ids[..|ids| - 1]), ids[|ids| - 1])
  }
  lemma AddRigidBodiesSnoc(s: Snapshot, ids: seq<Entity>, i: nat)
    requires i < |ids|
    ensures AddRigidBodies(s, ids[..i + 1]) == AddRigidBody(AddRigidBodies(s, ids[..i]), ids[i])
  {
    assert ids[..i + 1][..i] == ids[..i];
  }


  /** The Initialize stage: both binding systems.  Their queries are disjoint
      (without and with a pending rigid body), so their deferred commands do
      not interact and either order gives the same entities. */
  function Bind(s: Snapshot, ids: seq<Entity>): (r: Snapshot)
    ensures r.entities.Keys == s.entities.Keys
    ensures s.nextCollider <= r.nextCollider && s.nextBody <= r.nextBody
  {
    AddRigidBodies(AddColliders(s, ids), ids)
  }

  lemma AddColliderFrame(s: Snapshot, e: Entity)
    ensures var r := AddCollider(s, e);
            && (forall h :: h in r.colliders && h !in s.colliders ==> s.nextCollider <= h < r.nextCollider)
            && (forall d :: d in s.entities && d != e ==> r.entities[d] == s.entities[d])
            && (FreshCounters(s) ==> FreshCounters(r) && Extends(s, r))
            && (ParentsLive(s) ==> ParentsLive(r))
  {
  }

  /** `add_colliders` keeps every existing collider, draws the handles of the
      new ones from the counter, leaves the entities outside the query alone,
      and never makes a collider name a missing parent. */
  lemma {:induction false} AddCollidersFrame(s: Snapshot, ids: seq<Entity>)
    decreases |ids|
    ensures var r := AddColliders(s, ids);
            && (forall h :: h in r.colliders && h !in s.colliders ==> s.nextCollider <= h < r.nextCollider)
            && (forall e :: e in s.entities && e !in ids ==> r.entities[e] == s.entities[e])
            && (FreshCounters(s) ==> FreshCounters(r) && Extends(s, r))
            && (ParentsLive(s) ==> ParentsLive(r))
  {
    if ids != [] {
      var p, last := ids[..|ids| - 1], ids[|ids| - 1];
      AddCollidersFrame(s, p);
      AddColliderFrame(AddColliders(s, p), last);
    }
  }

  lemma AddRigidBodyFrame(s: Snapshot, e: Entity)
    ensures var r := AddRigidBody(s, e);
            && (forall h :: h in r.bodies && h !in s.bodies ==> s.nextBody <= h < r.nextBody)
            && (forall h :: h in r.colliders && h !in s.colliders ==> s.nextCollider <= h < r.nextCollider)
            && (forall d :: d in s.entities && d != e ==> r.entities[d] == s.entities[d])
            && (FreshCounters(s) ==> FreshCounters(r) && Extends(s, r))
            && (FreshCounters(s) && ParentsLive(s) ==> ParentsLive(r))
  {
  }

  /** `add_rigid_bodies` keeps every existing body and collider, draws the
      handles of the new ones from the counters, leaves the entities outside
      the query alone, and parents each new collider to a live body. */
  lemma {:induction false} AddRigidBodiesFrame(s: Snapshot, ids: seq<Entity>)
    decreases |ids|
    ensures var r := AddRigidBodies(s, ids);
            && (forall h :: h in r.bodies && h !in s.bodies ==> s.nextBody <= h < r.nextBody)
            && (forall h :: h in r.colliders && h !in s.colliders ==> s.nextCollider <= h < r.nextCollider)
            && (forall e :: e in s.entities && e !in ids ==> r.entities[e] == s.entities[e])
            && (FreshCounters(s) ==> FreshCounters(r) && Extends(s, r))
            && (FreshCounters(s) && ParentsLive(s) ==> ParentsLive(r))
  {
    if ids != [] {
      var p, last := ids[..|ids| - 1], ids[|ids| - 1];
      AddRigidBodiesFrame(s, p);
      AddRigidBodyFrame(AddRigidBodies(s, p), last);
    }
  }

  /** The number of entities of `ids` that `add_colliders` binds. */
  function CountPendingColliders(es: map<Entity, Components>, ids: seq<Entity>): nat
    decreases |ids|
  {
    if ids == [] then 0
    else
      var last := ids[|ids| - 1];
      CountPendingColliders(es, ids[..|ids| - 1]) + if last in es && PendingCollider(es[last]) then 1 else 0
  }

  /** The number of entities of `ids` that `add_rigid_bodies` binds. */
  function CountPendingBodies(es: map<Entity, Components>, ids: seq<Entity>): nat
    decreases |ids|
  {
    if ids == [] then 0
    else
      var last := ids[|ids| - 1];
      CountPendingBodies(es, ids[..|ids| - 1]) + if last in es && PendingBody(es[last]) then 1 else 0
  }

  lemma DistinctPrefix(ids: seq<Entity>)
    requires Distinct(ids) && ids != []
    ensures Distinct(ids[..|ids| - 1]) && ids[|ids| - 1] !in ids[..|ids| - 1]
  {
  }

  /** What `add_colliders` does to the entity `e` whose components in `s`
      were `c`, as seen in `r`: a pending collider was inserted at the
      converted translation, without parent, under a handle new to `s`; the
      entity holds that handle and has lost its descriptor.  An entity that was
      not pending is as it was. */
  ghost predicate ColliderBound(c: Components, s: Snapshot, r: Snapshot, e: Entity) {
    e in r.entities &&
    if PendingCollider(c) then
      && r.entities[e].colliderHandle.Some?
      && var h := r.entities[e].colliderHandle.value;
      && h !in s.colliders && h in r.colliders
      && r.colliders[h] == Collider(ToSim(c.position.value, c.shape.value), None, c.colliderDesc.value)
      && r.entities[e] == c.(colliderDesc := None, colliderHandle := Some(h))
    else
      r.entities[e] == c
  }

  lemma ColliderBoundStep(s: Snapshot, e: Entity)
    requires FreshCounters(s) && e in s.entities
    ensures ColliderBound(s.entities[e], s, AddCollider(s, e), e)
  {
  }

  lemma ColliderBoundExtends(c: Components, s0: Snapshot, s: Snapshot, r: Snapshot, e: Entity)
    requires ColliderBound(c, s0, s, e) && Extends(s, r) && e in r.entities && r.entities[e] == s.entities[e]
    ensures ColliderBound(c, s0, r, e)
  {
  }

  lemma {:induction false} AddCollidersBinds(s: Snapshot, ids: seq<Entity>, e: Entity)
    requires FreshCounters(s) && Distinct(ids) && e in ids && e in s.entities
    ensures ColliderBound(s.entities[e], s, AddColliders(s, ids), e)
  {
    var n := |ids|;
    var p, last := ids[..n - 1], ids[n - 1];
    DistinctPrefix(ids);
    var m := AddColliders(s, p);
    var r := AddCollider(m, last);
    AddCollidersFrame(s, p);
    AddColliderFrame(m, last);
    if e == last {
      ColliderBoundStep(m, e);
    } else {
      assert e in p;
      AddCollidersBinds(s, p, e);
      ColliderBoundExtends(s.entities[e], s, m, r, e);
    }
  }

  /** `add_colliders` inserts exactly one collider per entity it binds. */
  lemma {:induction false} AddCollidersCount(s: Snapshot, ids: seq<Entity>)
    requires FreshCounters(s) && Distinct(ids)
    ensures |AddColliders(s, ids).colliders| == |s.colliders| + CountPendingColliders(s.entities, ids)
    ensures AddColliders(s, ids).nextCollider == s.nextCollider + CountPendingColliders(s.entities, ids)
  {
    if ids != [] {
      var p, last := ids[..|ids| - 1], ids[|ids| - 1];
      DistinctPrefix(ids);
      AddCollidersCount(s, p);
      var m := AddColliders(s, p);
      AddCollidersFrame(s, p);
      if last in m.entities && PendingCollider(m.entities[last]) {
        assert m.nextCollider !in m.colliders;
      }
    }
  }

  /** What `add_rigid_bodies` does to the entity `e` whose components in `s`
      were `c`, as seen in `r`: a pending body was inserted at the converted
      translation under a handle new to `s` that the entity's `RigidBodyHandle`
      names; a pending collider was inserted under a handle new to `s`, with
      that body as parent, and the entity's `ColliderHandle` names it; both
      descriptors are gone.  An entity that was not pending is as it was. */
  ghost predicate BodyBound(c: Components, s: Snapshot, r: Snapshot, e: Entity) {
    e in r.entities &&
    if PendingBody(c) then
      && r.entities[e].bodyHandle.Some?
      && var hb := r.entities[e].bodyHandle.value;
      && hb !in s.bodies && hb in r.bodies
      && r.bodies[hb] == Body(c.bodyDesc.value, ToSim(c.position.value, c.shape.value), Zero)
      && (c.colliderDesc.None? ==> r.entities[e] == c.(bodyDesc := None, bodyHandle := Some(hb)))
      && (c.colliderDesc.Some? ==>
            && r.entities[e].colliderHandle.Some?
            && var hc := r.entities[e].colliderHandle.value;
            && hc !in s.colliders && hc in r.colliders
            && r.colliders[hc] == Collider(Zero, Some(hb), c.colliderDesc.value)
            && r.entities[e] == c.(bodyDesc := None, bodyHandle := Some(hb),
                                   colliderDesc := None, colliderHandle := Some(hc)))
    else
      r.entities[e] == c
  }

  lemma BodyBoundStep(s: Snapshot, e: Entity)
    requires FreshCounters(s) && e in s.entities
    ensures BodyBound(s.entities[e], s, AddRigidBody(s, e), e)
  {
  }

  lemma BodyBoundExtends(c: Components, s0: Snapshot, s: Snapshot, r: Snapshot, e: Entity)
    requires BodyBound(c, s0, s, e) && Extends(s, r) && e in r.entities && r.entities[e] == s.entities[e]
    ensures BodyBound(c, s0, r, e)
  {
  }

  lemma {:induction false} AddRigidBodiesBinds(s: Snapshot, ids: seq<Entity>, e: Entity)
    requires FreshCounters(s) && Distinct(ids) && e in ids && e in s.entities
    ensures BodyBound(s.entities[e], s, AddRigidBodies(s, ids), e)
  {
    var n := |ids|;
    var p, last := ids[..n - 1], ids[n - 1];
    DistinctPrefix(ids);
    var m := AddRigidBodies(s, p);
    var r := AddRigidBody(m, last);
    AddRigidBodiesFrame(s, p);
    AddRigidBodyFrame(m, last);
    if e == last {
      BodyBoundStep(m, e);
    } else {
      assert e in p;
      AddRigidBodiesBinds(s, p, e);
      BodyBoundExtends(s.entities[e], s, m, r, e);
    }
  }

  /** `add_rigid_bodies` inserts exactly one body per entity it binds. */
  lemma {:induction false} AddRigidBodiesCount(s: Snapshot, ids: seq<Entity>)
    requires FreshCounters(s) && Distinct(ids)
    ensures |AddRigidBodies(s, ids).bodies| == |s.bodies| + CountPendingBodies(s.entities, ids)
  {
    if ids != [] {
      var p, last := ids[..|ids| - 1], ids[|ids| - 1];
      DistinctPrefix(ids);
      AddRigidBodiesCount(s, p);
      var m := AddRigidBodies(s, p);
      AddRigidBodiesFrame(s, p);
      if last in m.entities && PendingBody(m.entities[last]) {
        assert m.nextBody !in m.bodies;
        assert AddRigidBody(m, last).bodies == m.bodies[m.nextBody := AddRigidBody(m, last).bodies[m.nextBody]];
      }
    }
  }

  /** No entity of `ids` is matched by either binding query. */
  ghost predicate NonePending(s: Snapshot, ids: seq<Entity>) {
    forall e :: e in ids && e in s.entities ==> !PendingCollider(s.entities[e]) && !PendingBody(s.entities[e])
  }

  /** After the Initialize stage no entity it visited still holds a descriptor
      that a binding query matches. */
  lemma BindLeavesNonePending(s: Snapshot, ids: seq<Entity>)
    requires FreshCounters(s) && Distinct(ids)
    ensures NonePending(Bind(s, ids), ids)
  {
    var m := AddColliders(s, ids);
    AddCollidersFrame(s, ids);
    forall e | e in ids && e in Bind(s, ids).entities
      ensures !PendingCollider(Bind(s, ids).entities[e]) && !PendingBody(Bind(s, ids).entities[e])
    {
      AddCollidersBinds(s, ids, e);
      AddRigidBodiesBinds(m, ids, e);
    }
  }

  lemma {:induction false} AddCollidersNoop(s: Snapshot, ids: seq<Entity>)
    requires NonePending(s, ids)
    ensures AddColliders(s, ids) == s
  {
    if ids != [] {
      AddCollidersNoop(s, ids[..|ids| - 1]);
    }
  }

  lemma {:induction false} AddRigidBodiesNoop(s: Snapshot, ids: seq<Entity>)
    requires NonePending(s, ids)
    ensures AddRigidBodies(s, ids) == s
  {
    if ids != [] {
      AddRigidBodiesNoop(s, ids[..|ids| - 1]);
    }
  }

  /** Binding happens once: a second Initialize stage over the same entities
      inserts nothing and changes nothing. */
  lemma BindOnce(s: Snapshot, ids: seq<Entity>)
    requires FreshCounters(s) && Distinct(ids)
    ensures Bind(Bind(s, ids), ids) == Bind(s, ids)
  {
    var b := Bind(s, ids);
    BindLeavesNonePending(s, ids);
    AddCollidersNoop(b, ids);
    AddRigidBodiesNoop(b, ids);
  }

  // ----------------------------------------------------- position synchroniser

  /** Matched by the query of `sync_pos`: a `RigidBodyHandle`, a Position and a Shape. */
  predicate Synced(c: Components) {
    c.bodyHandle.Some? && c.position.Some? && c.shape.Some?
  }

  /** Every body handle the synchroniser will look up is live; `sync_pos`
      unwraps the lookup and aborts otherwise. */
  ghost predicate BodiesLive(s: Snapshot) {
    forall e :: e in s.entities && Synced(s.entities[e]) ==> s.entities[e].bodyHandle.value in s.bodies
  }

  /** One iteration of `sync_pos`.  A Position written since the last run is
      pushed into the body; otherwise the body's translation is pulled back
      into the Position, bypassing change detection.  Either way, the next run
      sees the Position as unchanged. */
  function SyncEntity(s: Snapshot, e: Entity): (r: Snapshot)
    requires BodiesLive(s)
    ensures BodiesLive(r)
    ensures r.colliders == s.colliders && r.nextCollider == s.nextCollider && r.nextBody == s.nextBody
    ensures r.bodies.Keys == s.bodies.Keys && r.entities.Keys == s.entities.Keys
    ensures forall d :: d in s.entities ==>
              && r.entities[d].bodyHandle == s.entities[d].bodyHandle
              && r.entities[d].shape == s.entities[d].shape
              && Synced(r.entities[d]) == Synced(s.entities[d])
    ensures forall d :: d in s.entities && d != e ==> r.entities[d] == s.entities[d]
  {
    if e in s.entities && Synced(s.entities[e]) then
      var c := s.entities[e];
      var h := c.bodyHandle.value;
      var b := s.bodies[h];
      if c.changed then
        s.(bodies := s.bodies[h := b.(translation := ToSim(c.position.value, c.shape.value))],
           entities := s.entities[e := c.(changed := false)])
      else
        s.(entities := s.entities[e := c.(position := Some(FromSim(b.translation, c.shape.value)))])
    else
      s
  }

  /** `sync_pos` over the entities `ids`, in that order.  It changes only
      Positions, change flags and body translations: which entities are
      matched, which handles they hold, and which bodies exist stay the same. */
  function SyncPos(s: Snapshot, ids: seq<Entity>): (r: Snapshot)
    requires BodiesLive(s)
    decreases |ids|
    ensures BodiesLive(r)
    ensures r.colliders == s.colliders && r.nextCollider == s.nextCollider && r.nextBody == s.nextBody
    ensures r.bodies.Keys == s.bodies.Keys && r.entities.Keys == s.entities.Keys
    ensures forall e :: e in s.entities ==>
              && r.entities[e].bodyHandle == s.entities[e].bodyHandle
              && r.entities[e].shape == s.entities[e].shape
              && Synced(r.entities[e]) == Synced(s.entities[e])
    ensures forall e :: e in s.entities && e !in ids ==> r.entities[e] == s.entities[e]
  {
    if ids == [] then s else SyncEntity(SyncPos(s, ids[..|ids| - 1]), ids[|ids| - 1])
  }
  /** One visit changes a body's translation at most. */
  lemma SyncEntityKeepsMotion(m: Snapshot, e: Entity)
    requires BodiesLive(m)
    ensures var r := SyncEntity(m, e);
            forall h :: h in m.bodies ==> r.bodies[h].kind == m.bodies[h].kind && r.bodies[h].linvel == m.bodies[h].linvel
  {
    if e in m.entities && Synced(m.entities[e]) && m.entities[e].changed {
      var c := m.entities[e];
      var h := c.bodyHandle.value;
      assert SyncEntity(m, e).bodies == m.bodies[h := m.bodies[h].(translation := ToSim(c.position.value, c.shape.value))];
    }
  }

  /** One visit changes an entity's Position and change flag at most. */
  lemma SyncEntityTouchesOnlyPositions(m: Snapshot, e: Entity)
    requires BodiesLive(m)
    ensures var r := SyncEntity(m, e);
            forall d :: d in m.entities ==>
              r.entities[d] == m.entities[d].(position := r.entities[d].position, changed := r.entities[d].changed)
  {
    var r := SyncEntity(m, e);
    forall d | d in m.entities
      ensures r.entities[d] == m.entities[d].(position := r.entities[d].position, changed := r.entities[d].changed)
    {
      if d == e && Synced(m.entities[e]) {
        var c := m.entities[e];
        var b := m.bodies[c.bodyHandle.value];
        if c.changed {
          assert r.entities[e] == c.(changed := false);
        } else {
          assert r.entities[e] == c.(position := Some(FromSim(b.translation, c.shape.value)));
        }
      }
    }
  }

  /** The synchroniser changes no body's kind or velocity: only translations. */
  lemma {:induction false} SyncPosKeepsMotion(s: Snapshot, ids: seq<Entity>)
    requires BodiesLive(s)
    decreases |ids|
    ensures var r := SyncPos(s, ids);
            forall h :: h in s.bodies ==> r.bodies[h].kind == s.bodies[h].kind && r.bodies[h].linvel == s.bodies[h].linvel
  {
    if ids != [] {
      var p := ids[..|ids| - 1];
      SyncPosKeepsMotion(s, p);
      SyncEntityKeepsMotion(SyncPos(s, p), ids[|ids| - 1]);
    }
  }

  /** The synchroniser changes no component of an entity but its Position and
      its change flag. */
  lemma {:induction false} SyncPosTouchesOnlyPositions(s: Snapshot, ids: seq<Entity>)
    requires BodiesLive(s)
    decreases |ids|
    ensures var r := SyncPos(s, ids);
            forall e :: e in s.entities ==>
              r.entities[e] == s.entities[e].(position := r.entities[e].position, changed := r.entities[e].changed)
  {
    if ids != [] {
      var p := ids[..|ids| - 1];
      SyncPosTouchesOnlyPositions(s, p);
      SyncEntityTouchesOnlyPositions(SyncPos(s, p), ids[|ids| - 1]);
    }
  }

  lemma SyncPosSnoc(s: Snapshot, ids: seq<Entity>, i: nat)
    requires BodiesLive(s) && i < |ids|
    ensures BodiesLive(SyncPos(s, ids[..i]))
    ensures SyncPos(s, ids[..i + 1]) == SyncEntity(SyncPos(s, ids[..i]), ids[i])
  {
    assert ids[..i + 1][..i] == ids[..i];
  }


  /** No two entities of `ids` that the synchroniser visits share a body. */
  ghost predicate UniqueBodies(s: Snapshot, ids: seq<Entity>) {
    forall i, j ::
      (0 <= i < j < |ids| && ids[i] in s.entities && ids[j] in s.entities &&
       Synced(s.entities[ids[i]]) && Synced(s.entities[ids[j]])) ==>
        s.entities[ids[i]].bodyHandle != s.entities[ids[j]].bodyHandle
  }

  /** A body that no visited entity holds is left alone by the synchroniser. */
  lemma {:induction false} SyncPosUntouched(s: Snapshot, ids: seq<Entity>, h: Handle)
    requires BodiesLive(s) && h in s.bodies
    requires forall i :: 0 <= i < |ids| && ids[i] in s.entities && Synced(s.entities[ids[i]]) ==>
               s.entities[ids[i]].bodyHandle.value != h
    ensures SyncPos(s, ids).bodies[h] == s.bodies[h]
  {
    if ids != [] {
      SyncPosUntouched(s, ids[..|ids| - 1], h);
    }
  }

  /** Last writer wins, one direction per entity: a changed Position is pushed
      into the body and itself left as it was; an unchanged one is overwritten
      by the pulled-back translation and the body is left as it was.  Either
      way the flag ends lowered. */
  ghost predicate SyncedOnce(c: Components, s: Snapshot, r: Snapshot, e: Entity)
    requires Synced(c) && c.bodyHandle.value in s.bodies
  {
    var h := c.bodyHandle.value;
    && e in r.entities && h in r.bodies
    && if c.changed then
         && r.bodies[h] == s.bodies[h].(translation := ToSim(c.position.value, c.shape.value))
         && r.entities[e] == c.(changed := false)
       else
         && r.bodies[h] == s.bodies[h]
         && r.entities[e] == c.(position := Some(FromSim(s.bodies[h].translation, c.shape.value)))
  }

  lemma SyncedOnceStep(c: Components, s: Snapshot, m: Snapshot, e: Entity)
    requires BodiesLive(m) && Synced(c) && c.bodyHandle.value in s.bodies
    requires e in m.entities && m.entities[e] == c && m.bodies[c.bodyHandle.value] == s.bodies[c.bodyHandle.value]
    ensures SyncedOnce(c, s, SyncEntity(m, e), e)
  {
  }

  lemma SyncedOnceFrame(c: Components, s: Snapshot, m: Snapshot, r: Snapshot, e: Entity)
    requires Synced(c) && c.bodyHandle.value in s.bodies && SyncedOnce(c, s, m, e)
    requires e in r.entities && r.entities[e] == m.entities[e]
    requires c.bodyHandle.value in r.bodies && r.bodies[c.bodyHandle.value] == m.bodies[c.bodyHandle.value]
    ensures SyncedOnce(c, s, r, e)
  {
  }

  lemma {:induction false} SyncPosEffect(s: Snapshot, ids: seq<Entity>, e: Entity)
    requires BodiesLive(s) && Distinct(ids) && UniqueBodies(s, ids)
    requires e in ids && e in s.entities && Synced(s.entities[e])
    ensures SyncedOnce(s.entities[e], s, SyncPos(s, ids), e)
  {
    var n := |ids|;
    var p := ids[..n - 1];
    DistinctPrefix(ids);
    if e == ids[n - 1] {
      SyncPosEffectLast(s, ids);
    } else {
      assert e in p;
      UniqueBodiesPrefix(s, ids);
      SyncPosEffect(s, p, e);
      SyncPosEffectEarlier(s, ids, e);
    }
  }

  lemma UniqueBodiesPrefix(s: Snapshot, ids: seq<Entity>)
    requires UniqueBodies(s, ids) && ids != []
    ensures UniqueBodies(s, ids[..|ids| - 1])
  {
    var p := ids[..|ids| - 1];
    forall i, j | 0 <= i < j < |p| ensures p[i] == ids[i] && p[j] == ids[j] { }
  }

  /** The entity visited last meets its body as the earlier visits left it,
      which is as it was. */
  lemma SyncPosEffectLast(s: Snapshot, ids: seq<Entity>)
    requires BodiesLive(s) && Distinct(ids) && UniqueBodies(s, ids) && ids != []
    requires ids[|ids| - 1] in s.entities && Synced(s.entities[ids[|ids| - 1]])
    ensures SyncedOnce(s.entities[ids[|ids| - 1]], s, SyncPos(s, ids), ids[|ids| - 1])
  {
    var n := |ids|;
    var p, e := ids[..n - 1], ids[n - 1];
    DistinctPrefix(ids);
    var c := s.entities[e];
    var h := c.bodyHandle.value;
    forall i | 0 <= i < |p| && p[i] in s.entities && Synced(s.entities[p[i]])
      ensures s.entities[p[i]].bodyHandle.value != h
    {
      assert p[i] == ids[i];
    }
    SyncPosUntouched(s, p, h);
    SyncedOnceStep(c, s, SyncPos(s, p), e);
  }

  /** An entity visited earlier keeps what its own visit did: the last visit
      touches another entity and, if any, another body. */
  lemma SyncPosEffectEarlier(s: Snapshot, ids: seq<Entity>, e: Entity)
    requires BodiesLive(s) && Distinct(ids) && UniqueBodies(s, ids) && ids != []
    requires e in ids[..|ids| - 1] && e in s.entities && Synced(s.entities[e])
    requires SyncedOnce(s.entities[e], s, SyncPos(s, ids[..|ids| - 1]), e)
    ensures SyncedOnce(s.entities[e], s, SyncPos(s, ids), e)
  {
    var n := |ids|;
    var p, last := ids[..n - 1], ids[n - 1];
    DistinctPrefix(ids);
    var m := SyncPos(s, p);
    var c := s.entities[e];
    var h := c.bodyHandle.value;
    var i :| 0 <= i < |p| && p[i] == e;
    assert ids[i] == e;
    if last in m.entities && Synced(m.entities[last]) {
      assert m.entities[last] == s.entities[last];
      assert m.entities[last].bodyHandle.value != h;
    }
    SyncEntityKeeps(m, last, e, h);
    SyncedOnceFrame(c, s, m, SyncEntity(m, last), e);
  }

  /** Visiting `last` leaves another entity and a body it does not hold alone. */
  lemma SyncEntityKeeps(m: Snapshot, last: Entity, e: Entity, h: Handle)
    requires BodiesLive(m) && e != last && e in m.entities && h in m.bodies
    requires last in m.entities && Synced(m.entities[last]) ==> m.entities[last].bodyHandle.value != h
    ensures SyncEntity(m, last).entities[e] == m.entities[e]
    ensures SyncEntity(m, last).bodies[h] == m.bodies[h]
  {
  }

  /** Every visited entity's Position is unchanged and equals the read-back of
      its body's translation: the state the synchroniser leaves behind. */
  ghost predicate Settled(s: Snapshot, ids: seq<Entity>) {
    forall e :: e in ids && e in s.entities && Synced(s.entities[e]) && s.entities[e].bodyHandle.value in s.bodies ==>
      && !s.entities[e].changed
      && s.entities[e].position == Some(FromSim(s.bodies[s.entities[e].bodyHandle.value].translation, s.entities[e].shape.value))
  }

  lemma SyncPosSettles(s: Snapshot, ids: seq<Entity>)
    requires BodiesLive(s) && Distinct(ids) && UniqueBodies(s, ids)
    ensures Settled(SyncPos(s, ids), ids)
  {
    var r := SyncPos(s, ids);
    forall e | e in ids && e in r.entities && Synced(r.entities[e]) && r.entities[e].bodyHandle.value in r.bodies
      ensures !r.entities[e].changed
      ensures r.entities[e].position == Some(FromSim(r.bodies[r.entities[e].bodyHandle.value].translation, r.entities[e].shape.value))
    {
      var c := s.entities[e];
      SyncPosEffect(s, ids, e);
      if c.changed {
        PushThenPull(c.position.value, c.shape.value);
      }
    }
  }

  lemma {:induction false} SettledSyncNoop(s: Snapshot, ids: seq<Entity>)
    requires BodiesLive(s) && Settled(s, ids)
    ensures SyncPos(s, ids) == s
  {
    if ids != [] {
      var p, last := ids[..|ids| - 1], ids[|ids| - 1];
      SettledSyncNoop(s, p);
      if last in s.entities && Synced(s.entities[last]) {
        assert s.entities[last := s.entities[last]] == s.entities;
      }
    }
  }

  /** A value the synchroniser wrote is never pushed back: with no write in
      between, a second run changes nothing. */
  lemma SyncPosIdempotent(s: Snapshot, ids: seq<Entity>)
    requires BodiesLive(s) && Distinct(ids) && UniqueBodies(s, ids)
    ensures SyncPos(SyncPos(s, ids), ids) == SyncPos(s, ids)
  {
    SyncPosSettles(s, ids);
    SettledSyncNoop(SyncPos(s, ids), ids);
  }

  // ----------------------------------------------------------------- removal

  /** `RapierCtx::remove_collider`: the collider leaves the collider set (a
      handle already gone is a no-op).  Nothing else disappears. */
  function RemoveCollider(s: Snapshot, h: Handle): (r: Snapshot)
    ensures h !in r.colliders
    ensures r.colliders.Keys == s.colliders.Keys - {h}
    ensures forall k :: k in r.colliders ==> r.colliders[k] == s.colliders[k]
    ensures r.bodies == s.bodies && r.entities == s.entities
    ensures ParentsLive(s) ==> ParentsLive(r)
  {
    s.(colliders := s.colliders - {h})
  }

  /** `RapierCtx::remove_rigid_body`, which asks the engine to remove the
      colliders attached to the body as well.  A handle already gone is a
      no-op. */
  function RemoveBody(s: Snapshot, h: Handle): (r: Snapshot)
    ensures h !in r.bodies
    ensures r.bodies.Keys == s.bodies.Keys - {h}
    ensures h in s.bodies ==> forall k :: k in r.colliders ==> r.colliders[k].parent != Some(h)
    ensures forall k :: k in s.colliders ==>
              (k in r.colliders <==> !(h in s.bodies && s.colliders[k].parent == Some(h)))
    ensures forall k :: k in r.colliders ==> k in s.colliders && r.colliders[k] == s.colliders[k]
    ensures forall k :: k in r.bodies ==> r.bodies[k] == s.bodies[k]
    ensures r.entities == s.entities
    ensures ParentsLive(s) ==> ParentsLive(r)
  {
    if h in s.bodies then
      s.(bodies := s.bodies - {h},
         colliders := map k | k in s.colliders && s.colliders[k].parent != Some(h) :: s.colliders[k])
    else
      s
  }

  // ---------------------------------------------------------------- schedule

  /** The stage labels of the frame schedule. */
  datatype Stage = Initialize | Step | Sync | Update | Render

  /** The position of a stage in a schedule: the first occurrence. */
  function IndexOf(stages: seq<Stage>, x: Stage): (i: nat)
    requires x in stages
    ensures i < |stages| && stages[i] == x && x !in stages[..i]
  {
    if stages[0] == x then 0 else 1 + IndexOf(stages[1..], x)
  }

  /** `Schedule::add_stage_before`: the new stage is spliced in at the
      target's place. */
  function AddStageBefore(stages: seq<Stage>, target: Stage, stage: Stage): seq<Stage>
    requires target in stages && stage !in stages
  {
    var i := IndexOf(stages, target);
    stages[..i] + [stage] + stages[i..]
  }

  /** The new stage runs immediately before the target, the stages before the
      target keep their places, those from the target on move up by one, and
      no other stage is added. */
  lemma AddStageBeforePlaces(stages: seq<Stage>, target: Stage, stage: Stage)
    requires target in stages && stage !in stages
    ensures var r, i := AddStageBefore(stages, target, stage), IndexOf(stages, target);
            && |r| == |stages| + 1
            && IndexOf(r, target) == i + 1 && IndexOf(r, stage) == i
            && r[..i] == stages[..i] && r[i + 1..] == stages[i..]
            && forall x :: x in r <==> x in stages || x == stage
  {
    var r, i := AddStageBefore(stages, target, stage), IndexOf(stages, target);
    assert r[..i] == stages[..i];
    assert r[i + 1..] == stages[i..];
    IndexOfAt(r, stage, i);
    assert r[..i + 1] == stages[..i] + [stage];
    IndexOfAt(r, target, i + 1);
  }

  lemma {:induction false} IndexOfAt(stages: seq<Stage>, x: Stage, i: nat)
    requires i < |stages| && stages[i] == x && x !in stages[..i]
    ensures IndexOf(stages, x) == i
  {
    if i > 0 {
      assert stages[1..][..i - 1] == stages[..i][1..];
      IndexOfAt(stages[1..], x, i - 1);
    }
  }

  /** `add_rapier_plugin` on a schedule that has the Update stage and none of
      the plugin's: Sync before Update, Step before Sync, Initialize before
      Step. */
  function AddRapierStages(core: seq<Stage>): (r: seq<Stage>)
    requires Update in core && Initialize !in core && Step !in core && Sync !in core
    ensures |r| == |core| + 3
    ensures Initialize in r && Step in r && Sync in r && Update in r
  {
    var withSync := AddStageBefore(core, Update, Sync);
    AddStageBeforePlaces(core, Update, Sync);
    var withStep := AddStageBefore(withSync, Sync, Step);
    AddStageBeforePlaces(withSync, Sync, Step);
    AddStageBeforePlaces(withStep, Step, Initialize);
    AddStageBefore(withStep, Step, Initialize)
  }

  /** The plugin's three stages run, in the order Initialize, Step, Sync,
      immediately before Update, and the core stages keep their order. */
  lemma RapierStagesBeforeUpdate(core: seq<Stage>)
    requires Update in core && Initialize !in core && Step !in core && Sync !in core
    ensures var i := IndexOf(core, Update);
            AddRapierStages(core) == core[..i] + [Initialize, Step, Sync] + core[i..]
  {
    var i := IndexOf(core, Update);
    var head, post := core[..i], core[i + 1..];
    SplitAt(core, i);
    var r1 := head + ([Sync] + ([Update] + post));
    SpliceBefore(head, Update, post, Sync);
    assert AddStageBefore(core, Update, Sync) == r1;
    var r2 := head + ([Step] + ([Sync] + ([Update] + post)));
    SpliceBefore(head, Sync, [Update] + post, Step);
    assert AddStageBefore(r1, Sync, Step) == r2;
    SpliceBefore(head, Step, [Sync] + ([Update] + post), Initialize);
    Nest(head, [Update] + post);
  }

  /** The stages before, at and after index `i`. */
  lemma SplitAt(core: seq<Stage>, i: nat)
    requires i < |core|
    ensures core == core[..i] + ([core[i]] + core[i + 1..])
    ensures core[i..] == [core[i]] + core[i + 1..]
    ensures forall x :: x in core[..i] || x in core[i + 1..] ==> x in core
  {
    assert core[i..] == [core[i]] + core[i + 1..];
    assert core == core[..i] + core[i..];
  }

  /** Adding a stage before `target`, which follows `head`, puts it right
      after `head`. */
  lemma SpliceBefore(head: seq<Stage>, target: Stage, rest: seq<Stage>, x: Stage)
    requires target !in head && x !in head && x != target && x !in rest
    ensures AddStageBefore(head + ([target] + rest), target, x) == head + ([x] + ([target] + rest))
  {
    var stages := head + ([target] + rest);
    assert stages[..|head|] == head && stages[|head|..] == [target] + rest;
    IndexOfAt(stages, target, |head|);
  }

  lemma Nest(head: seq<Stage>, tail: seq<Stage>)
    ensures head + ([Initialize] + ([Step] + ([Sync] + tail))) == head + [Initialize, Step, Sync] + tail
  {
  }

  /** The schedule of the game: `main` adds the core stage Update, then
      Render after it, then the plugin.  Every frame binds, then steps, then synchronises, then
      runs gameplay, then renders. */
  function RapierSchedule(): (r: seq<Stage>)
    ensures r == [Initialize, Step, Sync, Update, Render]
  {
    var core := [Update, Render];
    IndexOfAt(core, Update, 0);
    RapierStagesBeforeUpdate(core);
    assert core[..0] + [Initialize, Step, Sync] + core[0..] == [Initialize, Step, Sync, Update, Render];
    AddRapierStages(core)
  }

  // ------------------------------------------------------------------ frame

  /** The Step stage.  The engine's integrator is not modelled: `step` stands
      for it, and moves bodies without adding or removing any. */
  function StepBodies(s: Snapshot, step: map<Handle, Body> -> map<Handle, Body>): (r: Snapshot)
    requires step(s.bodies).Keys == s.bodies.Keys
    ensures r.entities == s.entities && r.colliders == s.colliders
    ensures r.bodies.Keys == s.bodies.Keys && r.nextBody == s.nextBody && r.nextCollider == s.nextCollider
  {
    s.(bodies := step(s.bodies))
  }

  /** Binding never leaves an entity naming a body that is not there. */
  lemma BindKeepsBodiesLive(s: Snapshot, ids: seq<Entity>)
    requires FreshCounters(s) && Distinct(ids) && BodiesLive(s)
    ensures BodiesLive(Bind(s, ids)) && FreshCounters(Bind(s, ids))
    ensures ParentsLive(s) ==> ParentsLive(Bind(s, ids))
  {
    var m := AddColliders(s, ids);
    AddCollidersFrame(s, ids);
    var r := AddRigidBodies(m, ids);
    AddRigidBodiesFrame(m, ids);
    forall e | e in r.entities && Synced(r.entities[e])
      ensures r.entities[e].bodyHandle.value in r.bodies
    {
      if e in ids {
        AddCollidersBinds(s, ids, e);
        AddRigidBodiesBinds(m, ids, e);
      }
    }
  }

  /** Every entity that holds a body handle also has a Position and a Shape,
      so the synchroniser visits it. */
  ghost predicate HandlesSynced(s: Snapshot) {
    forall e :: e in s.entities && s.entities[e].bodyHandle.Some? ==> Synced(s.entities[e])
  }

  /** A physics frame hands out body handles only to entities with a Position
      and a Shape, and takes neither away. */
  lemma FrameKeepsHandlesSynced(s: Snapshot, ids: seq<Entity>, step: map<Handle, Body> -> map<Handle, Body>)
    requires FreshCounters(s) && Distinct(ids) && BodiesLive(s)
    requires forall b: map<Handle, Body> :: step(b).Keys == b.Keys
    requires HandlesSynced(s)
    ensures HandlesSynced(PhysicsFrame(s, ids, step))
  {
    var m := AddColliders(s, ids);
    AddCollidersFrame(s, ids);
    var b := AddRigidBodies(m, ids);
    BindKeepsBodiesLive(s, ids);
    forall e | e in b.entities && b.entities[e].bodyHandle.Some?
      ensures Synced(b.entities[e])
    {
      if e in ids {
        AddCollidersBinds(s, ids, e);
        AddRigidBodiesBinds(m, ids, e);
      } else {
        AddRigidBodiesFrame(m, ids);
      }
    }
    assert HandlesSynced(b);
    var t := StepBodies(b, step);
    assert HandlesSynced(t);
  }

  /** The physics stages of one frame, in schedule order: bind, step, sync. */
  function PhysicsFrame(s: Snapshot, ids: seq<Entity>, step: map<Handle, Body> -> map<Handle, Body>): (r: Snapshot)
    requires FreshCounters(s) && Distinct(ids) && BodiesLive(s)
    requires forall b: map<Handle, Body> :: step(b).Keys == b.Keys
    ensures r.entities.Keys == s.entities.Keys
    ensures BodiesLive(r) && FreshCounters(r)
    ensures ParentsLive(s) ==> ParentsLive(r)
  {
    BindKeepsBodiesLive(s, ids);
    var b := Bind(s, ids);
    SyncPos(StepBodies(b, step), ids)
  }

  /** Binding runs before the step: at the end of the frame every entity that
      was waiting for a body holds a live one, and the pending descriptors
      are gone. */
  lemma PhysicsFrameBinds(s: Snapshot, ids: seq<Entity>, step: map<Handle, Body> -> map<Handle, Body>, e: Entity)
    requires FreshCounters(s) && Distinct(ids) && BodiesLive(s)
    requires forall b: map<Handle, Body> :: step(b).Keys == b.Keys
    requires e in ids && e in s.entities && PendingBody(s.entities[e])
    ensures var r := PhysicsFrame(s, ids, step);
            && r.entities[e].bodyHandle.Some? && r.entities[e].bodyHandle.value in r.bodies
            && r.entities[e].bodyDesc.None?
            && (s.entities[e].colliderDesc.Some? ==>
                  && r.entities[e].colliderHandle.Some?
                  && r.entities[e].colliderHandle.value in r.colliders
                  && r.entities[e].colliderDesc.None?)
  {
    var m := AddColliders(s, ids);
    AddCollidersFrame(s, ids);
    AddCollidersBinds(s, ids, e);
    AddRigidBodiesBinds(m, ids, e);
    BindKeepsBodiesLive(s, ids);
    var b := Bind(s, ids);
    var t := StepBodies(b, step);
    var r := SyncPos(t, ids);
    SyncPosKeepsBinding(t, ids, e);
  }

  /** The binding state of an entity: its descriptors and its handles. */
  predicate SameBinding(c: Components, d: Components) {
    && c.colliderDesc == d.colliderDesc && c.bodyDesc == d.bodyDesc
    && c.colliderHandle == d.colliderHandle && c.bodyHandle == d.bodyHandle
  }

  /** The synchroniser changes no entity's descriptors or handles. */
  lemma {:induction false} SyncPosKeepsBinding(s: Snapshot, ids: seq<Entity>, e: Entity)
    requires BodiesLive(s) && e in s.entities
    ensures SameBinding(SyncPos(s, ids).entities[e], s.entities[e])
  {
    if ids != [] {
      var m := SyncPos(s, ids[..|ids| - 1]);
      SyncPosKeepsBinding(s, ids[..|ids| - 1], e);
      assert SameBinding(SyncEntity(m, ids[|ids| - 1]).entities[e], m.entities[e]);
    }
  }

  /** A freshly spawned entity's first frame: its Position was just added, so
      the synchroniser pushes it, and whatever the step did to the new body
      is overwritten by the spawn position. */
  lemma FirstFrameKeepsSpawnPosition(s: Snapshot, ids: seq<Entity>, step: map<Handle, Body> -> map<Handle, Body>, e: Entity)
    requires FreshCounters(s) && Distinct(ids) && BodiesLive(s)
    requires forall b: map<Handle, Body> :: step(b).Keys == b.Keys
    requires e in ids && e in s.entities && PendingBody(s.entities[e]) && s.entities[e].changed
    requires UniqueBodies(StepBodies(Bind(s, ids), step), ids)
    ensures var r := PhysicsFrame(s, ids, step);
            var c := s.entities[e];
            && r.entities[e].position == c.position && !r.entities[e].changed
            && r.entities[e].bodyHandle.Some? && r.entities[e].bodyHandle.value in r.bodies
            && r.bodies[r.entities[e].bodyHandle.value].translation == ToSim(c.position.value, c.shape.value)
  {
    var m := AddColliders(s, ids);
    AddCollidersFrame(s, ids);
    AddCollidersBinds(s, ids, e);
    AddRigidBodiesBinds(m, ids, e);
    BindKeepsBodiesLive(s, ids);
    var b := Bind(s, ids);
    var t := StepBodies(b, step);
    assert Synced(t.entities[e]);
    SyncPosEffect(t, ids, e);
  }
}
