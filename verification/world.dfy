/**
 * The running game: the bevy world together with the engine's sets and the
 * game's resources, as one object whose fields the systems update in place.
 *
 * Each system is a method that walks the query order `order` as the source's
 * `for` loop does, and is proved to leave the state its specification
 * function in `Physics` or `Game` describes; the properties of the systems
 * are proved about those functions.  The binding systems' deferred
 * commands are applied as the loop goes: each loop visits each entity once,
 * and one iteration reads and writes only the entity it visits and the
 * engine's sets, so no later iteration can tell the difference.  Spawns and
 * despawns are applied together, as at the end of the stage.
 */
module App {
  import opened Wrappers
  import opened Geometry
  import opened Ecs
  import opened Physics
  import opened Game

  /** The entities `start`, `start + 1`, ..., in order. */
  function Range(start: nat, n: nat): (r: seq<Entity>)
    ensures |r| == n && forall i :: 0 <= i < n ==> r[i] == start + i
  {
    if n == 0 then [] else Range(start, n - 1) + [start + n - 1]
  }

  /** The entities `SpawnAll` creates from `start` on: one per bundle, in order. */
  function SpawnMap(start: nat, bundles: seq<Components>): (m: map<Entity, Components>)
    decreases |bundles|
  {
    if bundles == [] then map[]
    else SpawnMap(start, bundles[..|bundles| - 1])[start + |bundles| - 1 := bundles[|bundles| - 1]]
  }

  /** Queries visit every live entity exactly once, entity ids below `next`
      are the only ones used, the handle counters are fresh, and no collider
      names a missing parent. */
  ghost predicate Wf(s: Snapshot, order: seq<Entity>, next: Entity) {
    && Distinct(order)
    && (forall e :: e in s.entities <==> e in order)
    && (forall e :: e in s.entities ==> e < next)
    && FreshCounters(s)
    && ParentsLive(s)
  }

  /** A step that keeps the live entities and the engine's invariants keeps
      the world well formed. */
  lemma WfKeys(s: Snapshot, r: Snapshot, order: seq<Entity>, next: Entity)
    requires Wf(s, order, next) && r.entities.Keys == s.entities.Keys
    requires FreshCounters(r) && ParentsLive(r)
    ensures Wf(r, order, next)
  {
    assert forall e :: e in r.entities <==> e in s.entities;
  }

  /** A step that keeps the entity set, the collider set, the set of body
      handles and the counters keeps the world well formed. */
  lemma SameTablesWf(s: Snapshot, r: Snapshot, order: seq<Entity>, next: Entity)
    requires Wf(s, order, next) && r.entities.Keys == s.entities.Keys
    requires r.colliders == s.colliders && r.bodies.Keys == s.bodies.Keys
    requires r.nextCollider == s.nextCollider && r.nextBody == s.nextBody
    ensures Wf(r, order, next)
  {
    assert FreshCounters(r) && ParentsLive(r);
    WfKeys(s, r, order, next);
  }

  /** `add_colliders` keeps the world well formed. */
  lemma AddCollidersKeepWf(s: Snapshot, order: seq<Entity>, next: Entity)
    requires Wf(s, order, next)
    ensures Wf(Physics.AddColliders(s, order), order, next)
  {
    AddCollidersFrame(s, order);
    WfKeys(s, Physics.AddColliders(s, order), order, next);
  }

  /** `add_rigid_bodies` keeps the world well formed. */
  lemma AddRigidBodiesKeepWf(s: Snapshot, order: seq<Entity>, next: Entity)
    requires Wf(s, order, next)
    ensures Wf(Physics.AddRigidBodies(s, order), order, next)
  {
    AddRigidBodiesFrame(s, order);
    WfKeys(s, Physics.AddRigidBodies(s, order), order, next);
  }

  /** `sync_pos` keeps the world well formed. */
  lemma SyncPosKeepsWf(s: Snapshot, order: seq<Entity>, next: Entity)
    requires Wf(s, order, next) && BodiesLive(s)
    ensures Wf(Physics.SyncPos(s, order), order, next)
  {
    SameTablesWf(s, Physics.SyncPos(s, order), order, next);
  }

  /** `move_player` keeps the world well formed. */
  lemma MovePlayersKeepWf(s: Snapshot, order: seq<Entity>, input: Input, next: Entity)
    requires Wf(s, order, next) && PlayerBodiesLive(s.entities, s.bodies)
    ensures Wf(s.(bodies := MovePlayers(s.bodies, s.entities, order, input)), order, next)
  {
    SameTablesWf(s, s.(bodies := MovePlayers(s.bodies, s.entities, order, input)), order, next);
  }

  /** `update_player_is_grounded` keeps the world well formed. */
  lemma GroundedKeepsWf(s: Snapshot, order: seq<Entity>, contact: (Handle, Handle) -> bool, next: Entity)
    requires Wf(s, order, next)
    ensures Wf(s.(entities := UpdateGrounded(s.entities, order, contact)), order, next)
  {
    SameTablesWf(s, s.(entities := UpdateGrounded(s.entities, order, contact)), order, next);
  }

  /** `move_player` writes velocities only, so every body handle stays live. */
  lemma MovePlayersKeepsBodiesLive(s: Snapshot, order: seq<Entity>, input: Input)
    requires BodiesLive(s) && PlayerBodiesLive(s.entities, s.bodies)
    ensures BodiesLive(s.(bodies := MovePlayers(s.bodies, s.entities, order, input)))
  {
  }

  /** `update_player_is_grounded` writes flags only, so every body handle
      stays live. */
  lemma GroundedKeepsBodiesLive(s: Snapshot, order: seq<Entity>, contact: (Handle, Handle) -> bool)
    requires BodiesLive(s)
    ensures BodiesLive(s.(entities := UpdateGrounded(s.entities, order, contact)))
  {
  }

  class World {
    var entities: map<Entity, Components>
    /** The order in which queries visit the live entities. */
    var order: seq<Entity>
    var colliders: map<Handle, Collider>
    var bodies: map<Handle, Body>
    var nextCollider: Handle
    var nextBody: Handle
    var nextEntity: Entity
    var level: Level
    var camera: Camera
    /** Set by `overwrite_restart`: the state is to be exited and entered again. */
    var restartRequested: bool

    function State(): Snapshot
      reads this`entities, this`colliders, this`bodies, this`nextCollider, this`nextBody
    {
      Snapshot(entities, colliders, bodies, nextCollider, nextBody)
    }

    ghost predicate Valid()
      reads this`entities, this`colliders, this`bodies, this`nextCollider, this`nextBody, this`order, this`nextEntity
    {
      Wf(State(), order, nextEntity)
    }

    /** The world after both plugins are added: empty sets, the default
        camera, and level 1 as long as the screen is wide. */
    constructor (screenWidth: real)
      ensures Valid()
      ensures entities == map[] && order == [] && colliders == map[] && bodies == map[]
      ensures level == Level(1, screenWidth) && camera == DefaultCamera && !restartRequested
      ensures BodiesLive(State())
    {
      entities := map[];
      order := [];
      colliders := map[];
      bodies := map[];
      nextCollider := 0;
      nextBody := 0;
      nextEntity := 0;
      level := Level(1, screenWidth);
      camera := DefaultCamera;
      restartRequested := false;
    }

    // ------------------------------------------------------------ entities

    /** `Commands::spawn`: a new entity, visited after every existing one. */
    method Spawn(c: Components) returns (e: Entity)
      requires Valid()
      modifies this`entities, this`order, this`nextEntity
      ensures Valid()
      ensures e == old(nextEntity) && e !in old(entities)
      ensures entities == old(entities)[e := c] && order == old(order) + [e] && nextEntity == e + 1
    {
      e := nextEntity;
      assert e !in order;
      entities := entities[e := c];
      order := order + [e];
      nextEntity := nextEntity + 1;
    }

    /** The spawns queued on `Commands`, applied together when the stage
        ends: the bundles become new entities, in order. */
    method SpawnAll(bundles: seq<Components>)
      requires Valid()
      modifies this`entities, this`order, this`nextEntity
      ensures Valid()
      ensures nextEntity == old(nextEntity) + |bundles|
      ensures order == old(order) + Range(old(nextEntity), |bundles|)
      ensures entities == old(entities) + SpawnMap(old(nextEntity), bundles)
    {
      SpawnKeepsWf(State(), order, nextEntity, bundles);
      entities := entities + SpawnMap(nextEntity, bundles);
      order := order + Range(nextEntity, |bundles|);
      nextEntity := nextEntity + |bundles|;
    }

    /** `despawn_all`: every entity is despawned. */
    method DespawnAll()
      requires Valid()
      modifies this`entities, this`order
      ensures Valid() && entities == map[] && order == []
      ensures BodiesLive(State())
    {
      var ids := order;
      var i := 0;
      while i < |ids|
        invariant 0 <= i <= |ids|
        invariant forall e :: e in entities <==> e in old(entities) && e !in ids[..i]
      {
        entities := entities - {ids[i]};
        i := i + 1;
      }
      assert ids[..|ids|] == ids;
      order := [];
    }

    // ------------------------------------------------------------- physics

    /** One iteration of `add_colliders`. */
    method BindCollider(e: Entity)
      modifies this`entities, this`colliders, this`nextCollider
      ensures State() == AddCollider(old(State()), e)
    {
      if e in entities && PendingCollider(entities[e]) {
        var c := entities[e];
        var h := nextCollider;
        colliders := colliders[h := Collider(ToSim(c.position.value, c.shape.value), None, c.colliderDesc.value)];
        nextCollider := nextCollider + 1;
        entities := entities[e := c.(colliderDesc := None, colliderHandle := Some(h))];
      }
    }

    /** The loop of `add_colliders`, one entity at a time. */
    method BindColliders()
      modifies this`entities, this`colliders, this`nextCollider
      ensures State() == Physics.AddColliders(old(State()), order)
    {
      var i := 0;
      while i < |order|
        invariant 0 <= i <= |order|
        invariant State() == Physics.AddColliders(old(State()), order[..i])
      {
        AddCollidersSnoc(old(State()), order, i);
        BindCollider(order[i]);
        i := i + 1;
      }
      assert order[..|order|] == order;
    }

    /** `add_colliders`. */
    method AddColliders()
      requires Valid()
      modifies this`entities, this`colliders, this`nextCollider
      ensures State() == Physics.AddColliders(old(State()), order)
      ensures Valid()
    {
      BindColliders();
      AddCollidersKeepWf(old(State()), order, nextEntity);
    }

    /** One iteration of `add_rigid_bodies`. */
    method BindBody(e: Entity)
      modifies this`entities, this`colliders, this`bodies, this`nextCollider, this`nextBody
      ensures State() == AddRigidBody(old(State()), e)
    {
      if e in entities && PendingBody(entities[e]) {
        var c := entities[e];
        var hb := nextBody;
        bodies := bodies[hb := Body(c.bodyDesc.value, ToSim(c.position.value, c.shape.value), Zero)];
        nextBody := nextBody + 1;
        if c.colliderDesc.Some? {
          var hc := nextCollider;
          colliders := colliders[hc := Collider(Zero, Some(hb), c.colliderDesc.value)];
          nextCollider := nextCollider + 1;
          entities := entities[e := c.(bodyDesc := None, bodyHandle := Some(hb),
                                       colliderDesc := None, colliderHandle := Some(hc))];
        } else {
          entities := entities[e := c.(bodyDesc := None, bodyHandle := Some(hb))];
        }
      }
    }

    /** The loop of `add_rigid_bodies`, one entity at a time. */
    method BindBodies()
      modifies this`entities, this`colliders, this`bodies, this`nextCollider, this`nextBody
      ensures State() == Physics.AddRigidBodies(old(State()), order)
    {
      var i := 0;
      while i < |order|
        invariant 0 <= i <= |order|
        invariant State() == Physics.AddRigidBodies(old(State()), order[..i])
      {
        AddRigidBodiesSnoc(old(State()), order, i);
        BindBody(order[i]);
        i := i + 1;
      }
      assert order[..|order|] == order;
    }

    /** `add_rigid_bodies`. */
    method AddRigidBodies()
      requires Valid()
      modifies this`entities, this`colliders, this`bodies, this`nextCollider, this`nextBody
      ensures State() == Physics.AddRigidBodies(old(State()), order)
      ensures Valid()
    {
      BindBodies();
      AddRigidBodiesKeepWf(old(State()), order, nextEntity);
    }

    /** The Initialize stage: `add_colliders` and `add_rigid_bodies`.  No
        entity is left naming a missing body. */
    method Initialize()
      requires Valid() && BodiesLive(State())
      modifies this`entities, this`colliders, this`bodies, this`nextCollider, this`nextBody
      ensures State() == Bind(old(State()), order)
      ensures Valid() && BodiesLive(State())
    {
      ghost var s := State();
      BindKeepsBodiesLive(s, order);
      AddColliders();
      ghost var m := State();
      assert m == Physics.AddColliders(s, order);
      AddRigidBodies();
      assert State() == Physics.AddRigidBodies(m, order);
    }

    /** `world_step`: the engine advances every body; `step` stands for it. */
    method WorldStep(step: map<Handle, Body> -> map<Handle, Body>)
      requires Valid() && step(bodies).Keys == bodies.Keys
      modifies this`bodies
      ensures State() == StepBodies(old(State()), step)
      ensures Valid()
    {
      bodies := step(bodies);
    }

    /** One iteration of `sync_pos`. */
    method SyncOne(e: Entity)
      requires BodiesLive(State())
      modifies this`entities, this`bodies
      ensures State() == SyncEntity(old(State()), e)
    {
      if e in entities && Synced(entities[e]) {
        var c := entities[e];
        var h := c.bodyHandle.value;
        if c.changed {
          bodies := bodies[h := bodies[h].(translation := ToSim(c.position.value, c.shape.value))];
          entities := entities[e := c.(changed := false)];
        } else {
          entities := entities[e := c.(position := Some(FromSim(bodies[h].translation, c.shape.value)))];
        }
      }
    }

    /** The loop of `sync_pos`, one entity at a time. */
    method SyncEach()
      requires BodiesLive(State())
      modifies this`entities, this`bodies
      ensures State() == Physics.SyncPos(old(State()), order)
    {
      ghost var s := State();
      var i := 0;
      while i < |order|
        invariant 0 <= i <= |order|
        invariant State() == Physics.SyncPos(s, order[..i])
      {
        SyncPosSnoc(s, order, i);
        SyncOne(order[i]);
        i := i + 1;
      }
      assert order[..|order|] == order;
    }

    /** `sync_pos`. */
    method SyncPos()
      requires Valid() && BodiesLive(State())
      modifies this`entities, this`bodies
      ensures State() == Physics.SyncPos(old(State()), order)
      ensures Valid()
    {
      SyncEach();
      SyncPosKeepsWf(old(State()), order, nextEntity);
    }

    /** The Initialize, Step and Sync stages of one frame, in that order. */
    method PhysicsStages(step: map<Handle, Body> -> map<Handle, Body>)
      requires Valid() && BodiesLive(State())
      requires forall b: map<Handle, Body> :: step(b).Keys == b.Keys
      modifies this`entities, this`colliders, this`bodies, this`nextCollider, this`nextBody
      ensures State() == PhysicsFrame(old(State()), order, step)
      ensures Valid() && BodiesLive(State())
    {
      Initialize();
      ghost var b := State();
      WorldStep(step);
      SyncPos();
      assert State() == Physics.SyncPos(StepBodies(b, step), order);
    }

    /** `RapierCtx::remove_collider`. */
    method RemoveCollider(h: Handle)
      modifies this`colliders
      ensures State() == Physics.RemoveCollider(old(State()), h)
    {
      colliders := colliders - {h};
    }

    /** `RapierCtx::remove_rigid_body`, with the body's colliders. */
    method RemoveRigidBody(h: Handle)
      modifies this`colliders, this`bodies
      ensures State() == Physics.RemoveBody(old(State()), h)
    {
      if h in bodies {
        bodies := bodies - {h};
        colliders := map k | k in colliders && colliders[k].parent != Some(h) :: colliders[k];
      }
    }

    // ------------------------------------------------------------ gameplay

    /** The loop of `move_player`, one entity at a time. */
    method MoveEach(input: Input)
      requires PlayerBodiesLive(entities, bodies)
      modifies this`bodies
      ensures bodies == MovePlayers(old(bodies), entities, order, input)
    {
      var i := 0;
      while i < |order|
        invariant 0 <= i <= |order|
        invariant PlayerBodiesLive(entities, old(bodies))
        invariant bodies == MovePlayers(old(bodies), entities, order[..i], input)
      {
        var e := order[i];
        PrefixStep(order, i);
        if e in entities && Moved(entities[e]) {
          var h := entities[e].bodyHandle.value;
          bodies := bodies[h := bodies[h].(linvel := Velocity(entities[e].player.value, bodies[h].linvel, input))];
        }
        i := i + 1;
      }
      assert order[..|order|] == order;
    }

    /** `move_player`. */
    method MovePlayer(input: Input)
      requires Valid() && PlayerBodiesLive(entities, bodies)
      modifies this`bodies
      ensures bodies == MovePlayers(old(bodies), entities, order, input)
      ensures Valid()
      ensures BodiesLive(old(State())) ==> BodiesLive(State())
    {
      MoveEach(input);
      MovePlayersKeepWf(old(State()), order, input, nextEntity);
      if BodiesLive(old(State())) {
        MovePlayersKeepsBodiesLive(old(State()), order, input);
      }
    }

    /** The loop of `update_player_is_grounded`.  The flag is lowered first
        and raised when the search finds a support; the search runs over the
        entities as they stand, which agree with the old ones on every
        non-player. */
    method GroundEach(contact: (Handle, Handle) -> bool)
      requires Distinct(order)
      modifies this`entities
      ensures entities == UpdateGrounded(old(entities), order, contact)
    {
      var i := 0;
      while i < |order|
        invariant 0 <= i <= |order|
        invariant entities == GroundedUpTo(old(entities), order, order[..i], contact)
      {
        GroundOne(i, old(entities), contact);
        i := i + 1;
      }
      GroundedUpToAll(old(entities), order, contact);
    }

    /** `update_player_is_grounded`. */
    method UpdatePlayerIsGrounded(contact: (Handle, Handle) -> bool)
      requires Valid()
      modifies this`entities
      ensures entities == UpdateGrounded(old(entities), order, contact)
      ensures Valid()
      ensures BodiesLive(old(State())) ==> BodiesLive(State())
    {
      GroundEach(contact);
      GroundedKeepsWf(old(State()), order, contact, nextEntity);
      if BodiesLive(old(State())) {
        GroundedKeepsBodiesLive(old(State()), order, contact);
      }
    }

    /** One pass of the outer loop of `update_player_is_grounded`: the
        player `order[i]`, if it is one, has its flag lowered and raised
        again when the inner loop finds a support. */
    method GroundOne(i: nat, ghost es: map<Entity, Components>, contact: (Handle, Handle) -> bool)
      requires Distinct(order) && i < |order|
      requires entities == GroundedUpTo(es, order, order[..i], contact)
      modifies this`entities
      ensures entities == GroundedUpTo(es, order, order[..i + 1], contact)
    {
      var e := order[i];
      GroundedUpToStep(es, order, i, contact);
      if e in entities && GroundedQuery(entities[e]) {
        var c := entities[e];
        entities := entities[e := SetGrounded(c, false)];
        var grounded := FindSupport(entities, order, c.position.value.y, c.colliderHandle.value, contact);
        if grounded {
          entities := entities[e := SetGrounded(c, true)];
        }
      }
    }

    /** `player_on_collide_with_star`: one level up and a restart request for
        each player that touches a star. */
    method PlayerOnCollideWithStar(intersect: (Handle, Handle) -> bool)
      modifies this`level, this`restartRequested
      ensures level == old(level).(id := old(level).id + StarHits(entities, order, order, intersect))
      ensures restartRequested == (old(restartRequested) || StarHits(entities, order, order, intersect) > 0)
      ensures BodiesLive(old(State())) ==> BodiesLive(State())
    {
      var i := 0;
      while i < |order|
        invariant 0 <= i <= |order|
        invariant level == old(level).(id := old(level).id + StarHits(entities, order[..i], order, intersect))
        invariant restartRequested == (old(restartRequested) || StarHits(entities, order[..i], order, intersect) > 0)
      {
        var e := order[i];
        StarHitsSnoc(entities, order, order, intersect, i);
        if e in entities && PlayerColliderQuery(entities[e]) {
          var hit := FindStar(entities, order, entities[e].colliderHandle.value, intersect);
          if hit {
            level := level.(id := level.id + 1);
            restartRequested := true;
          }
        }
        i := i + 1;
      }
      assert order[..|order|] == order;
    }

    /** `sync_camera`. */
    method SyncCamera(screenWidth: real, screenHeight: real)
      modifies this`camera
      ensures camera == Game.SyncCamera(old(camera), level, entities, order, screenWidth, screenHeight)
      ensures BodiesLive(old(State())) ==> BodiesLive(State())
    {
      camera := Game.SyncCamera(camera, level, entities, order, screenWidth, screenHeight);
    }

    /** The body of the `remove_physics` loop for one entity's components. */
    method RemoveEntityPhysics(c: Components)
      modifies this`colliders, this`bodies
      ensures State() == ApplyRemovals(old(State()), EntityRemovals(c))
    {
      if c.colliderHandle.Some? {
        RemoveCollider(c.colliderHandle.value);
      }
      if c.bodyHandle.Some? {
        RemoveRigidBody(c.bodyHandle.value);
      }
      ApplyEntityRemovals(old(State()), c);
    }

    /** One pass of the loop of `remove_physics`, for the entity `order[i]`. */
    method RemoveOne(i: nat, ghost s: Snapshot)
      requires i < |order|
      requires State() == ApplyRemovals(s, RemovalPlan(entities, order[..i]))
      modifies this`colliders, this`bodies
      ensures State() == ApplyRemovals(s, RemovalPlan(entities, order[..i + 1]))
    {
      var e := order[i];
      ghost var done := RemovalPlan(entities, order[..i]);
      RemovalPlanSnoc(entities, order, i);
      if e in entities {
        RemoveEntityPhysics(entities[e]);
        ApplyRemovalsAppend(s, done, EntityRemovals(entities[e]));
      } else {
        assert done + [] == done;
      }
    }

    /** `remove_physics`: each entity's collider, then its body. */
    method RemovePhysics()
      requires Valid()
      modifies this`colliders, this`bodies
      ensures State() == ApplyRemovals(old(State()), RemovalPlan(entities, order))
      ensures Valid()
    {
      ghost var s := State();
      var i := 0;
      while i < |order|
        invariant 0 <= i <= |order|
        invariant State() == ApplyRemovals(s, RemovalPlan(entities, order[..i]))
      {
        RemoveOne(i, s);
        i := i + 1;
      }
      RemovalPlanAll(entities, order);
      RemovalsKeepWf(s, RemovalPlan(entities, order), order, nextEntity);
    }

    // ------------------------------------------------------------- levels

    /** `setup_player`. */
    method SetupPlayer() returns (e: Entity)
      requires Valid()
      modifies this`entities, this`order, this`nextEntity
      ensures Valid()
      ensures e == old(nextEntity) && entities == old(entities)[e := PlayerBundle()]
      ensures order == old(order) + [e] && nextEntity == e + 1
    {
      e := Spawn(PlayerBundle());
    }

    /** `setup_level`: spawns the level's entities and sets its length. */
    method SetupLevel(screenWidth: real, screenHeight: real) returns (setup: LevelSetup)
      requires Valid()
      modifies this`entities, this`order, this`nextEntity, this`level
      ensures setup == Game.SetupLevel(old(level), screenWidth, screenHeight)
      ensures Valid() && level == setup.level
      ensures nextEntity == old(nextEntity) + |setup.spawns|
      ensures order == old(order) + Range(old(nextEntity), |setup.spawns|)
      ensures entities == old(entities) + SpawnMap(old(nextEntity), setup.spawns)
    {
      setup := Game.SetupLevel(level, screenWidth, screenHeight);
      SpawnAll(setup.spawns);
      level := setup.level;
    }

    /** The systems that run on leaving the game state: `remove_physics`,
        then `despawn_all`.  No entity is left, and no handle an entity held
        names a live object. */
    method Exit()
      requires Valid()
      modifies this`entities, this`order, this`colliders, this`bodies, this`restartRequested
      ensures Valid() && entities == map[] && order == [] && !restartRequested
      ensures BodiesLive(State())
      ensures forall e :: e in old(entities) && old(entities)[e].colliderHandle.Some? ==>
                old(entities)[e].colliderHandle.value !in colliders
      ensures forall e :: e in old(entities) && old(entities)[e].bodyHandle.Some? ==>
                old(entities)[e].bodyHandle.value !in bodies
    {
      ghost var s := State();
      RemovePhysics();
      forall e | e in s.entities
        ensures s.entities[e].colliderHandle.Some? ==> s.entities[e].colliderHandle.value !in colliders
        ensures s.entities[e].bodyHandle.Some? ==> s.entities[e].bodyHandle.value !in bodies
      {
        RemovePhysicsReleases(s, order, e);
      }
      DespawnAll();
      restartRequested := false;
    }

    /** The systems that run on entering the game state: `setup_player`,
        then `setup_level`.  The new entities are the player followed by the
        current level's spawns, and none of them reuses an old id. */
    method Enter(screenWidth: real, screenHeight: real) returns (setup: LevelSetup)
      requires Valid()
      modifies this`entities, this`order, this`nextEntity, this`level
      ensures setup == Game.SetupLevel(old(level), screenWidth, screenHeight)
      ensures Valid() && level == setup.level
      ensures order == old(order) + [old(nextEntity)] + Range(old(nextEntity) + 1, |setup.spawns|)
      ensures entities == old(entities)[old(nextEntity) := PlayerBundle()] + SpawnMap(old(nextEntity) + 1, setup.spawns)
      ensures nextEntity == old(nextEntity) + 1 + |setup.spawns|
      ensures BodiesLive(old(State())) ==> BodiesLive(State())
    {
      var player := SetupPlayer();
      setup := SetupLevel(screenWidth, screenHeight);
      if BodiesLive(old(State())) {
        LevelSpawnsUnbound(old(level), screenWidth, screenHeight);
        EnterKeepsBodiesLive(old(State()), State(), old(nextEntity), setup.spawns);
      }
    }
  }

  /** None of the bundles holds a body handle. */
  ghost predicate Unbound(bundles: seq<Components>) {
    forall i :: 0 <= i < |bundles| ==> bundles[i].bodyHandle.None?
  }

  /** No bundle a level spawns holds a body handle. */
  lemma LevelSpawnsUnbound(level: Level, sw: real, sh: real)
    ensures Unbound(Game.SetupLevel(level, sw, sh).spawns)
  {
  }

  /** Spawning the player and then bundles that hold no body handle keeps
      every handle the synchroniser looks up live. */
  lemma EnterKeepsBodiesLive(s: Snapshot, r: Snapshot, next: Entity, spawns: seq<Components>)
    requires BodiesLive(s) && Unbound(spawns) && r.bodies == s.bodies
    requires r.entities == s.entities[next := PlayerBundle()] + SpawnMap(next + 1, spawns)
    ensures BodiesLive(r)
  {
    SpawnMapContents(next + 1, spawns);
  }

  /** The entities `SpawnAll` creates are exactly `start` up to
      `start + |bundles|`, and entity `start + i` gets the `i`th bundle. */
  lemma {:induction false} SpawnMapContents(start: nat, bundles: seq<Components>)
    decreases |bundles|
    ensures forall e :: e in SpawnMap(start, bundles) <==> start <= e < start + |bundles|
    ensures forall e :: e in SpawnMap(start, bundles) ==> SpawnMap(start, bundles)[e] == bundles[e - start]
  {
    if bundles != [] {
      SpawnMapContents(start, bundles[..|bundles| - 1]);
    }
  }

  /** Spawning fresh entities, visited after every existing one, keeps the
      world well formed. */
  lemma SpawnKeepsWf(s: Snapshot, order: seq<Entity>, next: Entity, bundles: seq<Components>)
    requires Wf(s, order, next)
    ensures Wf(s.(entities := s.entities + SpawnMap(next, bundles)),
               order + Range(next, |bundles|), next + |bundles|)
  {
    var r := s.(entities := s.entities + SpawnMap(next, bundles));
    SpawnMapContents(next, bundles);
    forall i | 0 <= i < |order|
      ensures order[i] < next
    {
      assert order[i] in order;
    }
    AppendRange(order, next, |bundles|);
    SameEngine(s, r);
  }

  /** The engine invariants do not look at the entities. */
  lemma SameEngine(s: Snapshot, r: Snapshot)
    requires r.colliders == s.colliders && r.bodies == s.bodies
    requires r.nextCollider == s.nextCollider && r.nextBody == s.nextBody
    ensures FreshCounters(s) ==> FreshCounters(r)
    ensures ParentsLive(s) ==> ParentsLive(r)
  {
  }

  /** Appending the ids from `start` on to a query order whose ids are all
      below `start` keeps it duplicate-free and adds exactly those ids. */
  lemma AppendRange(ids: seq<Entity>, start: nat, n: nat)
    requires Distinct(ids) && forall i :: 0 <= i < |ids| ==> ids[i] < start
    ensures Distinct(ids + Range(start, n))
    ensures forall e :: e in ids + Range(start, n) <==> e in ids || start <= e < start + n
  {
    var r := ids + Range(start, n);
    forall e | start <= e < start + n
      ensures e in r
    {
      assert r[|ids| + e - start] == e;
    }
  }

  /** Removing engine objects keeps the world well formed. */
  lemma RemovalsKeepWf(s: Snapshot, ops: seq<Removal>, order: seq<Entity>, next: Entity)
    requires Wf(s, order, next)
    ensures Wf(ApplyRemovals(s, ops), order, next)
  {
    var r := ApplyRemovals(s, ops);
    assert FreshCounters(r);
  }

  lemma RemovalPlanAll(es: map<Entity, Components>, ids: seq<Entity>)
    ensures RemovalPlan(es, ids[..|ids|]) == RemovalPlan(es, ids)
  {
    assert ids[..|ids|] == ids;
  }

  /** The store once the players among `done` have had their flag set. */
  ghost function GroundedUpTo(es: map<Entity, Components>, ids: seq<Entity>, done: seq<Entity>,
                              contact: (Handle, Handle) -> bool): map<Entity, Components> {
    map e | e in es ::
      if e in done && GroundedQuery(es[e]) then
        SetGrounded(es[e], Grounded(es, ids, es[e].position.value.y, es[e].colliderHandle.value, contact))
      else es[e]
  }

  /** One player more: its own entry meets the search as it was, since the
      flags already written belong to players, which never support. */
  lemma GroundedUpToStep(es: map<Entity, Components>, ids: seq<Entity>, i: nat, contact: (Handle, Handle) -> bool)
    requires Distinct(ids) && i < |ids|
    ensures var cur := GroundedUpTo(es, ids, ids[..i], contact);
            var e := ids[i];
            && cur.Keys == es.Keys
            && (e in es ==> cur[e] == es[e])
            && if e in es && GroundedQuery(es[e]) then
                 var c := es[e];
                 var cleared := cur[e := SetGrounded(c, false)];
                 var g := Grounded(cleared, ids, c.position.value.y, c.colliderHandle.value, contact);
                 GroundedUpTo(es, ids, ids[..i + 1], contact) == if g then cleared[e := SetGrounded(c, true)] else cleared
               else GroundedUpTo(es, ids, ids[..i + 1], contact) == cur
  {
    var cur := GroundedUpTo(es, ids, ids[..i], contact);
    var e := ids[i];
    PrefixStep(ids, i);
    assert forall x :: x in ids[..i + 1] <==> x in ids[..i] || x == e;
    assert e !in ids[..i] by {
      forall j | 0 <= j < i ensures ids[..i][j] != e { }
    }
    if e in es && GroundedQuery(es[e]) {
      var c := es[e];
      var y, h := c.position.value.y, c.colliderHandle.value;
      var cleared := cur[e := SetGrounded(c, false)];
      NonPlayersAgree(es, cleared, ids, y, h, contact);
      var g := Grounded(es, ids, y, h, contact);
      if g {
        assert GroundedUpTo(es, ids, ids[..i + 1], contact) == cleared[e := SetGrounded(c, true)];
      } else {
        assert GroundedUpTo(es, ids, ids[..i + 1], contact) == cleared;
      }
    } else {
      assert GroundedUpTo(es, ids, ids[..i + 1], contact) == cur;
    }
  }

  lemma GroundedUpToAll(es: map<Entity, Components>, ids: seq<Entity>, contact: (Handle, Handle) -> bool)
    ensures GroundedUpTo(es, ids, ids[..|ids|], contact) == UpdateGrounded(es, ids, contact)
  {
    assert ids[..|ids|] == ids;
  }

  /** The removals of one entity, applied to a snapshot. */
  lemma ApplyEntityRemovals(s: Snapshot, c: Components)
    ensures ApplyRemovals(s, EntityRemovals(c)) ==
              var afterCollider := if c.colliderHandle.Some? then Physics.RemoveCollider(s, c.colliderHandle.value) else s;
              if c.bodyHandle.Some? then RemoveBody(afterCollider, c.bodyHandle.value) else afterCollider
  {
    var ops := EntityRemovals(c);
    if c.colliderHandle.Some? && c.bodyHandle.Some? {
      var one := [RemoveColliderOp(c.colliderHandle.value)];
      assert ops == one + [RemoveBodyOp(c.bodyHandle.value)];
      assert ops[..1] == one && one[..0] == [];
      assert ApplyRemovals(s, one) == ApplyRemoval(ApplyRemovals(s, []), one[0]);
    } else if ops != [] {
      assert ops[..0] == [];
      assert ApplyRemovals(s, ops) == ApplyRemoval(ApplyRemovals(s, []), ops[0]);
    }
  }

  /** Applying two lists of removals one after the other. */
  lemma {:induction false} ApplyRemovalsAppend(s: Snapshot, a: seq<Removal>, b: seq<Removal>)
    ensures ApplyRemovals(s, a + b) == ApplyRemovals(ApplyRemovals(s, a), b)
    decreases |b|
  {
    if b == [] {
      assert a + b == a;
    } else {
      assert (a + b)[..|a + b| - 1] == a + b[..|b| - 1];
      ApplyRemovalsAppend(s, a, b[..|b| - 1]);
    }
  }
}
