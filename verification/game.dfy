/**
 * The gameplay rules of the platformer (src/game.rs): player movement, the
 * grounded test, the level advance, the camera, the removal of physics
 * objects on a restart, and what each level spawns.
 *
 * Contact and intersection results come from the engine's narrow phase and
 * are passed in as predicates over pairs of collider handles.
 */
module Game {
  import opened Wrappers
  import opened Geometry
  import opened Ecs
  import opened Physics

  /** The `Level` resource: which level is loaded and how far it scrolls. */
  datatype Level = Level(id: nat, length: real)

  /** The key states one frame reads: keys held down and keys pressed this frame. */
  datatype Input = Input(
    downD: bool, downRight: bool, downA: bool, downLeft: bool,
    pressedW: bool, pressedSpace: bool, pressedUp: bool)

  predicate RightHeld(input: Input) { input.downD || input.downRight }
  predicate LeftHeld(input: Input) { input.downA || input.downLeft }
  predicate JumpPressed(input: Input) { input.pressedW || input.pressedSpace || input.pressedUp }

  /** A key state as a number, as `as i8 as f32` converts it. */
  function AsReal(b: bool): real { if b then 1.0 else 0.0 }

  // ---------------------------------------------------------------- movement

  /** The velocity `move_player` gives a player's body: full speed towards the
      one horizontal direction held (none when both or neither are held), and
      an upward jump only when jump was pressed while grounded; otherwise the
      vertical velocity is kept. */
  function Velocity(p: Player, linvel: Vec2, input: Input): (v: Vec2)
    ensures v.x == -p.speed || v.x == 0.0 || v.x == p.speed
    ensures RightHeld(input) == LeftHeld(input) ==> v.x == 0.0
    ensures RightHeld(input) && !LeftHeld(input) ==> v.x == p.speed
    ensures LeftHeld(input) && !RightHeld(input) ==> v.x == -p.speed
    ensures JumpPressed(input) && p.isGrounded ==> v.y == -p.jump
    ensures !(JumpPressed(input) && p.isGrounded) ==> v.y == linvel.y
  {
    var x := AsReal(RightHeld(input)) - AsReal(LeftHeld(input));
    Vec2(x * p.speed, if JumpPressed(input) && p.isGrounded then -p.jump else linvel.y)
  }

  /** Matched by the query of `move_player`: a Player and a `RigidBodyHandle`. */
  predicate Moved(c: Components) {
    c.player.Some? && c.bodyHandle.Some?
  }

  /** Every body `move_player` looks up is live; the lookup unwraps. */
  ghost predicate PlayerBodiesLive(es: map<Entity, Components>, bodies: map<Handle, Body>) {
    forall e :: e in es && Moved(es[e]) ==> es[e].bodyHandle.value in bodies
  }

  /** Where every entity holding a body handle is one the synchroniser
      visits, the lookups of `move_player` find live bodies as those of
      `sync_pos` do. */
  lemma MovedBodiesLive(s: Snapshot)
    requires BodiesLive(s) && HandlesSynced(s)
    ensures PlayerBodiesLive(s.entities, s.bodies)
  {
    forall e | e in s.entities && Moved(s.entities[e])
      ensures s.entities[e].bodyHandle.value in s.bodies
    {
      assert Synced(s.entities[e]);
    }
  }

  /** One iteration of `move_player`. */
  function MoveOne(bodies: map<Handle, Body>, es: map<Entity, Components>, e: Entity, input: Input): (r: map<Handle, Body>)
    requires PlayerBodiesLive(es, bodies)
    ensures r.Keys == bodies.Keys
    ensures forall h :: h in bodies ==> r[h].kind == bodies[h].kind && r[h].translation == bodies[h].translation
  {
    if e in es && Moved(es[e]) then
      var h := es[e].bodyHandle.value;
      bodies[h := bodies[h].(linvel := Velocity(es[e].player.value, bodies[h].linvel, input))]
    else
      bodies
  }

  /** `move_player` over the entities `ids`, in that order: it sets velocities
      only, so the bodies, their kinds and their translations stay. */
  function MovePlayers(bodies: map<Handle, Body>, es: map<Entity, Components>, ids: seq<Entity>, input: Input): (r: map<Handle, Body>)
    requires PlayerBodiesLive(es, bodies)
    decreases |ids|
    ensures r.Keys == bodies.Keys
    ensures forall h :: h in bodies ==> r[h].kind == bodies[h].kind && r[h].translation == bodies[h].translation
  {
    if ids == [] then bodies
    else
      var m := MovePlayers(bodies, es, ids[..|ids| - 1], input);
      MoveOne(m, es, ids[|ids| - 1], input)
  }

  /** No two players of `ids` share a body. */
  ghost predicate UniquePlayerBodies(es: map<Entity, Components>, ids: seq<Entity>) {
    forall i, j ::
      (0 <= i < j < |ids| && ids[i] in es && ids[j] in es && Moved(es[ids[i]]) && Moved(es[ids[j]])) ==>
        es[ids[i]].bodyHandle != es[ids[j]].bodyHandle
  }

  /** A body that no player of `ids` holds keeps its velocity. */
  lemma {:induction false} MovePlayersUntouched(bodies: map<Handle, Body>, es: map<Entity, Components>, ids: seq<Entity>, input: Input, h: Handle)
    requires PlayerBodiesLive(es, bodies) && h in bodies
    requires forall i :: 0 <= i < |ids| && ids[i] in es && Moved(es[ids[i]]) ==> es[ids[i]].bodyHandle.value != h
    ensures MovePlayers(bodies, es, ids, input)[h] == bodies[h]
  {
    if ids != [] {
      MovePlayersUntouched(bodies, es, ids[..|ids| - 1], input, h);
    }
  }

  /** Each player's body ends with the velocity of `Velocity`, computed from
      the velocity it had before the system ran. */
  lemma {:induction false} MovePlayersEffect(bodies: map<Handle, Body>, es: map<Entity, Components>, ids: seq<Entity>, input: Input, e: Entity)
    requires PlayerBodiesLive(es, bodies) && UniquePlayerBodies(es, ids)
    requires e in ids && e in es && Moved(es[e])
    ensures var h := es[e].bodyHandle.value;
            MovePlayers(bodies, es, ids, input)[h] ==
              bodies[h].(linvel := Velocity(es[e].player.value, bodies[h].linvel, input))
  {
    var n := |ids|;
    var p, last := ids[..n - 1], ids[n - 1];
    var h := es[e].bodyHandle.value;
    var m := MovePlayers(bodies, es, p, input);
    var i :| 0 <= i < n && ids[i] == e;
    if i == n - 1 {
      forall j | 0 <= j < |p| && p[j] in es && Moved(es[p[j]])
        ensures es[p[j]].bodyHandle.value != h
      {
        assert p[j] == ids[j];
      }
      MovePlayersUntouched(bodies, es, p, input, h);
    } else {
      assert p[i] == e;
      assert UniquePlayerBodies(es, p) by {
        forall i', j' | 0 <= i' < j' < |p| ensures p[i'] == ids[i'] && p[j'] == ids[j'] { }
      }
      MovePlayersEffect(bodies, es, p, input, e);
      if last in es && Moved(es[last]) {
        assert es[last].bodyHandle.value != h;
      }
    }
  }

  // ---------------------------------------------------------------- grounded

  /** Matched by the player query of `update_player_is_grounded`. */
  predicate GroundedQuery(c: Components) {
    c.player.Some? && c.position.Some? && c.colliderHandle.Some?
  }

  /** A non-player collider that is in active contact with the player's
      collider `h` and lies below the player's Position `y` (y grows downward). */
  predicate Supports(c: Components, y: real, h: Handle, contact: (Handle, Handle) -> bool) {
    && c.player.None? && c.position.Some? && c.colliderHandle.Some?
    && contact(h, c.colliderHandle.value)
    && y < c.position.value.y
  }

  /** Some entity of `ids` supports the player. */
  predicate Grounded(es: map<Entity, Components>, ids: seq<Entity>, y: real, h: Handle, contact: (Handle, Handle) -> bool) {
    exists i :: 0 <= i < |ids| && ids[i] in es && Supports(es[ids[i]], y, h, contact)
  }

  /** The inner loop of `update_player_is_grounded`: the flag starts false and
      is raised at the first supporting collider, which ends the search. */
  method FindSupport(es: map<Entity, Components>, ids: seq<Entity>, y: real, h: Handle, contact: (Handle, Handle) -> bool)
    returns (grounded: bool)
    ensures grounded <==> exists i :: 0 <= i < |ids| && ids[i] in es && Supports(es[ids[i]], y, h, contact)
  {
    grounded := false;
    var i := 0;
    while i < |ids|
      invariant 0 <= i <= |ids|
      invariant !grounded
      invariant forall j :: 0 <= j < i ==> !(ids[j] in es && Supports(es[ids[j]], y, h, contact))
    {
      if ids[i] in es && Supports(es[ids[i]], y, h, contact) {
        grounded := true;
        break;
      }
      i := i + 1;
    }
  }

  function SetGrounded(c: Components, grounded: bool): Components
    requires c.player.Some?
  {
    c.(player := Some(c.player.value.(isGrounded := grounded)))
  }

  /** The entity store after `update_player_is_grounded`: every player of
      `ids` is grounded exactly when some collider of `ids` supports it,
      whatever its flag was before; nothing else changes.  The supporting
      colliders are never players, so the flags written do not affect the
      search. */
  function UpdateGrounded(es: map<Entity, Components>, ids: seq<Entity>, contact: (Handle, Handle) -> bool): (r: map<Entity, Components>)
    ensures r.Keys == es.Keys
    ensures forall e :: e in es ==> FlagOnly(es[e], r[e])
  {
    map e | e in es ::
      if e in ids && GroundedQuery(es[e]) then
        SetGrounded(es[e], Grounded(es, ids, es[e].position.value.y, es[e].colliderHandle.value, contact))
      else es[e]
  }

  /** `d` is `c` with at most its player's grounded flag changed. */
  predicate FlagOnly(c: Components, d: Components) {
    && d.(player := c.player) == c
    && (d.player.Some? <==> c.player.Some?)
    && (c.player.Some? ==> d.player.value.(isGrounded := c.player.value.isGrounded) == c.player.value)
  }

  /** Lowering or raising a player's flag does not change who supports whom:
      supports are never players. */
  lemma NonPlayersAgree(es: map<Entity, Components>, es': map<Entity, Components>, ids: seq<Entity>,
                        y: real, h: Handle, contact: (Handle, Handle) -> bool)
    requires es'.Keys == es.Keys
    requires forall e :: e in es && (es[e].player.None? || es'[e].player.None?) ==> es'[e] == es[e]
    ensures Grounded(es', ids, y, h, contact) == Grounded(es, ids, y, h, contact)
  {
    if Grounded(es, ids, y, h, contact) {
      var i :| 0 <= i < |ids| && ids[i] in es && Supports(es[ids[i]], y, h, contact);
      assert Supports(es'[ids[i]], y, h, contact);
    }
    if Grounded(es', ids, y, h, contact) {
      var i :| 0 <= i < |ids| && ids[i] in es' && Supports(es'[ids[i]], y, h, contact);
      assert Supports(es[ids[i]], y, h, contact);
    }
  }

  /** The flags the visited players held before do not matter: a store that
      differs only in them is updated to the same store. */
  lemma GroundedIgnoresFlags(es: map<Entity, Components>, es': map<Entity, Components>, ids: seq<Entity>,
                             contact: (Handle, Handle) -> bool)
    requires es'.Keys == es.Keys
    requires forall e :: e in es ==> FlagOnly(es[e], es'[e]) && (es'[e] == es[e] || (e in ids && GroundedQuery(es[e])))
    ensures UpdateGrounded(es', ids, contact) == UpdateGrounded(es, ids, contact)
  {
    var r, r' := UpdateGrounded(es, ids, contact), UpdateGrounded(es', ids, contact);
    forall e | e in es
      ensures r'[e] == r[e]
    {
      var c, c' := es[e], es'[e];
      assert GroundedQuery(c') == GroundedQuery(c);
      if e in ids && GroundedQuery(c) {
        var y, h := c.position.value.y, c.colliderHandle.value;
        NonPlayersAgree(es, es', ids, y, h, contact);
        var g := Grounded(es, ids, y, h, contact);
        assert c'.player.value.(isGrounded := g) == c.player.value.(isGrounded := g);
        assert SetGrounded(c', g) == SetGrounded(c, g);
      }
    }
  }

  /** Running the grounded update twice is running it once. */
  lemma UpdateGroundedIdempotent(es: map<Entity, Components>, ids: seq<Entity>, contact: (Handle, Handle) -> bool)
    ensures UpdateGrounded(UpdateGrounded(es, ids, contact), ids, contact) == UpdateGrounded(es, ids, contact)
  {
    var r := UpdateGrounded(es, ids, contact);
    GroundedIgnoresFlags(es, r, ids, contact);
    var rr := UpdateGrounded(r, ids, contact);
    forall e | e in es
      ensures rr[e] == r[e]
    {
      var c := es[e];
      if e in ids && GroundedQuery(c) {
        assert rr[e] == SetGrounded(r[e], Grounded(es, ids, c.position.value.y, c.colliderHandle.value, contact));
      }
    }
  }

  // ------------------------------------------------------------ level advance

  /** Matched by the star query of `player_on_collide_with_star`. */
  predicate StarQuery(c: Components) {
    c.star && c.colliderHandle.Some?
  }

  /** Matched by the player query of `player_on_collide_with_star`. */
  predicate PlayerColliderQuery(c: Components) {
    c.player.Some? && c.colliderHandle.Some?
  }

  /** Some star of `ids` intersects the collider `h`. */
  predicate TouchesStar(es: map<Entity, Components>, ids: seq<Entity>, h: Handle, intersect: (Handle, Handle) -> bool) {
    exists i :: 0 <= i < |ids| && ids[i] in es && StarQuery(es[ids[i]]) && intersect(h, es[ids[i]].colliderHandle.value)
  }

  /** The inner loop of `player_on_collide_with_star`, up to its `break`. */
  method FindStar(es: map<Entity, Components>, ids: seq<Entity>, h: Handle, intersect: (Handle, Handle) -> bool)
    returns (hit: bool)
    ensures hit <==> exists i :: 0 <= i < |ids| && ids[i] in es && StarQuery(es[ids[i]]) && intersect(h, es[ids[i]].colliderHandle.value)
  {
    hit := false;
    var i := 0;
    while i < |ids|
      invariant 0 <= i <= |ids|
      invariant !hit
      invariant forall j :: 0 <= j < i ==> !(ids[j] in es && StarQuery(es[ids[j]]) && intersect(h, es[ids[j]].colliderHandle.value))
    {
      if ids[i] in es && StarQuery(es[ids[i]]) && intersect(h, es[ids[i]].colliderHandle.value) {
        hit := true;
        break;
      }
      i := i + 1;
    }
  }

  /** How many times `player_on_collide_with_star` advances the level: once
      for each player of `players` that touches some star of `ids`. */
  function StarHits(es: map<Entity, Components>, players: seq<Entity>, ids: seq<Entity>, intersect: (Handle, Handle) -> bool): (n: nat)
    decreases |players|
    ensures n <= |players|
  {
    if players == [] then 0
    else
      var last := players[|players| - 1];
      StarHits(es, players[..|players| - 1], ids, intersect) +
        if last in es && PlayerColliderQuery(es[last]) && TouchesStar(es, ids, es[last].colliderHandle.value, intersect) then 1 else 0
  }

  /** One more visited entity adds its own hit to the count. */
  lemma StarHitsSnoc(es: map<Entity, Components>, players: seq<Entity>, ids: seq<Entity>, intersect: (Handle, Handle) -> bool, i: nat)
    requires i < |players|
    ensures StarHits(es, players[..i + 1], ids, intersect) == StarHits(es, players[..i], ids, intersect) +
              if players[i] in es && PlayerColliderQuery(es[players[i]]) && TouchesStar(es, ids, es[players[i]].colliderHandle.value, intersect) then 1 else 0
  {
    assert players[..i + 1][..i] == players[..i];
  }

  /** The number of players of `players` the query visits. */
  function PlayerCount(es: map<Entity, Components>, players: seq<Entity>): nat
    decreases |players|
  {
    if players == [] then 0
    else
      var last := players[|players| - 1];
      PlayerCount(es, players[..|players| - 1]) + if last in es && PlayerColliderQuery(es[last]) then 1 else 0
  }

  /** The `break` bounds the advance: at most one level per player per tick. */
  lemma {:induction false} StarHitsAtMostPlayers(es: map<Entity, Components>, players: seq<Entity>, ids: seq<Entity>, intersect: (Handle, Handle) -> bool)
    ensures StarHits(es, players, ids, intersect) <= PlayerCount(es, players)
  {
    if players != [] {
      StarHitsAtMostPlayers(es, players[..|players| - 1], ids, intersect);
    }
  }

  /** With a single player the level advances by exactly one when that player
      touches a star, and not at all otherwise. */
  lemma {:induction false} SinglePlayerAdvance(es: map<Entity, Components>, players: seq<Entity>, ids: seq<Entity>,
                                               intersect: (Handle, Handle) -> bool, player: Entity)
    requires Distinct(players)
    requires forall e :: e in players && e in es && PlayerColliderQuery(es[e]) ==> e == player
    requires player in es && PlayerColliderQuery(es[player])
    ensures StarHits(es, players, ids, intersect) ==
              if player in players && TouchesStar(es, ids, es[player].colliderHandle.value, intersect) then 1 else 0
  {
    if players != [] {
      DistinctPrefix(players);
      SinglePlayerAdvance(es, players[..|players| - 1], ids, intersect, player);
    }
  }

  // ------------------------------------------------------------------ camera

  datatype Rect = Rect(x: real, y: real, w: real, h: real)

  /** The `Camera` resource: the default camera, or one that displays a rect. */
  datatype Camera = DefaultCamera | DisplayRect(rect: Rect)

  /** Matched by the query of `sync_camera`. */
  predicate CameraQuery(c: Components) {
    c.player.Some? && c.position.Some? && c.shape.Some?
  }

  /** The index in `ids` of the first entity the camera query yields, or `|ids|`. */
  function FirstPlayer(es: map<Entity, Components>, ids: seq<Entity>): (i: nat)
    ensures i <= |ids|
    ensures i < |ids| ==> ids[i] in es && CameraQuery(es[ids[i]])
    ensures forall j :: 0 <= j < i ==> !(ids[j] in es && CameraQuery(es[ids[j]]))
  {
    if ids == [] then 0
    else if ids[0] in es && CameraQuery(es[ids[0]]) then 0
    else 1 + FirstPlayer(es, ids[1..])
  }

  /** The horizontal scroll for a player whose centre is at `centreX`: the
      least non-negative offset that keeps the centre at or left of the middle
      of the screen. */
  function CameraOffset(centreX: real, screenWidth: real): (x: real)
    ensures x >= 0.0 && x >= centreX - screenWidth / 2.0
    ensures x == 0.0 || x == centreX - screenWidth / 2.0
  {
    if centreX > screenWidth / 2.0 then centreX - screenWidth / 2.0 else 0.0
  }

  /** `sync_camera`.  The camera follows the first player's centre, and is
      left as it was when there is no player or when following would show
      past the end of the level.  A camera it moves starts at or right of 0
      and, unless it starts at 0, ends before the level does. */
  function SyncCamera(camera: Camera, level: Level, es: map<Entity, Components>, ids: seq<Entity>,
                      screenWidth: real, screenHeight: real): (c: Camera)
    ensures FirstPlayer(es, ids) == |ids| ==> c == camera
    ensures var i := FirstPlayer(es, ids);
            i < |ids| ==>
              var centre := Centre(es[ids[i]].position.value, es[ids[i]].shape.value);
              if centre.x + screenWidth / 2.0 < level.length
              then c == DisplayRect(Rect(CameraOffset(centre.x, screenWidth), 0.0, screenWidth, screenHeight))
              else c == camera
    ensures c != camera ==> c.DisplayRect? && c.rect.x >= 0.0 &&
                            (c.rect.x == 0.0 || c.rect.x + screenWidth < level.length)
  {
    var i := FirstPlayer(es, ids);
    if i == |ids| then camera
    else
      var c := es[ids[i]];
      var centre := Centre(c.position.value, c.shape.value);
      var x := CameraOffset(centre.x, screenWidth);
      if centre.x + screenWidth / 2.0 < level.length then
        DisplayRect(Rect(x, 0.0, screenWidth, screenHeight))
      else
        camera
  }

  // ----------------------------------------------------------------- removal

  /** A call `remove_physics` makes into the engine. */
  datatype Removal = RemoveColliderOp(handle: Handle) | RemoveBodyOp(handle: Handle)

  /** The calls `remove_physics` makes for one entity: its collider, if it
      holds one, and then its body, if it holds one. */
  function EntityRemovals(c: Components): (ops: seq<Removal>)
    ensures |ops| <= 2
    ensures forall h: Handle :: RemoveColliderOp(h) in ops <==> c.colliderHandle == Some(h)
    ensures forall h: Handle :: RemoveBodyOp(h) in ops <==> c.bodyHandle == Some(h)
    ensures |ops| == 2 ==> ops[0].RemoveColliderOp? && ops[1].RemoveBodyOp?
  {
    (if c.colliderHandle.Some? then [RemoveColliderOp(c.colliderHandle.value)] else []) +
    (if c.bodyHandle.Some? then [RemoveBodyOp(c.bodyHandle.value)] else [])
  }

  /** Every call `remove_physics` makes, entity by entity in query order; it
      names every handle an entity of `ids` holds. */
  function RemovalPlan(es: map<Entity, Components>, ids: seq<Entity>): (ops: seq<Removal>)
    decreases |ids|
    ensures forall e :: e in ids && e in es && es[e].colliderHandle.Some? ==> RemoveColliderOp(es[e].colliderHandle.value) in ops
    ensures forall e :: e in ids && e in es && es[e].bodyHandle.Some? ==> RemoveBodyOp(es[e].bodyHandle.value) in ops
  {
    if ids == [] then []
    else
      var last := ids[|ids| - 1];
      RemovalPlan(es, ids[..|ids| - 1]) + if last in es then EntityRemovals(es[last]) else []
  }

  lemma RemovalPlanSnoc(es: map<Entity, Components>, ids: seq<Entity>, i: nat)
    requires i < |ids|
    ensures RemovalPlan(es, ids[..i + 1]) ==
              RemovalPlan(es, ids[..i]) + if ids[i] in es then EntityRemovals(es[ids[i]]) else []
  {
    assert ids[..i + 1][..i] == ids[..i];
  }

  function ApplyRemoval(s: Snapshot, op: Removal): Snapshot {
    match op
    case RemoveColliderOp(h) => RemoveCollider(s, h)
    case RemoveBodyOp(h) => RemoveBody(s, h)
  }

  /** The engine after the calls `ops`: every handle they name is gone, no
      object appears or changes, and no collider is left naming a freed body. */
  function ApplyRemovals(s: Snapshot, ops: seq<Removal>): (r: Snapshot)
    decreases |ops|
    ensures r.entities == s.entities && r.nextCollider == s.nextCollider && r.nextBody == s.nextBody
    ensures r.colliders.Keys <= s.colliders.Keys && r.bodies.Keys <= s.bodies.Keys
    ensures forall op :: op in ops ==> (op.RemoveColliderOp? ==> op.handle !in r.colliders) &&
                                       (op.RemoveBodyOp? ==> op.handle !in r.bodies)
    ensures ParentsLive(s) ==> ParentsLive(r)
  {
    if ops == [] then s
    else
      var m := ApplyRemovals(s, ops[..|ops| - 1]);
      assert forall op :: op in ops ==> op in ops[..|ops| - 1] || op == ops[|ops| - 1];
      ApplyRemoval(m, ops[|ops| - 1])
  }

  /** After `remove_physics` no handle any entity of `ids` holds names a live
      collider or body. */
  lemma RemovePhysicsReleases(s: Snapshot, ids: seq<Entity>, e: Entity)
    requires e in ids && e in s.entities
    ensures var r := ApplyRemovals(s, RemovalPlan(s.entities, ids));
            && (s.entities[e].colliderHandle.Some? ==> s.entities[e].colliderHandle.value !in r.colliders)
            && (s.entities[e].bodyHandle.Some? ==> s.entities[e].bodyHandle.value !in r.bodies)
  {
    var ops := RemovalPlan(s.entities, ids);
    var c := s.entities[e];
    if c.colliderHandle.Some? {
      assert RemoveColliderOp(c.colliderHandle.value) in ops;
    }
    if c.bodyHandle.Some? {
      assert RemoveBodyOp(c.bodyHandle.value) in ops;
    }
  }

  // ---------------------------------------------------------------- bundles

  /** A freshly spawned physics entity: a Position just added, a Shape, a
      pending body and a pending collider built for that shape, no handles. */
  ghost predicate Spawnable(c: Components) {
    && PendingBody(c) && c.changed
    && c.colliderDesc.Some? && c.colliderDesc.value.geometry == SimGeometry(c.shape.value)
    && c.colliderHandle.None? && c.bodyHandle.None?
  }

  /** The entity `setup_player` spawns. */
  function PlayerBundle(): (c: Components)
    ensures Spawnable(c) && c.bodyDesc == Some(Dynamic)
    ensures c.player == Some(Player(2.0, 5.0, false)) && !c.star && !c.platform
    ensures c.position == Some(Vec2(50.0, 32.0)) && c.shape == Some(Cuboid(Vec2(32.0, 32.0)))
    ensures c.colliderDesc.value.friction == Some(0.0) && c.colliderDesc.value.restitution == Some(0.0)
    ensures !c.colliderDesc.value.sensor
  {
    var b := CuboidBuilder(Vec2(32.0, 32.0)).WithFriction(0.0).WithRestitution(0.0);
    Empty.(player := Some(Player(2.0, 5.0, false)), position := Some(Vec2(50.0, 32.0)), changed := true,
           bodyDesc := Some(Dynamic), colliderDesc := Some(b.collider), shape := Some(b.shape))
  }

  /** `PlatformBundle::new`: a fixed cuboid of the rect's size at its top-left
      corner, without friction or bounce. */
  function PlatformBundle(rect: Rect): (c: Components)
    ensures Spawnable(c) && c.bodyDesc == Some(Fixed)
    ensures c.platform && !c.star && c.player.None?
    ensures c.position == Some(Vec2(rect.x, rect.y)) && c.shape == Some(Cuboid(Vec2(rect.w, rect.h)))
    ensures c.colliderDesc.value.friction == Some(0.0) && c.colliderDesc.value.restitution == Some(0.0)
    ensures !c.colliderDesc.value.sensor
  {
    var b := CuboidBuilder(Vec2(rect.w, rect.h)).WithFriction(0.0).WithRestitution(0.0);
    Empty.(platform := true, position := Some(Vec2(rect.x, rect.y)), changed := true,
           bodyDesc := Some(Fixed), colliderDesc := Some(b.collider), shape := Some(b.shape))
  }

  /** `StarBundle::new`: a fixed sensor ball of radius 17.5 centred at `pos`. */
  function StarBundle(pos: Vec2): (c: Components)
    ensures Spawnable(c) && c.bodyDesc == Some(Fixed)
    ensures c.star && !c.platform && c.player.None?
    ensures c.position == Some(pos) && c.shape == Some(Ball(17.5))
    ensures c.colliderDesc.value.sensor
  {
    var b := BallBuilder(17.5).WithAsSensor();
    Empty.(star := true, position := Some(pos), changed := true,
           bodyDesc := Some(Fixed), colliderDesc := Some(b.collider), shape := Some(b.shape))
  }

  function Platforms(rects: seq<Rect>): (r: seq<Components>)
    ensures |r| == |rects| && forall i :: 0 <= i < |rects| ==> r[i] == PlatformBundle(rects[i])
  {
    seq(|rects|, i requires 0 <= i < |rects| => PlatformBundle(rects[i]))
  }

  /** What `setup_level` spawns, in order, and the level it leaves behind. */
  datatype LevelSetup = LevelSetup(spawns: seq<Components>, level: Level)

  /** `setup_level` for a screen of the given size.  Level 1 is walled by four
      platforms, has one ledge and its star near the bottom right; level 2 is
      half as wide again and has three ledges.  Any other level spawns nothing. */
  function SetupLevel(level: Level, sw: real, sh: real): (r: LevelSetup)
    ensures level.id == 1 ==>
              && |r.spawns| == 6 && (forall i :: 0 <= i < 5 ==> r.spawns[i].platform)
              && r.spawns[5].star && r.spawns[5].position == Some(Vec2(sw - 64.0, sh - 96.0))
              && r.level == level.(length := sw)
    ensures level.id == 2 ==>
              && |r.spawns| == 8 && (forall i :: 0 <= i < 7 ==> r.spawns[i].platform)
              && r.spawns[7].star && r.level == level.(length := sw * 1.5)
    ensures level.id != 1 && level.id != 2 ==> r.spawns == [] && r.level == level
    ensures forall i :: 0 <= i < |r.spawns| ==> Spawnable(r.spawns[i]) && r.spawns[i].bodyDesc == Some(Fixed)
  {
    match level.id
    case 1 =>
      LevelSetup(
        Platforms([
          Rect(0.0, sh - 32.0, sw, 32.0),
          Rect(0.0, 0.0, 32.0, sh),
          Rect(0.0, 0.0, sw, 32.0),
          Rect(sw - 32.0, 0.0, 32.0, sh),
          Rect(sw - 232.0, sh - 64.0, 200.0, 32.0)]) +
        [StarBundle(Vec2(sw - 64.0, sh - 96.0))],
        level.(length := sw))
    case 2 =>
      LevelSetup(
        Platforms([
          Rect(0.0, sh - 32.0, sw * 1.5, 32.0),
          Rect(0.0, 0.0, 32.0, sh),
          Rect(0.0, 0.0, sw * 1.5, 32.0),
          Rect(sw * 1.5 - 32.0, 0.0, 32.0, sh),
          Rect(sw * 1.5 / 2.0 - 450.0, sh / 2.0 + 150.0, 200.0, 32.0),
          Rect(sw * 1.5 / 2.0 - 100.0, sh / 2.0 + 100.0, 200.0, 32.0),
          Rect(sw * 1.5 / 2.0 + 250.0, sh / 2.0 + 50.0, 200.0, 32.0)]) +
        [StarBundle(Vec2(sw * 1.5 / 2.0 + 350.0, sh / 2.0 - 64.0))],
        level.(length := sw * 1.5))
    case _ =>
      LevelSetup([], level)
  }
}
