# Stlar: the physics glue and the gameplay rules, in Dafny

Stlar is a small 2D platformer. It is glued together from an entity-component
store (bevy_ecs), a rigid-body engine (rapier2d) and a window/drawing library
(macroquad). This project models the code the repository writes itself:

- **Geometry** (`geometry.dfy`). Gameplay space and simulation space.
  - Gameplay space is in pixels and anchors a cuboid at its top-left corner.
  - Simulation space is in metres and anchors every shape at its centre, at 100 pixels per metre.
  - The forward conversion (`macroquad_to_rapier2d`) and the read-back in `sync_pos` are exact inverses over the reals.
- **Ecs** (`ecs.dfy`). The entity store and the engine's object tables, as values.
  - The entity store maps each entity to the record of its components.
  - The collider set and the rigid-body set map handles to objects.
  - Handles are drawn from counters.
- **Physics** (`physics.dfy`). The systems of the physics plugin, as functions of a snapshot over the query order:
  - binding of pending colliders and bodies (`add_colliders`, `add_rigid_bodies`);
  - the position synchroniser (`sync_pos`);
  - the two removal calls;
  - the stage schedule;
  - a whole physics frame.
- **Game** (`game.dfy`). The gameplay rules:
  - the velocity rule and the grounded test;
  - the level advance on touching a star;
  - the camera clamp;
  - the collider-then-body removal plan;
  - the three spawn bundles and the per-level spawn lists.
- **App** (`world.dfy`). The running world as a `class World`. Its fields are the entity store, the engine's sets, the counters and the game's resources.
  - Every system is a method that walks the query order with a loop, as the source does.
  - Each method is proved to leave the state given by its specification function.

Two behaviours are worth knowing:

- **Binding is idempotent, and so is synchronisation.** A second pass of either changes nothing (`BindOnce`, `SyncPosIdempotent`). The pull path of `sync_pos` bypasses change detection, so a value it writes is never pushed back.
- **The first frame of a spawned entity discards that frame's step.** Its Position was just added, so it counts as changed. The synchroniser therefore pushes the spawn position over whatever the step did to the new body (`FirstFrameKeepsSpawnPosition`).

## Model

| member | source | states |
|---|---|---|
| `Geometry.ToSim` | src/physics.rs:14-23 | The simulation translation, scaled back to pixels, is the shape's anchor: the cuboid's centre (top-left plus half the size) or the ball's position |
| `Geometry.FromSim` | src/physics.rs:254-259 | The read-back position has the scaled translation as its anchor point |
| `Geometry.PushThenPull` | src/physics.rs:249-259 | Pushing a Position into the simulation and reading it back returns the same Position |
| `Geometry.PullThenPush` | src/physics.rs:249-259 | Reading a translation back and pushing it again returns the same translation |
| `Physics.SimGeometry` | src/physics.rs:146-164 | A ball stays a ball and a cuboid a cuboid; radius times 100 is the pixel radius; half-extents times 200 are the pixel size |
| `Physics.ColliderBuilder.WithAsSensor` | src/physics.rs:166-169 | The collider becomes a sensor and nothing else about the builder changes |
| `Physics.ColliderBuilder.WithFriction` | src/physics.rs:171-174 | The friction becomes the given coefficient and nothing else about the builder changes |
| `Physics.ColliderBuilder.WithRestitution` | src/physics.rs:176-179 | The restitution becomes the given coefficient and nothing else about the builder changes |
| `Physics.BallBuilder` | src/physics.rs:146-151 | The Shape is the pixel ball. The engine's ball has the pixel radius in metres. No coefficient is set and the collider is solid |
| `Physics.CuboidBuilder` | src/physics.rs:153-164 | The Shape is the pixel cuboid. The engine's cuboid has half-extents that, doubled and scaled to pixels, give the size. No coefficient is set and the collider is solid |
| `Physics.AddColliders` | src/physics.rs:200-212 | Leaves the bodies, the body counter and the entity set alone, and never moves the collider counter back |
| `Physics.AddCollider` | src/physics.rs:205-211 | One iteration leaves the bodies, the body counter and the entity set alone. A matched entity advances the collider counter by one |
| `Physics.AddCollidersFrame` | src/physics.rs:200-212 | Every collider it adds has a handle from the counter. Entities outside the query order are unchanged. With fresh counters the counters stay fresh and every existing collider and body is kept. No collider is left with a dead parent |
| `Physics.AddColliderFrame` | src/physics.rs:205-211 | The same for one iteration: new handles come from the counter, and no other entity changes |
| `Physics.AddCollidersBinds` | src/physics.rs:205-211 | Each pending collider-only entity gets one new collider at the converted translation, without parent. It gets a handle to that collider and loses its descriptor. Any other entity is untouched |
| `Physics.AddCollidersCount` | src/physics.rs:205-211 | The collider set and its counter grow by exactly the number of pending collider-only entities |
| `Physics.AddRigidBodies` | src/physics.rs:214-232 | Leaves the entity set alone and never moves a counter back |
| `Physics.AddRigidBody` | src/physics.rs:220-231 | One iteration keeps the entity set. A matched entity advances the body counter by one, and the collider counter by one exactly when it also waits for a collider |
| `Physics.AddRigidBodiesFrame` | src/physics.rs:214-232 | Every body and collider it adds has a handle from its counter. Entities outside the query order are unchanged. With fresh counters the counters stay fresh, every existing object is kept and parents stay live |
| `Physics.AddRigidBodyFrame` | src/physics.rs:220-231 | The same for one iteration: new handles come from the counters, and no other entity changes |
| `Physics.AddRigidBodiesBinds` | src/physics.rs:220-231 | A pending-body entity gets a new body at the converted translation with zero velocity. Its body handle names that body, not the collider. A pending collider is inserted with that body as parent and the entity's collider handle names it. Both descriptors are gone. Other entities are untouched |
| `Physics.AddRigidBodiesCount` | src/physics.rs:220-231 | The body set grows by exactly the number of pending-body entities |
| `Physics.BindLeavesNonePending` | src/physics.rs:200-232 | After binding, no entity of the query order is still pending |
| `Physics.AddCollidersNoop` | src/physics.rs:203-210 | With nothing pending, `add_colliders` changes nothing |
| `Physics.AddRigidBodiesNoop` | src/physics.rs:218-230 | With nothing pending, `add_rigid_bodies` changes nothing |
| `Physics.BindOnce` | src/physics.rs:200-232 | Binding twice is binding once |
| `Physics.Bind` | src/physics.rs:303-307 | The Initialize stage keeps the entity set and never moves a counter back |
| `Physics.SyncPos` | src/physics.rs:242-262 | Keeps every body handle live, the collider set, the counters, the set of bodies and the set of entities. Every entity keeps its body handle, its Shape and whether it is matched. Entities outside the query order are unchanged |
| `Physics.SyncPosKeepsMotion` | src/physics.rs:242-262 | No body's kind or velocity changes: of a body only the translation can |
| `Physics.SyncPosTouchesOnlyPositions` | src/physics.rs:242-262 | No component of an entity changes except its Position and its change flag |
| `Physics.SyncEntityKeepsMotion` | src/physics.rs:246-261 | One visit changes no body's kind or velocity |
| `Physics.SyncEntityTouchesOnlyPositions` | src/physics.rs:246-261 | One visit changes no component of any entity except its Position and its change flag |
| `Physics.SyncEntity` | src/physics.rs:246-261 | One visit keeps every handle live, the collider set, the counters, the body and entity sets, and every entity's body handle, shape and match. Other entities are unchanged |
| `Physics.SyncEntityKeeps` | src/physics.rs:246-261 | One visit leaves another entity, and a body the visited entity does not hold, as they were |
| `Physics.SyncPosUntouched` | src/physics.rs:246-261 | A body no visited entity holds is left as it was |
| `Physics.SyncPosEffect` | src/physics.rs:246-261 | Exactly one direction per entity. A changed Position is pushed into the body and itself kept. An unchanged one is overwritten by the read-back of the body, which is kept. Either way the flag ends lowered |
| `Physics.SyncPosSettles` | src/physics.rs:249-259 | Afterwards every visited Position is unchanged and equals the read-back of its body |
| `Physics.SettledSyncNoop` | src/physics.rs:249-259 | On a settled world the synchroniser changes nothing |
| `Physics.SyncPosIdempotent` | src/physics.rs:252-259 | A value the synchroniser wrote is not pushed back: a second run changes nothing |
| `Physics.SyncPosKeepsBinding` | src/physics.rs:242-262 | The synchroniser changes no entity's descriptors or handles |
| `Physics.RemoveCollider` | src/physics.rs:65-67 | The collider leaves the set and nothing else does. A handle already gone is a no-op. Parents stay live |
| `Physics.RemoveBody` | src/physics.rs:69-71 | The body leaves the set together with exactly the colliders attached to it. Nothing else changes, and no collider is left naming the freed body |
| `Physics.AddStageBeforePlaces` | src/physics.rs:293-307 | `add_stage_before` puts the new stage immediately before the target. The stages before the target keep their places, those from the target on move up by one, and no other stage is added |
| `Physics.SpliceBefore` | src/physics.rs:293-307 | A stage added before the stage that follows a prefix lands right after that prefix |
| `Physics.RapierStagesBeforeUpdate` | src/physics.rs:293-307 | On any schedule that has Update and none of the plugin's stages, the plugin puts Initialize, Step and Sync, in that order, immediately before Update, and every core stage keeps its order |
| `Physics.AddRapierStages` | src/physics.rs:293-307 | On a schedule with Update and none of the plugin's stages, the plugin adds exactly three stages, Initialize, Step and Sync, and keeps Update |
| `Physics.RapierSchedule` | src/main.rs:17-31 | `main` adds the core stage Update and then Render after it, and then the physics plugin (src/physics.rs:293-307). The frame schedule is Initialize, Step, Sync, Update, Render |
| `Physics.StepBodies` | src/physics.rs:234-240 | The step moves bodies only: entities, colliders and the set of bodies stay |
| `Physics.BindKeepsBodiesLive` | src/physics.rs:214-247 | After binding, every body handle the synchroniser unwraps names a live body, the counters are still fresh and no collider names a dead parent |
| `Physics.PhysicsFrame` | src/physics.rs:293-307 | A frame's physics stages keep the entity set, live handles, fresh counters and live parents |
| `Physics.PhysicsFrameBinds` | src/physics.rs:293-307 | Binding precedes the step: by the end of the frame every entity that was waiting for a body, and its collider, holds live handles and no descriptor |
| `Physics.FirstFrameKeepsSpawnPosition` | src/physics.rs:249-250 | A spawned entity ends its first frame at its spawn Position, unflagged, with its body at the converted spawn position, whatever the step did |
| `Physics.FrameKeepsHandlesSynced` | src/physics.rs:214-262 | If every entity holding a body handle has a Position and a Shape, the same holds after a physics frame |
| `Game.Velocity` | src/game.rs:162-173 | Horizontal velocity is speed times (right minus left), so -speed, 0 or speed. Vertical velocity is -jump exactly when jump was pressed and the player is grounded, and otherwise kept |
| `Game.MovedBodiesLive` | src/physics.rs:109-111 | Where every body handle is live for the synchroniser and every entity holding one has a Position and a Shape, every lookup of `move_player` finds its body |
| `Game.MoveOne` | src/game.rs:167-175 | One iteration keeps the set of bodies and every body's kind and translation |
| `Game.MovePlayers` | src/game.rs:161-176 | Only velocities change: the set of bodies, their kinds and their translations stay |
| `Game.MovePlayersUntouched` | src/game.rs:167-175 | A body no player holds keeps its velocity |
| `Game.MovePlayersEffect` | src/game.rs:167-175 | Each player's body gets the velocity of the rule, computed from its velocity before the system |
| `Game.FindSupport` | src/game.rs:184-192 | The flag is true exactly when some non-player collider is in active contact with the player and lies strictly below the player's y |
| `Game.UpdateGrounded` | src/game.rs:182-193 | The entity set stays, and each entity changes at most in its player's grounded flag |
| `Game.NonPlayersAgree` | src/game.rs:181-187 | Writing players' flags does not change the grounded search, since supports are never players |
| `Game.GroundedIgnoresFlags` | src/game.rs:182-193 | The flags the visited players held before do not matter: two stores that differ only in them are updated to the same store |
| `Game.UpdateGroundedIdempotent` | src/game.rs:182-193 | Running the grounded update twice is running it once |
| `Game.FindStar` | src/game.rs:204-209 | The search hits exactly when some star intersects the player's collider |
| `Game.StarHits` | src/game.rs:203-210 | The count never exceeds the number of players visited |
| `Game.StarHitsAtMostPlayers` | src/game.rs:203-210 | Because of the break, the level advances at most once per player per tick |
| `Game.SinglePlayerAdvance` | src/game.rs:203-210 | With one player, the level advances by exactly 1 if that player touches a star and by 0 otherwise |
| `Game.StarHitsSnoc` | src/game.rs:203-210 | One more visited player adds its own hit, 1 or 0, to the count |
| `Game.FirstPlayer` | src/game.rs:219 | The camera follows the first entity of the query order that has a Player, a Position and a Shape |
| `Game.CameraOffset` | src/game.rs:225-229 | The offset is never negative and never lets the centre pass the middle of the screen. It is either 0 or centre.x minus half the screen |
| `Game.SyncCamera` | src/game.rs:214-236 | The camera is left as it was with no player, or when centre.x plus half the screen reaches the level's length. Otherwise it displays the screen rect at the offset. A moved camera starts at or right of 0 and, unless at 0, ends before the level does |
| `Game.EntityRemovals` | src/game.rs:254-261 | One entity's calls name exactly the handles it holds, its collider before its body |
| `Game.RemovalPlan` | src/game.rs:248-262 | The plan names every collider handle and every body handle that any entity holds |
| `Game.ApplyRemovals` | src/game.rs:248-262 | After the calls every named handle is gone, nothing is added, the entities stay and parents stay live |
| `Game.RemovalPlanSnoc` | src/game.rs:254-261 | The plan for one more entity is the plan so far followed by that entity's calls |
| `Game.RemovePhysicsReleases` | src/game.rs:248-262 | After `remove_physics` no handle that any entity held names a live collider or body |
| `Game.PlayerBundle` | src/game.rs:75-81 | The player is a dynamic body with a 32 by 32 cuboid at (50, 32), no friction, no bounce, speed 2, jump 5, not grounded |
| `Game.PlatformBundle` | src/game.rs:64-73 | A platform is a fixed body with a cuboid of the rect's size at its top-left corner, friction 0 and restitution 0 |
| `Game.StarBundle` | src/game.rs:41-50 | A star is a fixed body with a sensor ball of radius 17.5 at the given position |
| `Game.SetupLevel` | src/game.rs:83-159 | Level 1 spawns 5 platforms then a star at (sw - 64, sh - 96) and sets the length to sw. Level 2 spawns 7 platforms then a star and sets the length to 1.5 sw. Any other level spawns nothing and keeps its length. Every spawn is a fixed, pending, flagged physics entity |
| `App.World.constructor` | src/game.rs:271-273 | The world starts empty, with the default camera and at level 1 as long as the screen is wide. No entity holds a dead body handle |
| `App.World.Spawn` | src/game.rs:76-80 | A spawn adds one new entity, visited after all others, and keeps the world's invariant |
| `App.World.SpawnAll` | src/game.rs:86-108 | The spawns queued on `Commands` are applied together when the stage ends. The world gains exactly the bundles, in order, under the next fresh ids, visited after every existing entity. Old entities are kept and the invariant holds |
| `App.World.DespawnAll` | src/game.rs:264-268 | Every entity is despawned. No entity is left holding a dead body handle |
| `App.World.BindCollider` | src/physics.rs:205-211 | One loop iteration of `add_colliders` |
| `App.World.BindColliders` | src/physics.rs:205-211 | The loop leaves the state `Physics.AddColliders` describes |
| `App.World.AddColliders` | src/physics.rs:200-212 | `add_colliders` leaves the state `Physics.AddColliders` describes and keeps the invariant |
| `App.World.BindBody` | src/physics.rs:220-231 | One loop iteration of `add_rigid_bodies` |
| `App.World.BindBodies` | src/physics.rs:220-231 | The loop leaves the state `Physics.AddRigidBodies` describes |
| `App.World.AddRigidBodies` | src/physics.rs:214-232 | `add_rigid_bodies` leaves the state `Physics.AddRigidBodies` describes and keeps the invariant |
| `App.World.Initialize` | src/physics.rs:305-307 | The Initialize stage, `add_colliders` then `add_rigid_bodies`, leaves `Physics.Bind` of the query order. It keeps the invariant and every body handle live |
| `App.World.WorldStep` | src/physics.rs:234-240 | The bodies become the step's result |
| `App.World.SyncOne` | src/physics.rs:246-261 | One loop iteration of `sync_pos` leaves `Physics.SyncEntity` |
| `App.World.SyncEach` | src/physics.rs:246-261 | The loop leaves the state `Physics.SyncPos` describes |
| `App.World.SyncPos` | src/physics.rs:242-262 | `sync_pos` leaves the state `Physics.SyncPos` describes and keeps the invariant |
| `App.World.PhysicsStages` | src/physics.rs:293-307 | Bind, step and sync in schedule order leave `Physics.PhysicsFrame` and keep every handle live |
| `App.World.RemoveCollider` | src/physics.rs:65-67 | The collider set loses the handle |
| `App.World.RemoveRigidBody` | src/physics.rs:69-71 | The body and its attached colliders go |
| `App.World.MoveEach` | src/game.rs:167-175 | The loop leaves the bodies `Game.MovePlayers` describes |
| `App.World.MovePlayer` | src/game.rs:161-176 | `move_player` leaves the bodies `Game.MovePlayers` describes and keeps the invariant. Every body handle that was live stays live |
| `App.World.GroundEach` | src/game.rs:182-193 | The loop leaves the store `Game.UpdateGrounded` describes: every visited player ends grounded exactly when some collider supports it, whatever its flag was before |
| `App.World.UpdatePlayerIsGrounded` | src/game.rs:178-194 | Every player ends grounded exactly when some collider supports it, whatever its flag was before. Nothing else changes and the invariant is kept. Every body handle that was live stays live |
| `App.World.GroundOne` | src/game.rs:182-193 | One pass of the outer loop sets one more player's flag as the specification describes |
| `App.World.PlayerOnCollideWithStar` | src/game.rs:196-212 | The level id grows by the number of players touching a star, and a restart is requested exactly when that number is positive. Every body handle that was live stays live |
| `App.World.SyncCamera` | src/game.rs:214-236 | The camera becomes `Game.SyncCamera` of the world. Every body handle that was live stays live |
| `App.World.RemoveEntityPhysics` | src/game.rs:254-261 | One entity's collider and then its body are removed |
| `App.World.RemoveOne` | src/game.rs:254-261 | One pass of the loop applies one more entity's part of the removal plan |
| `App.World.RemovePhysics` | src/game.rs:248-262 | The sets become those of the removal plan applied in order, and the invariant is kept |
| `App.World.SetupPlayer` | src/game.rs:75-81 | Adds the player bundle as a new entity |
| `App.World.SetupLevel` | src/game.rs:83-159 | The world gains exactly the level's spawn list, in order, under the next fresh ids, and the level becomes the one the list gives |
| `App.World.Exit` | src/game.rs:290-293 | On leaving the state no entity is left, no handle any entity held names a live object, and the restart request is consumed. No entity is left holding a dead body handle |
| `App.World.Enter` | src/game.rs:278-281 | On entering the state the world gains the player bundle under the next id, then the level's spawn list under the ids after it, visited in that order. The level is set as the list gives. Every body handle that was live stays live |
| `App.GroundedUpToStep` | src/game.rs:182-193 | Clearing a player's flag does not change its own search, and setting it to the search's result takes the specification one player further |
| `App.SpawnMapContents` | src/game.rs:86-108 | The spawned entities are exactly the next `n` ids, and the `k`-th of them holds the `k`-th bundle |
| `App.AppendRange` | src/game.rs:86-108 | Appending ids above all existing ones keeps the query order free of duplicates and adds exactly those ids |
| `App.SpawnKeepsWf` | src/game.rs:86-108 | Spawning fresh entities, visited after every existing one, keeps the world well formed |
| `App.LevelSpawnsUnbound` | src/game.rs:83-159 | No bundle a level spawns holds a body handle |
| `App.EnterKeepsBodiesLive` | src/game.rs:278-281 | Spawning the player and then bundles without body handles keeps every handle the synchroniser looks up live |
| `App.MovePlayersKeepsBodiesLive` | src/game.rs:161-176 | `move_player` writes velocities only, so every body handle stays live |
| `App.GroundedKeepsBodiesLive` | src/game.rs:178-194 | `update_player_is_grounded` writes flags only, so every body handle stays live |
| `App.RemovalsKeepWf` | src/game.rs:248-262 | Removing engine objects keeps the world well formed |
| `App.SameTablesWf` | src/physics.rs:242-262 | A step that keeps the entity set, the collider set, the set of bodies and the counters keeps the world well formed |
| `App.AddCollidersKeepWf` | src/physics.rs:200-212 | `add_colliders` keeps the world well formed |
| `App.AddRigidBodiesKeepWf` | src/physics.rs:214-232 | `add_rigid_bodies` keeps the world well formed |
| `App.SyncPosKeepsWf` | src/physics.rs:242-262 | `sync_pos` keeps the world well formed |
| `App.MovePlayersKeepWf` | src/game.rs:161-176 | `move_player` keeps the world well formed |
| `App.GroundedKeepsWf` | src/game.rs:178-194 | `update_player_is_grounded` keeps the world well formed |
| `App.ApplyEntityRemovals` | src/game.rs:254-261 | One entity's removal plan is its collider removal followed by its body removal |

## Left out

- The engine's step (src/physics.rs:73-89) is the parameter `step` of `StepBodies`. It only promises to keep the set of bodies. Gravity (src/physics.rs:12), islands, the broad and narrow phases and joints are inside it.
- Contact and intersection queries (src/physics.rs:42-63) are parameters: a predicate over two collider handles. "Colliding" means a contact pair exists and has an active contact.
- The engine's bookkeeping on removal (islands, waking bodies, joints) is not modelled. Only the effect on the two sets is.
- Handles are counters, so a freed handle is never reused. The engine's generational arena indices are not modelled.
- Friction, restitution and the sensor flag are plain record fields. An unset coefficient is `None`, the engine's default.
- Reals replace f32, so rounding is not modelled. The round trips hold exactly only over the reals.
- `level.id` is an unbounded natural. The wrap-around of a usize is not modelled.
- Key states are the `Input` record and the screen size is a parameter. Drawing (`draw_shapes`) and macroquad's camera object are left out. A camera is either the default or the rect it displays.
- src/main.rs is modelled only for its core stage order, Update then Render (`Physics.RapierSchedule`). The window configuration and the frame loop are left out.
- The model visits every query in spawn order. bevy does not: it iterates by archetype and table, and the inserts and removals of `add_colliders` and `add_rigid_bodies` move an entity to another table. Only `Game.FirstPlayer` with several players, and the order in which `Game.StarHits` counts hits, would depend on this order. Systems within one stage or set run in source order in the model; the bevy executor may run them in any order or in parallel.
- The binding systems (`add_colliders`, `add_rigid_bodies`) apply their deferred inserts and removals as each loop goes. This is equivalent to applying them at the end of the stage because each loop visits each entity once, and one iteration reads and writes only the entity it visits and the engine's sets. The two queries are also disjoint (`Without` and `With<RigidBodyBuilder>`).
- `remove_physics` calls the engine sets directly and defers nothing. The despawns of `despawn_all` and the spawns of the setup systems are applied together, as at the end of the stage.
- Change detection is the `changed` flag. It is set when a bundle is spawned and cleared by the synchroniser for the entities it visits. Gameplay code never writes a Position.
- The bevy state driver (src/game.rs:275-276) is not modelled. A restart is `App.World.Exit` followed by `App.World.Enter`, and Exit consumes the `restartRequested` flag. A whole frame that chains the physics stages with the Update systems is not a single method.
- Physics.SyncPosEffect and the sync lemmas built on it assume that no two visited entities share a body (`UniqueBodies`). This holds for the game's bound entities but is not proved as a world invariant.
- Physics.FirstFrameKeepsSpawnPosition assumes the same of the bound world.
- Physics.SyncPos, `Physics.SyncEntity` and the World methods that run them (`App.World.SyncOne`, `SyncEach`, `SyncPos`, `PhysicsStages`) require `BodiesLive`: the lookup of `sync_pos` (src/physics.rs:247) unwraps and aborts on a dead handle, and the model does not include the abort. The World methods carry `BodiesLive` forward. The constructor, `DespawnAll` and `Exit` establish it. The physics stages, the gameplay systems and `Enter` keep it; `Enter` does because no bundle it spawns holds a body handle. `RemovePhysics` alone breaks it: it frees the bodies while the entities still hold their handles until `despawn_all`. That is why it is not part of `App.World.Valid`.
- Game.MovePlayers, `Game.MoveOne` and `App.World.MovePlayer` require `PlayerBodiesLive`: the lookup of `move_player` (src/game.rs:168) unwraps (src/physics.rs:109-111) and aborts on a dead handle, and the model does not include the abort. `Game.MovedBodiesLive` derives the hypothesis from live body handles plus `HandlesSynced`, and `Physics.FrameKeepsHandlesSynced` shows that a physics frame keeps `HandlesSynced`. But `HandlesSynced` is not carried as an invariant of `App.World`, so nothing discharges the requirement for the running world.
- Game.MovePlayersEffect assumes that no two players share a body (`UniquePlayerBodies`). This is not proved as an invariant of `App.World`.
