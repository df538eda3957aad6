# Strafer gameplay core in Dafny

A verified model of the gameplay rules of Strafer, a browser first-person
shooter built on three.js and Ammo.js. It covers:

- the rocket system (`RocketManager`): firing, direct hits on enemies, the
  contact-manifold pass with its blast impulses on the player, and cleanup
  of spent rockets with their user-index table;
- the enemy roster (`EnemyManager`): the spawn gate, the difficulty curve,
  fall removal without kill credit, kills with credit, and the rocket hit query;
- enemy steering (`Enemy`): wander, height target and easing, radius-limited
  repulsion, the three-step collision fallback and the collision test that
  restores the position;
- the player controller (`Player`): Quake-style friction and acceleration,
  air strafing and air control, jump consumption, ground classification and
  the death-plane respawn;
- the polled input table (`InputHandler`);
- collectable items (`Item`, `ItemManager`).

One Dafny module per source file, plus `Geometry` (the three.js vector, box
and scalar helpers the code calls), `Optional` and `Collections`:

| file | module | source |
|---|---|---|
| geometry.dfy | Optional, Collections, Geometry | three.js helpers |
| input_handler.dfy | Input | src/InputHandler.js |
| item.dfy | Items | src/Item.js |
| item_manager.dfy | ItemManagement | src/ItemManager.js |
| enemy.dfy | Enemies | src/Enemy.js |
| enemy_manager.dfy | EnemyManagement | src/EnemyManager.js |
| player.dfy | PlayerMovement | src/Player.js |
| rocket_manager.dfy | Rockets | src/RocketManager.js |

Objects whose fields the game updates in place are classes:
- `InputHandler`, `Item`, `ItemManager`, `Enemy`, `EnemyManager`, `Player` and `RocketManager`;
- `Roster`, the JavaScript array of enemies. It is shared by reference: every
  enemy keeps the array it was created with.

Each state-changing method states its whole new state in terms of
specification functions. Lemmas prove what the game promises about those
functions.

What the engine and the browser supply is passed in as parameters:
- `len: Vec3 -> real` is the engine's vector length (`Math.sqrt` of the sum
  of squares). Lemmas that need it to be Euclidean assume `IsLengthOf` or
  `Euclidean(len)`.
- `bodyOrigin` is the world position of each rocket body, by user index,
  after the physics step.
- `manifolds` is the physics world's list of contact manifolds.
- `motionOrigin` and `hitY` are the player body's read-back position and
  the ground ray's hit.
- `look` and `up` are the camera directions.
- The random draws and the wander phase are passed in as numbers.
- `bob` is the item's `sin(time) * moveAmplitude`.

Impulses on the player are returned as a sequence instead of being applied.

Where the code and the design description of the game differ, the model
follows the code:
- **Collision fallback.** An enemy whose forward and preferred side steps
  are both blocked commits the opposite side step without checking it; it
  never holds its position (`src/Enemy.js:84-87`; `Enemies.NeverHolds`).
- **Stale collision test.** The collision check reads `mesh.matrixWorld`, which writing
  `mesh.position` does not refresh (`src/Enemy.js:100-102`). Both checks of
  one frame therefore get the same answer, so a blocked forward move always
  ends in the opposite side step (`Enemies.StaleMatrixFallback`).
- **Two blasts.** A manifold whose two bodies are both rockets flags both
  and sets off two blasts at the same point (`src/RocketManager.js:140-149`).
- **Unloaded skull.** A spawn before the skull mesh has loaded is not
  deferred: `this.skullMesh.clone()` throws. `SpawnEnemy` requires the mesh
  to be loaded.
- **Zero distance.** A blast at distance 0 from the player divides by zero
  (`src/RocketManager.js:168-170`). `Blast` requires the distance to be
  non-zero when it is inside the radius.
- **Inherited names.** `isKeyDown(name)` is `!!this.actions[name]`, which is
  true for the names every object inherits (`"toString"`, …). The model
  keeps that (`Input.InputHandler.IsKeyDown`).

## Model

| member | source | states |
|---|---|---|
| Input.ActionNamed | src/InputHandler.js:84-86 | a name is resolved to an action only if that action's property has that name, and `None` means no action has it |
| Input.KeyAction | src/InputHandler.js:26-42 | each of KeyW, KeyS, KeyA, KeyD and Space selects exactly forward, backward, left, right and jump; no key selects shootRocket |
| Input.MouseEffect | src/InputHandler.js:65-82 | button 0 drives shootRocket, button 2 drives jump, and any other button leaves the table unchanged |
| Input.InputHandler.constructor | src/InputHandler.js:2-10 | all six actions start released |
| Input.InputHandler.OnKeyDown | src/InputHandler.js:25-43 | a mapped key sets its own action to true and leaves the others alone; an unmapped code changes nothing |
| Input.InputHandler.OnKeyUp | src/InputHandler.js:45-63 | a mapped key sets its own action to false and leaves the others alone; an unmapped code changes nothing |
| Input.InputHandler.OnMouseDown | src/InputHandler.js:65-73 | the table after a press is the mouse effect with value true |
| Input.InputHandler.OnMouseUp | src/InputHandler.js:75-82 | the table after a release is the mouse effect with value false |
| Input.InputHandler.IsKeyDown | src/InputHandler.js:84-86 | returns the named action's flag; for any other name it is true exactly for the inherited object properties |
| Input.InputHandler.ClearJump | src/InputHandler.js:89-91 | jump becomes false and every other action keeps its value |
| Input.InputHandler.ClearShoot | src/InputHandler.js:93-95 | shootRocket becomes false and every other action keeps its value |
| Input.KeyUpAfterKeyDown | src/InputHandler.js:25-63 | a key press followed by its release leaves the key's action released |
| Input.KeysNeverShoot | src/InputHandler.js:25-63 | no keyboard event changes shootRocket |
| Input.NameRoundTrip | src/InputHandler.js:3-10 | every action is found again under its own property name |
| Items.Item.constructor | src/Item.js:4-42 | a new item is at its spawn position, rests at the spawn height, is in the scene and is not collected |
| Items.Item.Update | src/Item.js:44-55 | a collected item is left untouched; otherwise it moves to its rest height plus the bob, is collected exactly when the player is closer than 3.0, and is then removed from the scene once |
| Items.Item.OnPickup | src/Item.js:57-69 | the item becomes collected and leaves the scene, which counts one removal |
| Items.Item.Dispose | src/Item.js:71-78 | the object is removed from the scene only if the item was not already collected, so across pickup and dispose it is removed at most once |
| ItemManagement.UncollectedExactly | src/ItemManager.js:79-88 | the filtered roster holds exactly the uncollected items and no duplicates when the roster had none |
| ItemManagement.ItemManager.constructor | src/ItemManager.js:7-17 | starts with no items, the given positions, and not loaded |
| ItemManagement.ItemManager.SetItemPositions | src/ItemManager.js:57-59 | the stored positions are replaced wholesale |
| ItemManagement.ItemManager.OnModelLoaded | src/ItemManager.js:19-23 | after the load both flags hold and the list is the old items followed by one new item per stored position, in order, each at its position |
| ItemManagement.ItemManager.SpawnItems | src/ItemManager.js:61-77 | does nothing unless loaded and the model is set; otherwise appends exactly one new item per stored position, in position order, keeping the earlier items |
| ItemManagement.ItemManager.UpdateAt | src/ItemManager.js:81-87 | one iteration of the reverse loop: the item at `i` is updated and the list then holds the unvisited prefix followed by the uncollected items from `i` on |
| ItemManagement.ItemManager.StepItem | src/ItemManager.js:83 | updating one item leaves every other item of the roster as it was |
| ItemManagement.ItemManager.Update | src/ItemManager.js:79-88 | every item is updated once, and the list keeps exactly the uncollected items in their order |
| ItemManagement.ItemManager.ClearItems | src/ItemManager.js:90-95 | every listed item is disposed, so it leaves the scene exactly once, and the list becomes empty |
| Enemies.NoiseScale | src/Enemy.js:127 | the wander amplitude is 100 per unit of distance, clamped to [60, 350] |
| Enemies.TargetHeight | src/Enemy.js:49-53 | the target height lies in [minY, minY + 5] with minY = max(2.6, player y): minY within 10 units and minY + 5 beyond 20 |
| Enemies.EasedHeight | src/Enemy.js:54 | the height moves one hundredth of the way to the target, whatever the frame time, and never overshoots it |
| Enemies.Damping | src/Enemy.js:64 | repulsion is damped to 0.01 while the player is below the enemy and is undamped otherwise |
| Enemies.RepulsionTerm | src/Enemy.js:59-66 | a neighbour at distance 2 or more contributes nothing |
| Enemies.RepulsionWeight | src/Enemy.js:60-66 | inside the radius a neighbour's push is a non-negative multiple of `me - other`, so it points away from the neighbour, and its length is (2 - dist) times the damping |
| Enemies.FarNeighbours | src/Enemy.js:56-67 | when every other enemy is at least 2 away, the summed repulsion is zero |
| Enemies.SelfExcluded | src/Enemy.js:58-59 | the enemy's own entry contributes nothing to its push, wherever it stands in the roster |
| Enemies.AvoidanceBlend | src/Enemy.js:69-72 | a push of length at most 0.1 leaves the heading alone; a longer one gives a positive multiple of the heading lerped 30% toward the push direction, of unit length |
| Enemies.ResolveMove | src/Enemy.js:74-88 | the move goes forward if that is free, else to the preferred side if that is free, else to the opposite side; the height is always the eased height |
| Enemies.NeverHolds | src/Enemy.js:80-88 | with a positive move and a non-vertical heading, every outcome moves the enemy in the plane |
| Enemies.SideStepsMirror | src/Enemy.js:81-87 | the two side steps are mirror images about the enemy's position |
| Enemies.StaleMatrixFallback | src/Enemy.js:80-88 | when both checks get the same answer, a blocked move always ends in the opposite side step |
| Enemies.Enemy.constructor | src/Enemy.js:4-19 | the enemy takes its spawn position, speeds, roster array and platforms, a zero last heading and a fixed side in {-1, 1}, and is in the scene |
| Enemies.Enemy.CheckCollisions | src/Enemy.js:98-124 | the answer is whether the enemy's box meets another roster member's box or a platform's box, and the position is restored on every path |
| Enemies.Enemy.AvoidanceVector | src/Enemy.js:56-67 | the accumulated push is the sum, in roster order, of the pushes from every other member |
| Enemies.Enemy.Update | src/Enemy.js:34-96 | the enemy is steered from its old pose: the stored heading is the wander-turned heading blended with the repulsion of its roster, and the new position is the collision fallback at the eased height |
| Enemies.Enemy.Dispose | src/Enemy.js:134-139 | the enemy leaves the scene |
| EnemyManagement.StepDifficulty | src/EnemyManager.js:56-68 | at a new multiple of 5 kills the spawn interval drops by 1 while it is above 1 and the cap rises by 1 while below 100; at a multiple of 10 the speed rises by 1 while below 20 and the turn speed by 0.2 while below 5; every parameter either keeps its value or takes exactly that step, and off a milestone nothing changes |
| EnemyManagement.StepOncePerMilestone | src/EnemyManager.js:56-57 | stepping twice at the same kill count equals stepping once |
| EnemyManagement.StepKeepsBounds | src/EnemyManager.js:58-67 | the curve never passes its floor and its ceilings |
| EnemyManagement.FirstMilestones | src/EnemyManager.js:56-68 | from (5, 1, 10, 2): the 5th kill gives (4, 2, 10, 2) and the 10th gives (3, 3, 11, 2.2) |
| EnemyManagement.StandingExactly | src/EnemyManager.js:73-79 | the fall filter keeps exactly the enemies at or above y = -1, without duplicates |
| EnemyManagement.NearRocketExactly | src/EnemyManager.js:82-91 | the hit query returns exactly the roster members closer than 1.5 to the rocket, none twice when the roster has no duplicates |
| EnemyManagement.WithoutCounts | src/EnemyManager.js:121 | the filter removes every occurrence of the enemy and keeps every other element with its count |
| EnemyManagement.WithoutExactly | src/EnemyManager.js:121 | the filter keeps exactly the other enemies and creates no duplicates |
| EnemyManagement.EnemyManager.constructor | src/EnemyManager.js:7-26 | starts with an empty roster, interval 5, cap 1, speed 10, turn speed 2, kill count 1, level 1 and no skull |
| EnemyManagement.EnemyManager.OnSkullLoaded | src/EnemyManager.js:23-25 | the skull mesh becomes available |
| EnemyManagement.EnemyManager.SpawnEnemy | src/EnemyManager.js:93-112 | a new enemy is appended at height 150 inside the square [-75, 75), sharing the manager's roster array, with no platforms and the current speeds |
| EnemyManagement.EnemyManager.Update | src/EnemyManager.js:54-80 | a spawn happens exactly when the interval has passed and the roster is below its cap; the difficulty steps only then and stays within its ceilings; every enemy, the new one from its spawn point, is steered once from its pose at the start of the frame; afterwards the roster is the enemies still standing and the kill count is unchanged |
| EnemyManagement.EnemyManager.SpawnIfDue | src/EnemyManager.js:55-71 | when the gate is open the curve takes its step, one fresh enemy is appended at the drawn point with no heading and the timer restarts; otherwise nothing changes |
| EnemyManagement.EnemyManager.StepCurve | src/EnemyManager.js:56-68 | the parameters take exactly the difficulty step for the current kill count |
| EnemyManagement.EnemyManager.UpdateEnemies | src/EnemyManager.js:73-79 | the reverse loop steers every enemy exactly once from its pose at the start of the loop, with its own wander draw, and keeps exactly the standing ones, in order, removing the fallen from the scene |
| EnemyManagement.EnemyManager.FallLoop | src/EnemyManager.js:73-79 | after the loop from the back every enemy has been steered once from its recorded starting pose, the roster is exactly the standing enemies in order, and each enemy is in the scene exactly when it stands |
| EnemyManagement.EnemyManager.UpdateEnemyAt | src/EnemyManager.js:74-78 | one iteration: the enemy at `i` is steered, the unvisited ones keep their poses, and the roster becomes the unvisited prefix followed by the standing enemies from `i` on |
| EnemyManagement.EnemyManager.DropIfFallen | src/EnemyManager.js:77-78 | an enemy that has just moved below y = -1 is spliced out of the roster and leaves the scene, one at or above stays; the roster becomes the unvisited prefix followed by the standing enemies from `i` on |
| EnemyManagement.EnemyManager.StepEnemy | src/EnemyManager.js:75 | the enemy is steered by the push of its roster as it stands at its turn and by its collision answer; no other enemy moves, so which later enemies stand is unchanged |
| EnemyManagement.EnemyManager.RemoveEnemyIndex | src/EnemyManager.js:114-118 | the enemy at the index is disposed and spliced out of the shared array |
| EnemyManagement.EnemyManager.CheckCollisionsWithRocket | src/EnemyManager.js:82-91 | returns exactly the enemies within hit range in roster order, and changes nothing |
| EnemyManagement.EnemyManager.RemoveEnemy | src/EnemyManager.js:120-124 | the roster becomes a new array without any occurrence of the enemy, keeping the rest in order; the old array is untouched; the enemy leaves the scene and the kill count rises by exactly 1 |
| EnemyManagement.EnemyManager.ClearEnemies | src/EnemyManager.js:126-131 | every enemy is disposed and the roster becomes a new empty array |
| PlayerMovement.OrDefault | src/Player.js:9-12 | JavaScript's or-default: the fallback is used exactly when the value is missing or 0 |
| PlayerMovement.SettingsOr | src/Player.js:14-16 | a given settings object is used as is; otherwise the default is used |
| PlayerMovement.MoveAxis | src/Player.js:180-181 | each axis is -1, 0 or 1, and opposing keys cancel |
| PlayerMovement.WishDirection | src/Player.js:183-190 | the wished direction stays horizontal |
| PlayerMovement.FrictionBounds | src/Player.js:121-135 | friction never raises the speed and never makes it negative; in the air it does nothing, and a drop larger than the speed stops the player |
| PlayerMovement.AirFrictionIdle | src/Player.js:121-135 | in the air a moving player's horizontal velocity is unchanged |
| PlayerMovement.FrictionRescales | src/Player.js:121-135 | a moving player's velocity is shrunk by a factor in [0, 1], so it keeps its direction, and ends with exactly the reduced speed |
| PlayerMovement.Accelerate | src/Player.js:137-149 | nothing is added once the projection on the target direction reaches the target speed; the vertical component is never touched |
| PlayerMovement.AccelerateProjection | src/Player.js:137-149 | along a horizontal unit direction the projection rises by min(accel·delta·target, deficit), so it never passes the target speed |
| PlayerMovement.AirControl | src/Player.js:151-152 | when the absolute value of moveZ or of the target speed is below 0.001, air control does nothing |
| PlayerMovement.StillAirControl | src/Player.js:151-169 | air control leaves a standing player standing |
| PlayerMovement.AirControlKeepsSpeed | src/Player.js:151-169 | air control steers without changing the horizontal speed, and it stays horizontal |
| PlayerMovement.AirParameters | src/Player.js:191-200 | lateral-only input caps the wished speed at the strafe maximum and uses the strafe acceleration; otherwise air deceleration is used when the velocity opposes the wished direction, and air acceleration otherwise |
| PlayerMovement.ConfigFallbacks | src/Player.js:9-12 | the game's configuration passes through the fallbacks unchanged, and a 0 or a missing value falls back |
| PlayerMovement.KeyNames | src/Player.js:220-221 | the movement code's action names resolve to left, right, forward, backward and jump |
| PlayerMovement.Player.constructor | src/Player.js:4-27 | each parameter is the configured value or its default; the body starts at the player's position with zero velocity and the player is not grounded |
| PlayerMovement.Player.AirVelocity | src/Player.js:171-209 | an air move keeps the vertical velocity |
| PlayerMovement.Player.GroundVelocity | src/Player.js:211-247 | the vertical velocity of a ground move is the jump force when jumping and otherwise passes through |
| PlayerMovement.Player.GroundIdleIsFriction | src/Player.js:211-236 | without movement keys a ground move is friction alone |
| PlayerMovement.Player.AirControlSpeed | src/Player.js:202-206 | with air control on, an air move keeps the horizontal speed acceleration produced |
| PlayerMovement.Player.CheckGround | src/Player.js:101-119 | grounded exactly when the ray hit and the hit is less than 1.5 below the player |
| PlayerMovement.Player.GroundMove | src/Player.js:211-247 | the velocity is the ground move of the pressed axes; a held jump while grounded jumps and is consumed, and otherwise the table is unchanged |
| PlayerMovement.Player.Reposition | src/Player.js:84-99 | player and body go to the start point with zero linear and angular velocity |
| PlayerMovement.Player.Update | src/Player.js:55-82 | ground state from the read-back position; the ground move when grounded (jump consumed) and the air move otherwise; below y = -50 a reset to (0, 5, 0) at rest; the camera follows the player |
| Rockets.LaunchGeometry | src/RocketManager.js:39-81 | a rocket with the given id appears 2 units from the player along the camera direction and flies away from the player at speed 150 |
| Rockets.Blast | src/RocketManager.js:156-180 | a blast pushes the player exactly when the player is closer than 15 |
| Rockets.BlastMagnitude | src/RocketManager.js:161-177 | inside the radius the impulse points from the blast to the player with magnitude 200·(15 - d)/15, which is 100 at d = 7.5 |
| Rockets.FirstPenetration | src/RocketManager.js:133-152 | finds the first contact with negative distance, if there is one |
| Rockets.ManifoldEffect | src/RocketManager.js:116-153 | one manifold flags every rocket body of the pair exactly when the bodies penetrate and leaves other entries alone; the blasts at the first penetrating point are one per rocket body; a manifold without a rocket changes nothing |
| Rockets.Scan | src/RocketManager.js:112-154 | after the contact pass an entry is flagged exactly when it was flagged before or some manifold struck its rocket; no entry appears or disappears |
| Rockets.StrangersIgnored | src/RocketManager.js:125-131 | a manifold between two non-rocket bodies, including unknown indices, changes nothing and yields no impulse |
| Rockets.SurvivorsExactly | src/RocketManager.js:91-100 | after the direct-hit pass the roster holds exactly the enemies that no rocket came within range of |
| Rockets.HitsExactly | src/RocketManager.js:93-94 | a rocket's hit query against the enemies left by earlier rockets is non-empty exactly when some such enemy is within range |
| Rockets.FlagHitsExactly | src/RocketManager.js:91-100 | a rocket is flagged by the direct-hit pass exactly when it was flagged before or it found an enemy not already killed by an earlier rocket |
| Rockets.KeptExactly | src/RocketManager.js:182-206 | cleanup keeps exactly the rockets that are neither flagged nor below y = -50, in their order |
| Rockets.DoomedIdsExactly | src/RocketManager.js:197-203 | the deleted table entries are exactly those of the removed rockets |
| Rockets.CleanupKeepsEntries | src/RocketManager.js:197-203 | no surviving rocket loses its table entry |
| Rockets.CleanupConsistent | src/RocketManager.js:182-206 | cleanup keeps ids ascending, every live rocket with its entry, and every entry a rocket record |
| Rockets.KillFacts | src/RocketManager.js:93-99 | one rocket's hit query returns distinct roster members, and removing them leaves the survivors of that rocket as well |
| Rockets.RocketManager.constructor | src/RocketManager.js:10-12 | no rockets, an empty table and the id counter at 0 |
| Rockets.RocketManager.Update | src/RocketManager.js:24-36 | one tick fires at most one rocket, only when shootRocket is held, and releases it; then comes the direct-hit pass (kills conserved with the roster), the contact pass and the cleanup, in that order |
| Rockets.RocketManager.Advance | src/RocketManager.js:31-35 | the direct-hit pass, then the contact pass on its table, then the cleanup on that result |
| Rockets.RocketManager.Fire | src/RocketManager.js:25-29 | a held shoot action fires exactly one rocket under the next id and is then released; otherwise nothing changes |
| Rockets.RocketManager.ShootRocket | src/RocketManager.js:38-87 | the id counter is pre-incremented, the new id has no entry yet, the rocket is appended, and its fresh entry is a rocket that is not flagged |
| Rockets.RocketManager.UpdateRockets | src/RocketManager.js:89-110 | each rocket in turn kills the remaining enemies near it and is flagged if it killed; the kill count rises by the number removed; every killed enemy leaves the scene; each mesh then follows its body |
| Rockets.RocketManager.RunDirectPass | src/RocketManager.js:91-109 | the loop visits every rocket once, in order |
| Rockets.RocketManager.Strike | src/RocketManager.js:92-100 | one rocket's hits extend the pass by one step |
| Rockets.RocketManager.KillNear | src/RocketManager.js:93-99 | the hit query reports a hit exactly when an enemy is within range, and every enemy within range is removed with kill credit |
| Rockets.RocketManager.RemoveHits | src/RocketManager.js:97-99 | each hit enemy goes through the kill path once: the roster loses exactly them and the kill count rises by as many |
| Rockets.RocketManager.CheckCollisions | src/RocketManager.js:112-154 | the table and the impulses are those of the contact pass over all manifolds in order |
| Rockets.RocketManager.CheckManifold | src/RocketManager.js:116-153 | one manifold acts on its first penetrating contact only, as `ManifoldEffect` says |
| Rockets.RocketManager.CleanupRockets | src/RocketManager.js:182-206 | the reverse loop leaves exactly the kept rockets and deletes exactly the removed rockets' entries, keeping the bookkeeping consistent |

## Left out

- Rendering, meshes, quaternions, audio, pointer lock, the DOM and the
  asynchronous asset loaders. Only their results are kept: the `loaded` and
  `modelLoaded` flags and `skullLoaded`.
- Ammo.js plumbing: motion states, transforms, ray casts, body creation and
  `applyCentralImpulse`. Their results are parameters, and impulses are returned.
- Rockets.RocketManager.UpdateRockets: the motion-state null check is not
  modelled; every rocket body is assumed to have a motion state, so its mesh
  always follows `bodyOrigin`. The model moves the mesh before running the
  hit query of the same rocket, but the hit query uses the position read before
  the move, so the result is the same.
- Rockets.RocketManager.CleanupRockets: `body.toRemove` is not a separate
  flag. Both places that set it (a penetrating contact and the y < -50 test)
  either set the table flag in the same tick or are checked directly, and
  cleanup reads both in the same tick.
- Rockets.Blast: requires a non-zero distance inside the radius. At distance
  0 the source divides by zero and produces NaN, and IEEE NaN is not
  modelled.
- Rockets.RocketManager.Update: every manifold must satisfy the same
  precondition as `Rockets.Blast`, including manifolds without a rocket
  body, which never blast. Which bodies are rockets is only known after the
  tick's own shot is fired, so the precondition is not narrowed to them.
- EnemyManagement.EnemyManager.SpawnEnemy: requires the skull mesh to be
  loaded. Without it the source throws on `this.skullMesh.clone()`.
- Enemies.Enemy.Update: the "GAME OVER" console message at distance < 1.5
  is I/O and is left out. The turn-rate bound on the heading is not stated;
  the heading is re-normalised after the lerp, and no bound is claimed.
- EnemyManagement.EnemyManager.UpdateEnemies: the push and the collision
  answer each enemy steers by are returned as per-turn records. At each turn
  `StepEnemy` states them as the repulsion of the enemy's roster and its
  collision answer at that moment. The frame-level contract does not restate
  them, because later enemies have already moved and the roster array has
  already been spliced by then.
- Enemies.Enemy.CheckCollisions: the world boxes are state (`worldBox`)
  that only the renderer refreshes. The model does not compute
  `applyMatrix4` and does not recompute the platforms' bounding boxes.
- PlayerMovement.Player.Update: gravity, body activation and the engine
  step belong to the physics world. `gravity` is stored but never read by
  the controller.
- Vector lengths and square roots are the parameter `len`. Floating-point
  rounding is not modelled: all scalars are reals.
- `Math.random` and `performance.now` are inputs: the spawn draws, the avoid
  side, the wander phase and the item bob.
