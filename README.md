# Bevy Bowling — a Dafny model of the game logic

Bevy Bowling is a small bowling arcade game on the Bevy engine with Rapier physics and an iced
menu. The game's own logic is thin. A main menu requests the `Playing` state when "Start Game"
is pressed. Entering `Playing` spawns a lane, a triangle of ten pins, a light and a camera.
While playing, a repeating 100 ms timer drives the shooting: a frame whose tick completes a
period shoots one randomised ball, however many periods it completes. Fallen balls and pins are
despawned, and the game returns to the menu once no pin is left. Leaving `Playing`
despawns every entity tagged `LevelUnload`.

This project models that logic over an abstract world:

- an entity table: a map from entity id to a record of kind, tags (`Ball`, `Pin`,
  `LevelUnload`) and position;
- Bevy `Commands`: each system returns a command buffer (`Spawn`/`Despawn`), and the
  engine applies it after the system returns (`Ecs.Run`, `AppSchedule.App.Apply`);
- `State<GameState>` and `NextState<GameState>`: a current state and an optional pending state;
- the `ShootTimer` resource: an integer-millisecond repeating timer.

Modules, one per source file or concept:

| file | module | models |
|---|---|---|
| `wrappers.dfy` | `Wrappers` | `Option` |
| `states.dfy` | `States` | `GameState` (src/main.rs) and the `NextState` resource |
| `ecs.dfy` | `Ecs` | entity records, command buffers and how they are applied |
| `pins.dfy` | `Pins` | the pin-triangle layout that `setup` builds, and its properties |
| `game.dfy` | `Game` | src/game.rs: `setup`, `ShootTimer`, `shoot_ball`, `despawn_fallen`, `end_condition`, `cleanup_system` |
| `main_menu.dfy` | `MainMenu` | src/main_menu.rs: `Message` and `update` |
| `app.dfy` | `AppSchedule` | the registrations in src/game.rs and src/main_menu.rs: which systems run in which state, and state transitions |

Main results:

- The pin loop lays out exactly `Triangle(4)`. Row `i` holds `i + 1` pins, ten in all. A cell
  `(i, c)` is laid out iff `0 <= i < 4`, `-i <= c <= i` and `c ≡ i (mod 2)`. No cell appears
  twice, and no two pins share a position.
- `setup` spawns 15 entities. The ten pins are tagged `Pin` only. The other five carry
  `LevelUnload` and not `Pin`.
- `shoot_ball` queues at most one ball per call, and only when the tick completed a period. That
  holds even when one tick completes several periods.
- A ball is tagged `Ball` and `LevelUnload`, has vertical velocity 0, and starts at `(x, 2.5, 58)`
  with `x` in `[-2, 2)`. The colour draw `gen_range(0..3)` never selects the fourth colour, so a
  ball is never red.
- The sweep removes exactly the balls and pins with `y <= -5`. The teardown removes exactly the
  `LevelUnload` entities. What either one leaves, a second run does not touch.
- The menu's `update` requests `Playing` iff its queue is non-empty. `k >= 1` start messages act
  like one.
- The invariant `AppSchedule.App.Valid` is kept by every frame. A pending transition always
  leads to the other state. While in the menu the entity table is empty.

Facts about the code that the model keeps:

- Pins carry `Pin` but not `LevelUnload` (src/game.rs:96), unlike every other entity. Nothing
  leaks even so: `Playing` is left only after the end condition fires, which needs zero pins,
  and nothing spawns a pin during play.
- The forward speed is drawn from `[-100, -40)` (src/game.rs:140).
- The shoot timer is created once with the plugin (src/game.rs:13) and `setup` never resets it,
  so its phase carries over from one play session into the next.

Host-engine behaviour the model assumes:

- A frame commits the pending transition first: the state is replaced, then `OnExit` of the old
  state runs, then `OnEnter` of the new one, each with its commands applied.
- Then the current state's `OnUpdate` systems run on the table as it stood. Their command
  buffers are applied afterwards. So `end_condition` sees pins that `despawn_fallen` removes in
  the same frame, and the return to the menu is requested one frame later.
- Despawning an id that is not present changes nothing.

## Model

| member | source | states |
|---|---|---|
| States.Other | src/main.rs:7-12 | There are exactly two states; the transition out of a state leads to the other one. |
| States.NextState.constructor | src/main.rs:23 | Registering the state starts with no transition pending. |
| States.NextState.Set | src/main_menu.rs:47 | A transition request sets the pending state to the requested one. |
| Ecs.RunDespawns | src/game.rs:173-177 | Applying a despawn-only buffer removes exactly the ids it names and allocates no id. |
| Ecs.RunSpawns | src/game.rs:48-122 | Applying spawns gives the new entities consecutive fresh ids, keeps every other row, and advances the id counter by the number spawned. |
| Pins.RowFromMembers | src/game.rs:83-99 | The inner `while` loop started at column `c` visits the cells of row `i` with columns from `c` to `i` that have the parity of `c`, and no others. |
| Pins.RowFromLength | src/game.rs:83-99 | From an admissible start `c`, the inner loop visits `(i - c + 2) / 2` columns. |
| Pins.RowFromRows | src/game.rs:83-99 | Every cell the inner loop visits is in row `i`, at column `c` or beyond. |
| Pins.RowFromIncreasing | src/game.rs:84-98 | The columns visited by the inner loop strictly increase, because `c` only grows by 2. |
| Pins.FullRowLength | src/game.rs:83-99 | Row `i`, started at `c = -i`, holds exactly `i + 1` pins. |
| Pins.TriangleLength | src/game.rs:82-100 | The first `n` rows hold `n(n+1)/2` pins. |
| Pins.TenPins | src/game.rs:82-100 | The four rows hold 10 pins in total. |
| Pins.TriangleMembers | src/game.rs:82-100 | A cell `(i, c)` is laid out iff `0 <= i < n`, `-i <= c <= i` and `c` has the parity of `i` (both directions). |
| Pins.TriangleRows | src/game.rs:82 | Every laid-out cell lies in one of the first `n` rows. |
| Pins.TriangleDistinct | src/game.rs:82-100 | No cell is laid out twice. |
| Pins.LastRowCount | src/game.rs:82-100 | The last row of an `n`-row triangle holds `n` pins. |
| Pins.TriangleRowCount | src/game.rs:82-100 | Row `i` of the triangle holds exactly `i + 1` pins. |
| Pins.PinPositionInjective | src/game.rs:89 | The position `(c / 1.5, 2, -25 - i)` determines the cell `(i, c)`. |
| Pins.PinPositionsDistinct | src/game.rs:82-100 | No two pins of the triangle stand at the same position. |
| Game.SceneTagging | src/game.rs:48-122 | `setup` spawns 15 entities. Positions 3 to 12 are the pins: tagged exactly `{Pin}`, without `LevelUnload`, at the triangle's positions. The ground, the railings, the light and the camera carry `LevelUnload` and not `Pin`. |
| Game.SceneCommands | src/game.rs:48-122 | The setup buffer holds 15 spawns, and each spawned entity carries `Pin` or `LevelUnload` but not both. |
| Game.PinPlaced | src/game.rs:85-98 | One pass of the inner loop spawns the pin of cell `(i, c)` and leaves the cells still to come as the rest of the row. |
| Game.Setup | src/game.rs:42-123 | The nested pin loop, with bounds and parity invariants on `c`, queues exactly the spawns of the lane, `Triangle(4)`'s pins, the light and the camera. |
| Game.ShootTimer.constructor | src/game.rs:13 | The shoot timer starts with no elapsed time. |
| Game.ShootTimer.Tick | src/game.rs:132 | A tick adds `delta` to the elapsed time and removes every completed 100 ms period. It has just finished iff at least one period completed. |
| Game.BallEntity | src/game.rs:135-165 | A ball is tagged `Ball` and `LevelUnload`. Its velocity is `(curve, 0, speed)` with curve in `[-5, 5)` and speed in `[-100, -40)`. It starts at `(x, 2.5, 58)` with `x` in `[-2, 2)` and has radius in `[0.25, 0.5)`. Its colour is never red. |
| Game.ShootBall | src/game.rs:125-167 | Ticks the timer. Queues exactly one ball iff the tick completed a period, and none otherwise, even if several periods completed. |
| Game.DespawnFallen | src/game.rs:169-178 | Queues one despawn for each ball or pin with `y <= -5`, each id once, and nothing else. |
| Game.ScenePin | src/game.rs:83-96 | The fourth entity `setup` spawns, right after the lane, is a pin. |
| Game.SceneClosed | src/game.rs:103-122 | After the pins, queuing the light and the camera completes exactly the scene's buffer. |
| Game.SceneStanding | src/game.rs:48-122 | Nothing `setup` spawns stands at or below the fall height `y = -5`. |
| Game.SweepFlush | src/game.rs:173-177 | Applying the sweep removes exactly the fallen balls and pins. It leaves every other entity unchanged, and a second sweep finds nothing to remove. |
| Game.EndCondition | src/game.rs:180-184 | With no `Pin` entity left, the return to `MainMenu` is requested; otherwise the pending state is unchanged. |
| Game.CleanupSystem | src/game.rs:186-190 | Queues one despawn for each entity carrying the tag, each id once, and nothing else. |
| Game.TeardownFlush | src/game.rs:186-190 | Applying the teardown removes every entity carrying the tag and no other, so none carrying it remains. |
| MainMenu.Update | src/main_menu.rs:43-51 | Draining the queue leaves the pending state unchanged if the queue is empty, and requests `Playing` otherwise. |
| MainMenu.DrainStarts | src/main_menu.rs:44-48 | A queue with at least one message requests `Playing`, whatever was pending before. |
| MainMenu.DrainIdempotent | src/main_menu.rs:44-48 | Handling `k >= 1` start messages gives the same pending state as handling one. |
| MainMenu.DrainOnlyLength | src/main_menu.rs:14-16 | `StartClicked` is the only message, so two queues of equal length have the same effect. |
| AppSchedule.SpawnOwned | src/game.rs:48-122 | Spawning entities that carry `Pin` or `LevelUnload` into a table of such entities with fresh ids keeps every entity owned and every id below the counter. |
| AppSchedule.SceneOwned | src/game.rs:56-122 | Every entity `setup` spawns carries `Pin` or `LevelUnload`. |
| AppSchedule.SpawnStanding | src/game.rs:173-174 | A table holding exactly standing entities at consecutive ids has each at its id and none that the sweep would remove. |
| AppSchedule.EntryTable | src/game.rs:48-122 | Spawning standing entities into an empty table puts each at its id from the counter on and nothing else there, advances the counter by their number, leaves none fallen, and keeps every pin among them. |
| AppSchedule.SceneEntry | src/game.rs:48-122 | The table `setup` builds from an empty one holds exactly the whole scene at the next 15 ids, none fallen, with at least one pin, and the counter advances by 15. |
| AppSchedule.SceneEntryPin | src/game.rs:83-96 | In the table `setup` builds from an empty one, the entity at the fourth new id is a pin. |
| AppSchedule.FirstPlayFrame | src/game.rs:15-21 | If the table holds exactly a sequence of standing entities at consecutive ids, and a play update keeps every standing entity and adds at most the ball at the next id, then the table becomes that sequence followed by the ball exactly when the ball was shot. |
| AppSchedule.EntryPlayFrame | src/game.rs:14-21 | On the frame that starts play, the scene `setup` built has a pin, so no return is requested. The play update then leaves exactly the scene followed by the ball iff it was shot, and the counter at 15 past the old one plus the ball. |
| AppSchedule.PlayFlush | src/game.rs:125-178 | Applying the shot buffer and then the sweep to the table both systems read: the ball, if shot, appears at the next id and is the only new entity; the counter grows by the number of balls shot; exactly the fallen entities go, and every other entity stays unchanged. |
| AppSchedule.App.constructor | src/main.rs:7-23 | The game starts in the default state `MainMenu` (src/main.rs:9), with nothing pending after `add_state` (src/main.rs:23), an empty table, and the shoot timer just created by the plugin (src/game.rs:13), with no time elapsed and no period finished. |
| AppSchedule.App.Apply | src/game.rs:48-188 | The engine's flush of a system's buffer (the spawns queued at lines 48-122 and 142-165, the despawns at 175 and 188) updates the table exactly as the commands specify, in order. |
| AppSchedule.App.ExitPlaying | src/game.rs:23 | Leaving `Playing` removes exactly the `LevelUnload` entities. |
| AppSchedule.App.EnterPlaying | src/game.rs:14 | Entering `Playing` adds exactly the scene's spawns. |
| AppSchedule.App.ApplyStateTransition | src/game.rs:14-23 | Committing a pending request moves to the other state and keeps the invariant. Leaving `Playing` empties the table. Entering it builds exactly the scene at the next 15 ids and nothing else, advances the counter by 15, with nothing fallen and a pin standing; leaving it keeps the counter. |
| AppSchedule.App.LeavePlaying | src/game.rs:23 | Committing a requested return to the menu replaces the state, then the teardown empties the table, since only pins lack `LevelUnload` and the request implies none is left. The counter is kept. |
| AppSchedule.App.StartPlaying | src/game.rs:14 | Committing a requested start of play replaces the state, then `setup`'s buffer is applied: the table becomes exactly the standing scene at the next 15 ids, with a pin, and the counter advances by 15. |
| AppSchedule.App.PlayingUpdate | src/game.rs:15-21 | In `Playing`: the timer advances by `delta` less its completed periods. The ball appears, at the next fresh id, iff a period completed, and that is the only new entity. Exactly the fallen balls and pins disappear; the rest stay unchanged. The menu is requested iff no pin was left. |
| AppSchedule.App.ReturnFrame | src/main_menu.rs:21 | The frame that returns to the menu empties the table and keeps the counter and the timer; then the menu's `update` drains its queue, requesting `Playing` iff the queue is non-empty. |
| AppSchedule.App.FirstUpdate | src/game.rs:15-21 | The play systems' first run on a freshly built scene requests no return. They advance the timer by `delta` less its completed periods, and leave exactly the scene followed by the ball iff a period completed. |
| AppSchedule.App.EntryFrame | src/game.rs:14-21 | The frame that starts play runs `setup` and then the play systems once. The table holds exactly the 15 scene entities at the ids from the old counter on, plus the ball at the next id iff the first tick completed a period. The counter advances by 15 plus the ball, and no return is requested. |
| AppSchedule.App.Frame | src/game.rs:14-23 | The menu's `update` runs only in `MainMenu` (src/main_menu.rs:21), and the play systems only in `Playing`. A state is left only for the other one. A menu frame leaves the table, the id counter and the timer (its elapsed time and its finish count) untouched. A play frame advances the timer and spawns a ball iff a period completed, removes exactly the fallen, and requests the menu iff no pin was left. The frame that returns to the menu leaves an empty table and the counter unchanged. The frame that starts play runs `setup` and then the play systems: the table holds exactly the 15 scene entities at the ids from the old counter on, plus the ball at the next id iff the first tick completed a period; the timer advances by `delta`, the counter by 15 plus the ball, and no return is requested. |

## Left out

- Rendering: meshes, materials, the clear colour, hex-colour parsing, lights and camera
  parameters. Each light and camera is kept only as one tagged entity with its position.
- Physics: rigid-body kinds, colliders, densities, continuous collision detection, velocities
  beyond the ball's initial one, and motion under gravity. Positions change only through the
  external solver. No operation here moves an entity; the sweep's contract holds whatever
  heights the table holds.
- Floating point: positions and draws are `real`. `f32` rounding (for example `c as f32 / 1.5`)
  is not modelled.
- Randomness: the draws of `shoot_ball` are an input that lies in the generator's ranges.
- Game.ShootTimer.Tick: models Bevy's repeating timer in whole milliseconds. Nanosecond
  durations, pausing and the `u32` cap on the finish count are not part of this model, because
  Bevy's timer is not part of the repository.
- `despawn_recursive`: modelled as a plain despawn, because no entity here has children.
- The menu's `view`: a declarative iced layout consumed by the UI renderer.
- `main` and the plugin `build` bodies are not modelled as code. Only the schedule they set up
  is modelled (`AppSchedule`): which systems run in which state, and transitions at the start
  of a frame.
- The engine's parallel execution of systems within a frame. The model applies
  `shoot_ball`'s buffer before `despawn_fallen`'s. The two touch different entities, so the
  order does not change the result.
- The `Player` tag: declared but used by no system.
- Entity ids are a counter that only grows, so spawned entities get consecutive fresh ids. Bevy
  reuses entity indices under new generations; the model keeps only the freshness of a new id,
  which is all the systems rely on.
- The table holds only the entities the game spawns: the window entity and anything plugins
  create are not modelled. "Empty in the menu" holds within that restriction. Nothing is lost,
  because no query in src/game.rs matches an entity without `Ball`, `Pin` or `LevelUnload`.
