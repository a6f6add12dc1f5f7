# velgi gameplay in Dafny

A model of the gameplay layer of velgi, a vertical platformer built on the
starframe engine. The player climbs a procedurally generated tower. A spike
roller rises behind the camera. It sets tiles breaking, destroys everything
else it touches, and ends the run when it touches the player.

What is modelled:

- **Level generation** (`level.rs`, `level/tile.rs`).
  - `LevelGenerator::new` splits the pattern text into blocks at blank lines and drops `#` comment lines.
  - `generate` clears the world, spawns the fixtures, then generates the tiles.
  - The fixtures are the starting platform, and one background panel and two side walls per chunk.
  - `gen_tiles` picks a pattern for each side of each chunk. It walks the pattern's characters through the tile grid, and `Tile::pick` maps each symbol to a tile, with a coin flip for the lower-case symbols.
  - `Tile::spawn` turns a tile into an entity, with a break timer when its type has one.
- **Tile breaking** (`break_tiles`). The pass has two phases: it counts the timers of breaking tiles down, then despawns the tiles whose timer ran out.
- **Spike roller** (`spike_roller.rs`). It spawns below the level. Each tick it rises to the bottom row of the camera's view (never down), then sweeps its contacts:
  - a breakable tile starts breaking, with at most 0.25 s left;
  - the player ends the sweep with a hit;
  - anything else is despawned.
- **Bats** (`enemy.rs`). A passive bat activates when the player is within 8 units and the first collider its ray towards the player hits is on the player layer. An active bat flies at the player at speed 3.
- **Player** (`player.rs`). The horizontal speed follows the arrow-key axis. A jump needs the double jump, and the camera follows the player upwards.
- **Game state** (`main.rs`). This covers `init` and `reset`, and the `tick` that runs the systems in order while playing. It also holds the `Playing`/`GameOver` state machine: the game ends on a roller hit and restarts on ShiftLeft.

How the model is built:

- **World store.** The entity/component store is `World.World`. It is a class whose `records` sequence holds every entity spawned since the last `clear`; a handle is the index of its record. Its `dead` set holds the handles despawned since then.
- **Specification by state functions.** Every state-changing operation is a method proved against a function on the `Store` snapshot, for example `Tile.BreakTiles` against `Tile.AfterBreak`. The lemmas are stated about those functions.
- **Outside inputs.** What the engine computes is passed in as input:
  - the random pattern choices and coin flips;
  - the keys;
  - the physics step's new poses and the roller's contact list;
  - what each bat senses (its distance, the direction to the player, and the layer of the first collider its ray hits).

What the code does not do, and what follows from it as written:

- **Player controller.** The code has no grounding, coyote time, jump cut, knockback, aiming or shooting. `player::tick` restores the double jump at the end of every tick, so every jump press with the double jump available jumps (`Player.JumpAlwaysReady`).
- **Level generation.** The code spawns no enemies and no lights.
- **Tile breaking.** Only the spike roller sets tiles breaking; nothing else starts a break timer.
- **Bats and the player's layer.** The player's collider is built without a collision layer (`src/assets.rs:39-44`), while a bat activates only when the first hit's layer is the player layer. The physics library's default layer for such a collider is not part of this model; assuming it is not the player layer (1), a bat looking at the player sees the default layer and stays passive (`Game.PlayerColliderNeverSpotted`).
- **Player entity handle.** `main.rs` reads the player's entity from the value `PlayerState::spawn` returns, while `player::spawn` returns nothing. The model's `Player.Spawn` returns the new entity.

## Model

| member | source | states |
|---|---|---|
| Text.FindFrom | src/level.rs:24 | the result is the leftmost occurrence of the separator at or after `from`, or None when there is none |
| Text.Split | src/level.rs:23-24 | splitting always yields at least one piece |
| Text.JoinSplit | src/level.rs:23-24 | joining the pieces with the separator gives back the text |
| Text.SplitPiecesFree | src/level.rs:23-24 | no piece contains the separator |
| Text.ContainsChar | src/level.rs:24 | a one-character separator occurs exactly when the character is in the text |
| Text.SplitJoin | src/level.rs:28-30 | splitting a join of separator-free lines gives back the lines |
| Text.Lines | src/level.rs:28 | no line `lines()` yields contains a line break |
| Text.LinesFree | src/level.rs:28 | no piece of a split at line breaks contains one |
| Text.LinesJoin | src/level.rs:28 | in a text without carriage returns, the lines joined by line breaks give back the text, up to one final line break |
| Text.Join | src/level.rs:30 | `intersperse` then concatenation: the pieces with one separator between neighbours; `JoinSplit` and `SplitJoin` make it the inverse of `Split` |
| World.Moved | src/main.rs:125 | the physics step keeps the entity count and the dead set; an entity with a pose and a body takes its new pose, every other record is unchanged |
| World.World.constructor | src/main.rs:68 | a new world is empty |
| World.World.Clear | src/level.rs:39 | clear removes every entity |
| World.World.Spawn | src/level/tile.rs:79 | spawn appends one live entity with a fresh handle, not alive before; nothing else changes |
| World.World.Despawn | src/level/tile.rs:106 | despawn succeeds exactly when the entity is alive; it then marks it dead; it leaves the records alone |
| World.World.Move | src/main.rs:125 | the physics step moves the world to `Moved` of its old state |
| World.World.Update | src/level/tile.rs:86 | inserting a component rewrites that one live entity's record only |
| World.Camera.constructor | src/main.rs:75-82 | a camera holds the position and view size it was given |
| Tile.Symbol | src/level/tile.rs:31-39 | the symbol table: only X, x, W, w, C and c give a tile, never unbreakable ground; the chance is 0.5 exactly for the lower-case symbols and 1 otherwise |
| Tile.Pick | src/level/tile.rs:27-50 | the tile is the symbol's tile or Empty, never unbreakable ground; upper-case symbols always give their tile, lower-case ones exactly when the coin comes up heads, other symbols give Empty |
| Tile.CaseIsCertainty | src/level/tile.rs:31-43 | an upper-case symbol ignores the coin and equals its lower-case variant on heads; the lower-case variant on tails is Empty |
| Tile.TimeToBreak | src/level/tile.rs:52-59 | exactly the breakable tile types have a timer, and every timer is positive and at most 2 s |
| Tile.StrongerLastsLonger | src/level/tile.rs:55-57 | strong ground outlasts weak ground, which outlasts cloud |
| Tile.TileRecord | src/level/tile.rs:62-88 | a tile sits centred in its grid cell; it gets a timer exactly when its type has one, starting with the type's full time, not breaking, and blocking bullets unless it is a cloud; it has no body, enemy or player part |
| Tile.Spawn | src/level/tile.rs:62-88 | an empty tile adds nothing; any other tile adds its one record |
| Tile.Advance | src/level/tile.rs:97-98 | only a breaking timer counts down, by exactly the step; the flags are kept |
| Tile.AfterBreak | src/level/tile.rs:94-108 | the removed entities are exactly the breaking tiles whose stepped timer is at or below zero; every live record is stepped, nothing is spawned |
| Tile.BreakTiles | src/level/tile.rs:94-108 | the two-phase pass leaves the world in exactly the state `AfterBreak` describes |
| Tile.Ticks | src/level/tile.rs:91-94 | repeated break passes keep the world valid and its size |
| Tile.Countdown | src/level/tile.rs:96-107 | after n passes a breaking tile is alive exactly while its time minus n steps is positive, and its timer is then exactly that value |
| Tile.CountdownStep | src/level/tile.rs:96-107 | one pass of break_tiles takes a breaking timer from t - m·dt to t - (m+1)·dt, and the tile survives the pass exactly when the new value is positive |
| Tile.RemovedOnce | src/level/tile.rs:96-107 | a breaking tile is removed by exactly the pass that takes its timer from positive to zero or below |
| Level.Uncommented | src/level.rs:28-29 | the kept lines are lines of the input and none is a comment |
| Level.UncommentedKeepsOrder | src/level.rs:28-29 | filtering comments distributes over concatenation, so the kept lines stay in order |
| Level.UncommentedKeepsLines | src/level.rs:28-29 | every non-comment line is kept |
| Level.Pattern | src/level.rs:27-31 | a stored pattern is the block's uncommented lines joined by line breaks; its rows are stated by `PatternLines` |
| Level.New | src/level.rs:22-36 | there is one pattern per blank-line-separated block, and at least one |
| Level.BlocksOfNew | src/level.rs:23-33 | each pattern is the uncommented lines of its block joined by line breaks, and the blocks rejoined give back the pattern text |
| Level.PatternLines | src/level.rs:27-31 | a pattern's rows are exactly the uncommented lines of its block |
| Level.Walk | src/level.rs:86-100 | the character walk of gen_tiles; `WalkSymbols`, `WalkRow` and `WalkIsGrid` state where each character lands |
| Level.WalkSymbols | src/level.rs:89-99 | the walk yields one cell per non-newline character and no cell for a line break |
| Level.RowCells | src/level.rs:89-100 | the j-th character of a row lands j steps from the row's start in the side's direction |
| Level.GridCells | src/level.rs:86-100 | every cell lies within the rows below the starting row |
| Level.GridCellAt | src/level.rs:86-100 | the character at row r, column j of a pattern lands at column start + side·j, r rows below the top |
| Level.WalkRow | src/level.rs:89-100 | walking a row without a line break places its characters one after another in the direction of the side |
| Level.WalkIsGrid | src/level.rs:86-100 | the character walk of gen_tiles places exactly the pattern's rows as the grid |
| Level.PlacementOf | src/level.rs:83-88 | placement 2·chunk + s walks its chosen pattern from side s's start column, beginning at the chunk's top row |
| Level.Placed | src/level.rs:96-97 | the entities a placement spawns, one `Tile::spawn` per walked cell in walk order; `PlacedIsScenery` states they are tiles only |
| Level.LevelTiles | src/level.rs:78-103 | the tiles of the first n placements in order, chunk by chunk, left side before right; stated by `GenTiles` and `TilesAreScenery` |
| Level.GenTiles | src/level.rs:78-103 | gen_tiles appends exactly the tiles of all 60 placements, in order, and despawns nothing |
| Level.GenChunk | src/level.rs:80-101 | one chunk appends the tiles of its left and its right placement |
| Level.SpawnPattern | src/level.rs:86-100 | walking a pattern appends exactly the tiles its symbols pick, at the walked cells |
| Level.StartingPlatform | src/level.rs:47-51 | the platform tiles row by row; its layout is stated by `StartingPlatformLayout` |
| Level.Backdrop | src/level.rs:53-75 | the backdrop chunk by chunk; its layout is stated by `BackdropLayout` |
| Level.Fixtures | src/level.rs:46-76 | everything spawn_fixtures adds: the platform, then the backdrop |
| Level.FixturesUnbreakable | src/level.rs:46-76 | the fixtures are 8 platform tiles and 3 records for each of the 32 chunks, and none of them can break |
| Level.StartingPlatformLayout | src/level.rs:47-51 | the platform is unbreakable tiles without timers, alternately in the left and the right column, one pair per row from row -4 up |
| Level.BackdropLayout | src/level.rs:53-75 | every chunk from -1 up gets its background panel, then its side walls at x = -4 and x = 24 |
| Level.SpawnFixtures | src/level.rs:46-76 | spawn_fixtures appends exactly the platform, then the backdrop |
| Level.SpawnChunkBackdrop | src/level.rs:56-74 | one chunk of the backdrop appends the panel and the two walls |
| Level.Generate | src/level.rs:38-42 | generate leaves exactly the fixtures followed by the generated tiles, all alive |
| Level.PlacedIsScenery | src/level/tile.rs:79-87 | tiles have no player, enemy or body |
| Level.TilesAreScenery | src/level.rs:78-103 | no generated tile is a player, an enemy or a body |
| Level.LevelIsScenery | src/level.rs:38-42 | a generated level contains no player, no enemy and no body |
| Level.StackedPair | src/level.rs:86-100 | the pattern "X\nX" gives exactly two strong tiles stacked in one column, whatever the coins |
| SpikeRoller.RollerRecord | src/spike_roller.rs:15-34 | the roller spawns mid-level, half a row above the bottom of a view 14 rows high centred at height 0, so below the starting view (camera at height 3), as a full-width sensor strip on the roller layer |
| SpikeRoller.Spawn | src/spike_roller.rs:15-34 | spawn appends the roller and returns its handle |
| SpikeRoller.Rise | src/spike_roller.rs:49-54 | only the roller's height changes: it becomes the larger of its old height and the camera target |
| SpikeRoller.Clamp | src/spike_roller.rs:63-65 | a touched tile is breaking with 0.25 s or its own time left, whichever is less; the bullet flag is kept |
| SpikeRoller.Sweep | src/spike_roller.rs:58-74 | the contact sweep keeps the entity count and only despawns |
| SpikeRoller.Ticked | src/spike_roller.rs:42-75 | the roller's tick keeps the entity count and only despawns |
| SpikeRoller.Tick | src/spike_roller.rs:36-75 | tick leaves the world and the hit flag `Ticked` describes |
| SpikeRoller.Touched | src/spike_roller.rs:58-61 | the touched entities are exactly those in the contact list |
| SpikeRoller.SweepIsSwept | src/spike_roller.rs:58-72 | without the player among the contacts, the sweep equals clamping every touched tile and despawning every other touched entity at once |
| SpikeRoller.HitIffPlayerContact | src/spike_roller.rs:58-74 | the sweep reports a hit exactly when the player is among the contacts |
| SpikeRoller.StopsAtPlayer | src/spike_roller.rs:66-67 | the sweep stops at the player's first contact: contacts after it have no effect |
| SpikeRoller.TilesSurvive | src/spike_roller.rs:63-65 | a live breakable tile is never despawned by the roller; its timer never grows, its bullet flag is kept, and a breaking tile stays breaking |
| SpikeRoller.RemovedWereContacted | src/spike_roller.rs:68-71 | every entity the sweep despawns was among the contacts, is not the player and is no tile |
| SpikeRoller.SweepKeepsOthers | src/spike_roller.rs:58-72 | a record without a break timer is never rewritten |
| SpikeRoller.SweepKeepsComponents | src/spike_roller.rs:58-72 | the sweep changes no player, body, enemy or pose component |
| SpikeRoller.TickKeepsComponents | src/spike_roller.rs:36-75 | the whole tick keeps every player, body and enemy component |
| SpikeRoller.RollerRises | src/spike_roller.rs:42-54 | the roller's height becomes the larger of its old height and the camera target, its x is kept; when the roller's handle is dead or lacks its pose or collider, the tick changes nothing and reports no hit |
| SpikeRoller.FirstTickLiftsRoller | src/spike_roller.rs:17-20 | the roller spawns at height -6.5, 3 below the -3.5 that the starting camera height 3 pulls it up to |
| Enemy.NewBat | src/enemy.rs:14-16 | a bat starts passive |
| Enemy.EnemyRecord | src/enemy.rs:18-35 | an enemy has a weightless particle body of mass 1 at rest and a 0.25 circle on the enemy layer |
| Enemy.Spawn | src/enemy.rs:18-35 | spawn appends the enemy's record |
| Enemy.BatStep | src/enemy.rs:46-91 | one bat's step keeps its pose, collider, mesh, timer and player parts and never deactivates it; its cases are stated by `BatStepCases` |
| Enemy.Ticked | src/enemy.rs:37-94 | the enemy tick keeps the entity count and the dead set; `TickedFrame` states which records change |
| Enemy.Tick | src/enemy.rs:37-94 | tick leaves the world that `Ticked` describes |
| Enemy.BatVisit | src/enemy.rs:46-91 | one visit rewrites that bat only, by its step |
| Enemy.BatStepCases | src/enemy.rs:54-89 | a bat never deactivates; an active bat flies at speed 3 towards the player; a passive one activates exactly when within 8 with the player layer hit first |
| Enemy.StaleSkipped | src/enemy.rs:48-50 | a bat whose body is gone is skipped |
| Enemy.TickedFrame | src/enemy.rs:37-45 | only enemies are rewritten, and nothing at all when the player has no pose |
| Enemy.OnceActiveAlwaysActive | src/enemy.rs:54-57 | an active bat stays alive and active for any number of enemy ticks (over whole game ticks the spike roller can still despawn it) |
| Enemy.UnseenStaysPassive | src/enemy.rs:58-89 | a bat that never sees the player stays passive for any number of enemy ticks |
| Player.PlayerRecord | src/player.rs:19-35 | the player starts at (0.5, 0.5) with the double jump, a mass 1 particle body at rest, no tile or enemy part |
| Player.Spawn | src/player.rs:19-35 | spawn appends the player and returns its handle |
| Player.PlayerStep | src/player.rs:54-61 | one player's step leaves the double jump available and keeps every component but the body's velocity; `StepEffect` states the velocity |
| Player.Ticked | src/player.rs:37-63 | the player tick keeps the entity count and the dead set and rewrites only players |
| Player.Tick | src/player.rs:37-63 | tick leaves the world that `Ticked` describes |
| Player.FirstPlaced | src/player.rs:66-73 | the followed player is the first live entity with a player state and a pose, and none comes before it |
| Player.Followed | src/player.rs:65-78 | the camera height after following never falls below the old one; `CameraFollows` states where it lands |
| Player.MoveCamera | src/player.rs:65-78 | the camera's height becomes `Followed`; nothing else about the camera changes |
| Player.StepEffect | src/player.rs:54-61 | the horizontal speed is 5 × input; the vertical speed is 10 exactly on a jump with the double jump, otherwise kept; the double jump is available afterwards; nothing else changes |
| Player.JumpAlwaysReady | src/player.rs:56-61 | after any tick every player has the double jump, so the next jump press always jumps |
| Player.CameraFollows | src/player.rs:75-77 | the camera never moves down; it reaches at least the player's height, and only to the player or not at all |
| Player.NoPlayerNoMove | src/player.rs:66-73 | without players the camera stays |
| Game.Next | src/main.rs:121-150 | the gameplay state after a tick; its transitions are stated by `NextCases` |
| Game.NextCases | src/main.rs:121-150 | the game ends exactly on a hit while playing, and restarts exactly on ShiftLeft after a game over |
| Game.PlayStep | src/main.rs:122-143 | a playing tick keeps the world valid |
| Game.State.Init | src/main.rs:68-100 | init builds the level, then the player, then the roller, with the camera at (10, 3) showing 14 rows; the player's body check holds |
| Game.State.Reset | src/main.rs:55-64 | reset leaves a fresh level, player and roller and the camera back at height 3 |
| Game.State.Tick | src/main.rs:102-153 | while playing, the tick runs `PlayStep` and moves to `Next`; after a game over it restarts on ShiftLeft and changes nothing otherwise; the camera keeps its x and its view size; it always returns Some |
| Game.StartIsPlayable | src/main.rs:60-63 | a fresh start has exactly one player and its body is there |
| Game.BodiesKept | src/main.rs:122-131 | steps that only despawn and keep player bodies keep the player body check passing |
| Game.MovingKeepsKinds | src/main.rs:123-125 | the player, enemy and physics steps keep every entity's kind |
| Game.PlayKeepsBodies | src/main.rs:122-143 | a playing tick never loses the player's body, so the next tick's check passes |
| Game.PlayFacts | src/main.rs:127-134 | the camera never moves down, and the game ends exactly when the roller is there and touches the player |
| Game.GameOverRecord | src/main.rs:136-141 | the game-over message sits at the given camera position, in front (negative depth), with the game-over mesh and no body, collider or gameplay component |
| Game.GameOverShown | src/main.rs:133-142 | a playing tick adds an entity only on a hit, and then exactly one: the live game-over message at the camera's x and its updated height |
| Game.PlayerColliderNeverSpotted | src/enemy.rs:79-89 | a ray whose first hit is on a layer other than the player layer never activates a bat; that this is the player's collider as built assumes the physics library's default layer is not the player layer |

## Left out

- Rendering is not modelled: meshes and materials are only named by a `Mesh` tag, and lighting, the environment map, `draw` and the window are left out.
- The lighting-quality keys of `tick` (`src/main.rs:103-119`) are left out because they only affect the renderer.
- The physics engine is not modelled: integration, gravity, contact generation, ray casting and the distance and direction computations are inputs (`Frame.moved`, `Frame.contacts`, `Enemy.Sight`).
- The physics step's effect on velocities is not modelled; only new poses are applied.
- The random number generator is not modelled: pattern choices and coin flips are inputs (`choices`, `flips`). A uniform choice and a fair coin are not modelled.
- Collision layer masks are not modelled because they only feed the physics engine; `physics_layers::setup` does not define the enemy and spike-roller layers it is used with.
- Collider materials are not modelled; they only affect friction and restitution.
- `player::handle_bullets` is not part of this model: it is called from `main.rs` but not defined in the player file.
- The roller's kinematic body is left out: it is not a component of the roller entity.
- Integer and floating-point widths are not modelled. Positions, speeds and timers are exact reals, so f32/f64 rounding is not captured. The bat's direction for a zero distance (a division by zero) is whatever the input says.
- Entity handles are indices that are not reused until the world is cleared; hecs generational handles are not modelled.
- Query order is not modelled. hecs queries are taken in ascending handle order, which only matters for `move_camera` with several players.
- The roller's sweep follows the contact list in the given order.
- Player.FirstPlaced: the "first" player of the pose query is the lowest live handle, because hecs' archetype iteration order is not specified.
- SpikeRoller.Sweep: its own contract states only the size and the dead set; its behaviour is stated by `SweepIsSwept`, `HitIffPlayerContact`, `StopsAtPlayer`, `TilesSurvive` and `RemovedWereContacted`.
- Game.PlayStep: its own contract states only validity; its meaning is stated by `PlayKeepsBodies` and `PlayFacts`.
