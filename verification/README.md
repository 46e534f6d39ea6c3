# bevy-snake core, modelled in Dafny

A model of the integer logic of a small Bevy Snake game, as three independent pieces:

- **Snake head movement** (`snake.dfy`, module `Snake`). `spawn_snake` adds one entity tagged `SnakeHead` at the origin. `snake_movement` moves every head by the keys held in that call. There are four independent checks: D is x+1, W is y+1, A is x−1 and S is y−1. The `f32` translation is modelled as whole units.
- **Food placement** (`food.dfy`, module `Food`). `spawn_system` adds one entity tagged `Food`. Its `Position` is `(r % GRID_WIDTH) as i16` and `(r' % GRID_HEIGHT) as i16`, where `r` and `r'` are two random `u16` draws. The draws are parameters here. The `as i16` cast is written out as a two's-complement reinterpretation (`Components.AsI16`). Food is placed without checking whether the cell is occupied.
- **Game over** (`game.dfy`, module `Game`). `game_over_system` spawns one `GameOver` marker when at least one end event is pending. The tick rule comes from the assertions in the game tests: the state is `(head, over, markers)`, and `Tick(dir)` moves the head one cell. The first move outside `[0,10)×[0,10)` ends the game and adds exactly one marker. After that, the model lets ticks change nothing, position and marker count alike.

Shared pieces:
- `components.dfy`: the `u16`/`i16` newtypes and `Position`.
- `grid.dfy`: the 10×10 grid constants and the bounds predicate.
- `entities.dfy`: a world is a sequence of entities, and a filtered query is a `Count`.

Two choices the tests leave open, made explicit here:
- `Game.Tick` stores the off-grid cell the head moved to on the game-over tick (the trace comment at src/game.rs:49 reads `y: 10`). The tests assert only that the position is frozen afterwards.
- The marker count is frozen with the rest of the state, so it stays at one for good. The tests check the count only up to the game-over tick (src/game.rs:47, 52); what the head's movement system would do on later ticks is not part of this model.

## Model

| member | source | states |
|---|---|---|
| Components.AsI16 | src/food.rs:25-26 | the `as i16` cast keeps the value or subtracts 2^16, and the result is non-negative exactly when the `u16` is below 0x8000 |
| Snake.Step | src/snake.rs:28-41 | one call moves a head by +1/−1/0 on x (D vs A) and on y (W vs S), and never changes z |
| Snake.StepMirrorInverse | src/snake.rs:29-40 | holding the opposite keys on the next call returns the head exactly to where it was |
| Snake.StepCommutes | src/snake.rs:29-40 | two calls with different key sets reach the same translation in either order |
| Snake.NoKeyNoMove | src/snake.rs:28-41 | with no key held the translation is unchanged |
| Snake.UpOnly | src/snake.rs:63-86 | only W held: y increases by exactly one and x is unchanged |
| Snake.RightOnly | src/snake.rs:111-120 | only D held: x increases and y is unchanged |
| Snake.DownThenLeft | src/snake.rs:123-151 | S on one call then A on the next leaves both coordinates strictly below the start |
| Snake.IndependentKeys | src/snake.rs:29-40 | W+S and A+D cancel on their axis, all four keys cancel, and W+D moves one cell diagonally |
| Snake.SpawnSnake | src/snake.rs:8-22 | spawning appends one `SnakeHead` entity at the origin, leaves the rest of the world as it was and raises the head count by one |
| Snake.SpawnExactlyOneHead | src/snake.rs:48-61 | spawning into an empty world gives exactly one head |
| Snake.SnakeMovement | src/snake.rs:24-42 | every head gets the same displacement, other entities are untouched and the head count is unchanged |
| Food.Reduce | src/food.rs:25-26 | `(r % dim) as i16` lies in `[0, dim)` and equals the `u16` remainder, so the cast never wraps |
| Food.FoodPosition | src/food.rs:24-27 | for any pair of draws, 0 ≤ x ≤ GRID_WIDTH−1 and 0 ≤ y ≤ GRID_HEIGHT−1 |
| Food.FoodPositionExactly | src/food.rs:25-26 | the draws give cell c iff c is on the grid and each draw is congruent to its coordinate mod 10, so x depends only on the first draw and y only on the second |
| Food.EveryCellReachable | src/food.rs:25-26 | every grid cell is produced by some pair of draws |
| Food.SpawnFood | src/food.rs:14-29 | one call appends exactly one `Food` entity on the grid and leaves the rest of the world as it was |
| Food.SpawnFromEmpty | src/food.rs:40-58 | from an empty world, exactly one food entity exists and it lies on the grid |
| Game.GameOverSystem | src/game.rs:5-10 | a marker is added iff at least one end event is pending, and at most one per call |
| Game.GameOverSystemIgnoresCount | src/game.rs:5-9 | one pending event or many give the same single marker |
| Game.Tick | src/game.rs:38-66 | a tick moves an in-play head one cell; the game ends iff the new cell is off the grid; one marker is added on that tick only; an ended game is frozen |
| Game.Run | src/game.rs:54-66 | a sequence of ticks never removes markers and leaves an ended game unchanged |
| Game.RunKeepsConsistent | src/game.rs:46-52 | 0 markers while in play and exactly 1 on reaching game over, as the tests assert; that the count then stays 1 follows from the model freezing the whole state |
| Game.March | src/game.rs:38-131 | holding one direction for k ticks from an on-grid head ends the game iff the cell k steps away is off the grid; otherwise the head is on that cell |
| Game.FrozenAfterGameOver | src/game.rs:54-66 | once over, a further tick leaves the state, and so the head position, unchanged |
| Game.UpTrace | src/game.rs:19-67 | from (3,3) moving Up, six ticks reach (3,9) with no marker, the seventh gives exactly one marker, and the eighth changes nothing |
| Game.LeftTrace | src/game.rs:69-100 | from (3,3) moving Left, x=0 is still in play and the tick to x=−1 gives exactly one marker |
| Game.RightTrace | src/game.rs:102-132 | from (3,3) moving Right, the tick reaching x=10 gives exactly one marker |

## Left out

- Bevy `App`, `Commands`, `Query`, events and system ordering: engine runtime. Worlds are sequences of entities, and each system is one function call.
- Sprites, colours, the transform scale, the camera and plugin setup (src/main.rs, src/snake.rs:9-20, src/food.rs:15-23): presentation only.
- `size_scaling`, `position_translation`, `scale_sprite`, `convert`, `translate_position` and `Size` (src/grid.rs, src/components.rs:9-23): floating-point window arithmetic.
- Snake.Step: the source's `f32` translation is modelled as exact integers. The two agree while coordinates stay below 2^24 in magnitude; `f32` rounding beyond that is not modelled.
- Keys other than W, A, S and D are ignored by the movement system, so they are not modelled.
- The random number generator: the two `u16` draws are parameters.
- Food.Reduce: requires a divisor of at most 0x8000. Above that, the remainder could wrap when cast to `i16`. Both grid dimensions are 10.
- `println!` of the game-over message (src/game.rs:8): output only.
- The snake's `movement_system`, `movement_input_system`, `Head`, `Segments` and `LastTailPosition` used by the game tests are not part of this model. The tick rule is built from those tests' assertions alone. The starting cell (3,3) comes from their trace comments.
- Snake bodies, growth, eating, the no-reversal rule, occupancy-avoiding food and a second player: none of them is implemented in the modelled code.
