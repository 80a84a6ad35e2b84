# Maze game: movement, collision and win logic

A Dafny model of a small browser maze game. One square player, 20 units on
a side, moves through a 400 x 300 arena at 5 units per frame. The arena holds
six fixed rectangular walls. The player is steered by held keys: WASD in
either case and the arrow keys. Each frame the game does three things:

1. It moves the player. The displacement from the held keys is added to the
   position and clamped to the arena. The whole move is rejected if the
   clamped position overlaps a wall, where every wall is shrunk by 1 unit on
   each side.
2. It checks whether the player touches a wall with no tolerance. This only
   drives a warning message.
3. It declares a win when the player's corner is closer than 20 units to the
   goal's corner. A win detaches the key listeners.

A separate table authors four levels, each with walls, two start positions,
a goal and an arena size. The model states that table as a constant and
proves its well-formedness by evaluation.

Modules:

- `Geometry` (geometry.dfy): points, walls as `[x, y, width, height]`, the
  shrunk-wall overlap test, the scan over all walls, and exact
  squared-distance comparison.
- `Maze` (maze.dfy): the constants, walls and goal of script.js, and the
  held-key map. It has the specification functions `StepX`/`StepY`,
  `Candidate` and `MoveTarget`, and class `Game`, whose fields are the player
  position, `keysPressed` and `inputEnabled` (whether the key listeners are
  attached). It also holds the lemmas about movement, collision and winning.
- `Levels` (levels.dfy): the `LEVELS` table and its well-formedness lemmas.

Notes on the model:

- The goal is modelled where script.js puts it, `(width-60, height-60) =
  (340, 240)`. The level table puts level 1's goal at `(360, 260)`;
  `Levels.Level1MatchesGame` states both values.
- The win test computes `sqrt(dx² + dy²) < 20` in floating point. The model
  compares `dx² + dy² < 400` on integers. `Maze.WinByDistance` proves the two
  agree for any non-negative real whose square is the squared distance.
- Removing the key listeners is modelled as `inputEnabled := false`. While it
  is false, the key handlers leave `keysPressed` unchanged. The game loop
  keeps running, so a key held at the moment of winning keeps moving the
  player. `Maze.HeldKeyDriftsPastGoal` and `Maze.WinLeavesHeldKeyActive`
  show a player holding `d` from `(320, 240)`. It wins on reaching
  `(325, 240)`, its key-up is not heard, and it is carried on to
  `(360, 240)`, which is no longer within win distance.
- `resetGame` does not clear `keysPressed`, and neither does the model.
- The displacement is not limited to one speed step per axis. A letter key
  and its arrow key both add, so holding `d` and `ArrowRight` moves 10 units
  per frame. There is also no separate fast path for "no key held": the
  clamp and the wall test always run. An in-bounds player with no key held
  stays where it is anyway (`Maze.IdleMoveIsNoOp`).
- The key-by-key accumulation of `dx`/`dy` inside `movePlayer` is its own
  method, `Maze.HeldDisplacement`, which `Maze.Game.MovePlayer` calls. The
  clamp, the wall test and the all-or-nothing update stay in `MovePlayer`.
- The game's numbers are all small integers, so JavaScript's floating-point
  arithmetic is exact on them. The model uses unbounded integers.

## Model

| member | source | states |
|---|---|---|
| Geometry.AnyOverlap | script.js:174-192 | The scan over the walls that stops at the first hit reports a hit exactly when some wall, shrunk by the margin, overlaps the player's hitbox |
| Geometry.AnyOverlapMonotone | script.js:183-188 | Shrinking walls more can only remove hits: a hit under the larger margin is also a hit under the smaller one |
| Geometry.DistanceBySquares | script.js:238-243 | For a non-negative real distance whose square is the squared distance, `distance < r` holds exactly when the squared distance is below `r²` |
| Maze.Clamp | script.js:148-151 | The clamped coordinate lies in `[0, hi]` and is the value there nearest to the unclamped one |
| Maze.HeldDisplacement | script.js:112-141 | The displacement accumulated key by key equals speed × (sources pushing one way − sources pushing the other way), per axis |
| Maze.StepRange | script.js:112-141 | Each per-frame displacement is one of -10, -5, 0, 5, 10 |
| Maze.CaseVariantsCountOnce | script.js:116-118 | Holding `W` as well as `w` does not change the vertical displacement |
| Maze.ArrowAddsToLetter | script.js:125-141 | `d` and `ArrowRight` held together with no left key give a displacement of two speed steps |
| Maze.OppositeKeysCancel | script.js:119-127 | `a` and `d` held together, with the arrows balanced, give no horizontal displacement |
| Maze.MoveStaysInBounds | script.js:147-161 | From a position inside `[0,380] × [0,280]`, the move stays inside it whatever keys are held |
| Maze.MoveAllOrNothing | script.js:153-161 | If the clamped candidate collides, both coordinates stay as they were; otherwise both become the candidate's |
| Maze.MoveKeepsClear | script.js:153-161 | A position in bounds and clear of the walls under the 1-unit test is still so after the move |
| Maze.RunKeepsClear | script.js:103-108 | By induction over frames: any run of frames, with any keys held, from a clear in-bounds position ends clear and in bounds |
| Maze.ReachableIsClear | script.js:20-40 | Every position reachable from the start `(40,40)` is in bounds and clear of all six walls |
| Maze.IdleMoveIsNoOp | script.js:143-161 | With no movement key held, an in-bounds player does not move |
| Maze.StartIsClear | script.js:20-40 | The start `(40,40)` is in bounds, touches no wall even with no tolerance, and is not a win |
| Maze.CollisionImpliesTouching | script.js:183-188 | A position rejected by the 1-unit test is also reported by the zero-tolerance warning test |
| Maze.TouchingWithinBuffer | script.js:220-225 | The converse fails: at `(81,40)` the player overlaps the first wall by one unit, which draws a warning but is not a collision |
| Maze.WinByDistance | script.js:237-243 | The integer win test agrees with "Euclidean distance to the goal `(340,240)` is below 20" |
| Maze.WinNearGoal | script.js:237-243 | A winning position lies strictly within 20 units of the goal on each axis |
| Maze.HeldKeyDriftsPastGoal | script.js:103-108 | Holding `d` on the row y = 240, each frame from x = 320 to x = 355 moves the player 5 units right; `(320,240)` is not a win, `(325,240)` is, and `(360,240)` is not |
| Maze.WinLeavesHeldKeyActive | script.js:95-108 | From `(320,240)` with `d` held and input enabled: the first frame wins and disables input (lines 247-248), the key-up after it leaves `d` held, and later frames carry the player to `(360,240)`, outside win distance |
| Maze.Game.constructor | script.js:20-63 | On page load the player is at the start with no keys recorded and the listeners attached; the state is valid |
| Maze.Game.HandleKeyDown | script.js:86-92 | With input enabled, exactly the event's key becomes held and no other entry changes; with input disabled, nothing changes |
| Maze.Game.HandleKeyUp | script.js:95-100 | With input enabled, exactly the event's key becomes released and no other entry changes; with input disabled, nothing changes |
| Maze.Game.MovePlayer | script.js:111-162 | The new position is `MoveTarget` of the old position under the held keys, and a valid state stays valid |
| Maze.Game.CheckCollisions | script.js:202-234 | Reports touching exactly when some wall overlaps the player's hitbox with zero tolerance |
| Maze.Game.CheckWin | script.js:237-250 | Reports a win exactly when the squared distance to the goal is below 400; on a win input becomes disabled, otherwise it is left as it was |
| Maze.Game.Tick | script.js:103-108 | One frame moves the player, reports touching and winning at the new position, and disables input on a win |
| Maze.Game.ResetGame | script.js:253-265 | The player returns to `(40,40)`, input is enabled again, held keys are kept, and the state is valid |
| Maze.Game.EmergencyReset | script.js:268-276 | The player returns to `(40,40)`; input stays enabled or disabled as it was |
| Levels.LevelSizes | levels.js:9-102 | There are four levels, with arenas 400×300, 500×400, 600×500 and 700×700 in order |
| Levels.Level1WellFormed | levels.js:11-24 | Level 1: walls have positive size and lie inside the arena, touching neither start nor the goal; the starts are distinct; starts and goal fit in the arena; neither start is within win distance of the goal |
| Levels.Level2WellFormed | levels.js:27-44 | The same conditions hold for level 2 |
| Levels.Level3WellFormed | levels.js:47-72 | The same conditions hold for level 3 |
| Levels.Level4WellFormed | levels.js:75-101 | The same conditions hold for level 4 |
| Levels.AllLevelsWellFormed | levels.js:9-102 | Every level in the table is well formed |
| Levels.StartsPassMoveTest | levels.js:20-98 | Each level's two starts also pass the 1-unit move-rejection test against that level's walls, so a freshly placed player satisfies the movement invariant |
| Levels.Level1MatchesGame | levels.js:12-23 | Level 1's walls, first start and arena equal script.js's; its goal `(360,260)` differs from the game's `(340,240)` |

## Left out

- Rendering and browser glue are not modelled: `createWalls`, `updatePlayerPosition`, style assignments, element lookup and `preventDefault`. They write to the page and never feed back into the game state.
- Message text, colour and the `setTimeout` calls that clear messages are not modelled. They are display-only timers.
- The `requestAnimationFrame` loop and listener registration are not modelled. One frame is `Maze.Game.Tick`; attaching and detaching listeners is the `inputEnabled` flag.
- `Math.sqrt` and `Math.pow` are not modelled in floating point. The model uses the exact integer comparison of squared distances, which `Maze.WinByDistance` shows agrees with the real-number square root. IEEE-754 gives the same answer here: the squared distances are integers far below 2^53 and so exact; `Math.sqrt` is correctly rounded and monotone; and `sqrt(400)` is exactly 20.
- Level loading, level progression, a level index, two-player mode and delayed level transitions are not modelled. The game script never reads the level table or a second start, so none of these exist in the code.
- The goal's own size is not given by the source, so `Levels.WellFormed` tests the goal against the walls with a 20-unit hitbox, the player's size.
