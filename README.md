# Tetris game core in Dafny

This project models the game logic of a React Tetris clone and proves properties about it. The logic has two parts:

- **Board state machine** (`board.dfy`, module `TetrisBoard`, from `src/hooks/useTetrisBoard.ts`). It covers:
  - the empty grid;
  - the collision test;
  - the two square-matrix rotations;
  - the board reducer with its four actions `start`, `drop`, `commit` and `move`.
- **Session controller** (`tetris.dfy`, module `Tetris`, from `src/hooks/useTetris.ts`). It covers:
  - points per lock;
  - writing the piece into the grid;
  - the bottom-up row-clear loop;
  - the lock pipeline of `commitPosition`;
  - lock delay and the timer tick of `gameTick`;
  - the hold key with `swapHolding`;
  - `startGame`;
  - the speed keys;
  - the rendered grid.

How the source becomes Dafny:

- The collision test and the rotations are loops in the source, so they stay methods with loops (`HasCollisions`, `RotateBlockClockwise`, `RotateBlockAnticlockwise`). Each is proved equal to a specification function (`Collides`, `Clockwise`, `Anticlockwise`). The lemmas are proved about those functions.
- The reducer is a pure transition function (`BoardReducer`). Its `move` case is also given as the method `ApplyMove`, which runs the rotation loops and the collision loop.
- In-place work is modelled as methods:
  - `AddShapeToBoard` writes cells one by one;
  - `ClearFullRows` scans from the bottom up with a splice;
  - `Lock` and `Swap` compute the queue pop/unshift and the new state.
- The controller's eight state fields plus the board state form the class `Tetris.Game`.
  - Each handler is a method whose `ensures` ties the new state to a pure step function of the old state. The step functions act on the value `Session`:
    - `StartStep` (as written) and `RestartStep` (corrected);
    - `LockStep` and `TickStep`, which take the grid for the lock's spawn test as a flag;
    - `HoldStep` and `MoveStep`.
  - The class has a constant `corrected`. With `false`, the controller runs the source as written. With `true`, it runs the two corrections listed under "## Findings".
  - The properties of the game are lemmas about those step functions.
  - The class invariant `Valid` holds across every handler. It says:
    - the grid is 20×10;
    - the grid has no full row;
    - the falling piece's orientation is a square of size at most 4;
    - the piece's cells lie inside the grid;
    - the queue holds three blocks while playing;
    - the ramp is one of 800, 770, …, 80;
    - in the corrected controller, the falling piece does not overlap the stack while playing.

Random draws (`getRandomBlock`) are parameters of the operations (`first`, `drawn`, `q0`–`q2`). The shape catalog `SHAPES` is a parameter of type `Block -> Shape`. Its shapes are required to be square and at most 4 wide.

The source handles an error case in two places, and the model returns `Option` for both:
- `getPoints` throws on more than 4 cleared rows;
- the reducer's `commit` builds an empty grid of negative height, which throws, when handed more than 20 rows.

Both errors are proved unreachable from a valid session (`LockNeverThrows`, `TickKeepsInvariant`).

The model follows the code in two places where it differs from common Tetris rules:

- **A second hold before a lock.** The usual hold rule lets a second press swap the pieces back. In the code, the Shift handler tests `!justHeld`, and only a lock clears that flag (`useTetris.ts:204`, `83`). So a second hold does nothing: `Tetris.SecondHoldIsIgnored`.
- **Speed ramp.** The code lowers the ramp by 30 per lock while it is above 100, so it ends at 80 ms. There is no 100–200 ms floor.

Two code behaviours are defects: the game-over test and `startGame`. Each is modelled as written and also corrected; see "## Findings".

## Model

| member | source | states |
|---|---|---|
| TetrisBoard.EmptyBoard | src/hooks/useTetrisBoard.ts:37-41 | the grid has exactly `height` rows, each BOARD_WIDTH (10) cells wide and all cells Empty |
| TetrisBoard.Compact | src/hooks/useTetrisBoard.ts:51 | the compacted shape has no more rows than the shape, and every kept row has a set cell and is a row of the shape |
| TetrisBoard.CompactKeepsSetRows | src/hooks/useTetrisBoard.ts:51 | every shape row with a set cell survives compaction, so only all-false rows are dropped |
| TetrisBoard.HasCollisions | src/hooks/useTetrisBoard.ts:43-66 | the nested-loop flag is true exactly when some set cell of the compacted shape lands below the last row, beyond the width, left of column 0, or on a non-Empty cell |
| TetrisBoard.NoCollisionMeansInBoundsAndEmpty | src/hooks/useTetrisBoard.ts:54-59 | a placement that does not collide lies inside the grid and covers only Empty cells |
| TetrisBoard.BlankShapeNeverCollides | src/hooks/useTetrisBoard.ts:51-59 | a shape with no set cell never collides, wherever it is placed |
| TetrisBoard.SpawnIsLegalOnEmptyBoard | src/hooks/useTetrisBoard.ts:122-130 | any square shape up to 7 wide placed at row 0, column 3 of an empty 20×10 grid does not collide |
| TetrisBoard.SmallShapeInBounds | src/hooks/useTetrisBoard.ts:4-5 | a square shape up to 4 wide placed on row 0 at columns 0 to 6 of a 20×10 grid lies inside the grid |
| TetrisBoard.Clockwise | src/hooks/useTetrisBoard.ts:101-116 | a clockwise turn of an n×n matrix is again n×n |
| TetrisBoard.Anticlockwise | src/hooks/useTetrisBoard.ts:84-99 | an anticlockwise turn of an n×n matrix is again n×n |
| TetrisBoard.RotateBlockClockwise | src/hooks/useTetrisBoard.ts:101-116 | the fresh matrix filled by the two loops is the clockwise turn: cell (r, c) goes to (c, n-1-r) |
| TetrisBoard.RotateBlockAnticlockwise | src/hooks/useTetrisBoard.ts:84-99 | the fresh matrix filled by the two loops is the anticlockwise turn: cell (r, c) goes to (n-1-c, r) |
| TetrisBoard.RotationsAreInverse | src/hooks/useTetrisBoard.ts:84-116 | on square matrices, a clockwise turn and an anticlockwise turn undo each other, in either order |
| TetrisBoard.HalfTurn | src/hooks/useTetrisBoard.ts:101-116 | two clockwise turns reflect the matrix through its centre |
| TetrisBoard.FourClockwiseTurns | src/hooks/useTetrisBoard.ts:101-116 | four clockwise turns give back the original matrix |
| TetrisBoard.FourAnticlockwiseTurns | src/hooks/useTetrisBoard.ts:84-99 | four anticlockwise turns give back the original matrix |
| TetrisBoard.ClockwiseKeepsCellCount | src/hooks/useTetrisBoard.ts:101-116 | a clockwise turn keeps the number of set cells |
| TetrisBoard.AnticlockwiseKeepsCellCount | src/hooks/useTetrisBoard.ts:84-99 | an anticlockwise turn keeps the number of set cells |
| TetrisBoard.StartState | src/hooks/useTetrisBoard.ts:122-130 | `start` gives an all-Empty 20×10 grid with the drawn block at row 0, column 3, in its catalog orientation |
| TetrisBoard.DropState | src/hooks/useTetrisBoard.ts:131-133 | `drop` adds exactly 1 to the row, without a collision test; grid, column, block and orientation are unchanged |
| TetrisBoard.CommitState | src/hooks/useTetrisBoard.ts:134-144 | `commit` fails exactly when the grid has more than 20 rows; otherwise the result is 20 rows: empty rows on top, then the given rows unchanged, with the new block at row 0, column 3 in its catalog orientation |
| TetrisBoard.MoveState | src/hooks/useTetrisBoard.ts:145-164 | `move` keeps the grid, the row and the block; it changes nothing, or it takes a candidate that does not collide; the orientation stays square and keeps its size |
| TetrisBoard.ApplyMove | src/hooks/useTetrisBoard.ts:145-164 | the `move` case as run (rotation loops, offset, collision loop, then both updates or none) equals MoveState |
| TetrisBoard.BoardReducer | src/hooks/useTetrisBoard.ts:118-171 | the reducer fails only on a `commit` whose grid has more than 20 rows |
| TetrisBoard.MoveOutcome | src/hooks/useTetrisBoard.ts:146-163 | clockwise wins over anticlockwise, right overrides left (offset -1/0/+1); a colliding candidate leaves the state unchanged, otherwise the column and the orientation are both taken |
| TetrisBoard.MoveKeepsPlacementLegal | src/hooks/useTetrisBoard.ts:153-163 | a placement that does not collide still does not collide after `move`, and the orientation stays square and keeps its size |
| TetrisBoard.ReducerKeepsDimensions | src/hooks/useTetrisBoard.ts:118-171 | every action on a 20×10 grid succeeds and leaves a 20×10 grid, when a `commit` is given at most 20 rows of width 10 |
| Tetris.GetPoints | src/hooks/useTetris.ts:290-305 | points exist exactly for 0 to 4 cleared rows (more throws), and are at least 100 per row |
| Tetris.PointsGrowWithRows | src/hooks/useTetris.ts:290-305 | clearing more rows in one lock always pays strictly more, and two or more rows pay a bonus over 100 each |
| Tetris.AddShapeToBoard | src/hooks/useTetris.ts:271-288 | the cell-by-cell writes give the grid in which exactly the cells under the compacted shape's set cells hold the block, and every other cell is unchanged |
| Tetris.MergeOnlyFillsEmptyCells | src/hooks/useTetris.ts:271-288 | merging a piece that does not collide writes only onto Empty cells: occupied cells keep their block, and covered cells get the piece's block |
| Tetris.MergeKeepsOtherRows | src/hooks/useTetris.ts:278-287 | rows that the compacted shape does not reach are unchanged by the merge |
| Tetris.UnclearedRows | src/hooks/useTetris.ts:59-65 | no kept row is full, and every kept row is a row of the grid |
| Tetris.ClearFullRows | src/hooks/useTetris.ts:59-65 | the bottom-up splice loop leaves exactly the rows that are not full, in order, and counts the full rows |
| Tetris.ClearedPlusKept | src/hooks/useTetris.ts:59-65 | kept rows plus cleared rows make up the height of the grid |
| Tetris.ClearDistributes | src/hooks/useTetris.ts:59-65 | clearing distributes over stacking two grids, so kept rows stay in their original order |
| Tetris.ClearWithoutFullRows | src/hooks/useTetris.ts:59-65 | a grid without full rows is unchanged by the clear, and nothing is counted |
| Tetris.ClearKeepsOpenRows | src/hooks/useTetris.ts:61 | every row that is not full survives the clear |
| Tetris.FullRowsInWindow | src/hooks/useTetris.ts:59-65 | if every full row lies in a window of rows, at most the window's height is cleared |
| Tetris.LockClearsAtMostShapeRows | src/hooks/useTetris.ts:50-65 | locking a piece into a grid without full rows clears at most as many rows as the compacted shape has |
| Tetris.InitialSessionValid | src/hooks/useTetris.ts:14-21 | the initial state of the hooks satisfies the session invariant |
| Tetris.StartGameOutcome | src/hooks/useTetris.ts:28-41 | startGame gives a valid playing session: queue [q0, q1, q2], no held block, score 0, ramp 800, an empty 20×10 grid, and the first block at row 0, column 3 in catalog orientation, clear of the grid |
| Tetris.CommittedGridValid | src/hooks/useTetris.ts:81 | the cleared grid handed to `commit` comes back 20×10 without full rows |
| Tetris.LockResult | src/hooks/useTetris.ts:50-86 | a lock, field by field: score plus getPoints of the full rows after the merge; game over exactly when the next block collides at (0, 3); the queue advanced; flags cleared; interval set to the ramp; the ramp stepped; the grid from `commit` |
| Tetris.LockNeverThrows | src/hooks/useTetris.ts:43-87 | in a valid session, commitPosition never reaches the getPoints error or the `commit` error |
| Tetris.LockKeepsInvariant | src/hooks/useTetris.ts:43-87 | commitPosition keeps the session invariant |
| Tetris.LockOutcome | src/hooks/useTetris.ts:59-83 | a lock adds getPoints(rows cleared) to the score (never lowering it); keeps the queue length; spawns the back block of the queue at (0, 3) with the fresh draw at the front; keeps the non-full rows at the bottom of a grid of height 20 - cleared; clears isCommitting and justHeld; keeps the held block |
| Tetris.LockGameOver | src/hooks/useTetris.ts:71-76 | as written, the game ends exactly when the next block collides at (0, 3) with the grid from before the lock; corrected, exactly when the spawned piece collides with the grid it spawns into |
| Tetris.RampStep | src/hooks/useTetris.ts:84-86 | the ramp falls by exactly 30 on a lock when above 100, never rises, and stays in 800, 770, ..., 80 |
| Tetris.TickCases | src/hooks/useTetris.ts:127-145 | a tick does nothing when not playing; drops one row when the row below is free; enters lock delay (Sliding speed 100, committing) when it is not; in lock delay with the row below free again, only clears committing and restores the ramp speed |
| Tetris.TickKeepsInvariant | src/hooks/useTetris.ts:127-145 | a tick never throws and keeps the session invariant, with either spawn test in the lock |
| Tetris.HoldResult | src/hooks/useTetris.ts:102-124 | an accepted hold, field by field: the grid is kept; the held or queued block spawns at (0, 3); game over exactly when it collides there; the interval is the ramp |
| Tetris.HoldOutcome | src/hooks/useTetris.ts:89-125 | hold is ignored unless playing and not just held; otherwise it sets justHeld and the slot to the active block, keeps grid and score, and spawns the held block (queue untouched) or the back of the queue (queue advanced) |
| Tetris.HoldKeepsInvariant | src/hooks/useTetris.ts:89-125 | a hold keeps the session invariant |
| Tetris.SecondHoldIsIgnored | src/hooks/useTetris.ts:204 | a second hold before a lock changes nothing |
| Tetris.MoveKeepsInvariant | src/hooks/useTetris.ts:180-202 | a movement or rotation key keeps the invariant and changes only the piece's column and orientation |
| Tetris.GameOverIsFinal | src/hooks/useTetris.ts:242-245 | once not playing, ticks, holds and moves change nothing |
| Tetris.ScoreNeverDecreases | src/hooks/useTetris.ts:78 | a tick never lowers the score, and a hold keeps it |
| Tetris.OnlyLockClearsJustHeld | src/hooks/useTetris.ts:83 | a tick clears justHeld only in lock delay with the row below blocked (a lock), and the new piece is then at (0, 3); holds and moves keep it |
| Tetris.LockPiece | src/hooks/useTetris.ts:50-65 | merging and then the clear loop give the non-full rows of the merged grid, and the count of its full rows |
| Tetris.Lock | src/hooks/useTetris.ts:50-86 | the locking half of commitPosition, computed step by step, equals LockStep; the spawn test runs on the pre-lock grid as written, or on the committed grid when corrected |
| Tetris.Swap | src/hooks/useTetris.ts:102-124 | swapHolding after the guard, computed step by step, equals HoldStep |
| Tetris.Game.constructor | src/hooks/useTetris.ts:14-21 | the new controller holds the hooks' initial values, keeps the chosen `corrected` flag, and is valid |
| Tetris.Game.StartGame | src/hooks/useTetris.ts:28-41 | the new state is StartStep of the old one as written (justHeld kept), or RestartStep when corrected (justHeld reset); validity is kept |
| Tetris.Game.CommitPosition | src/hooks/useTetris.ts:43-87 | the new state is LockStep of the old one, with the spawn test on the pre-lock grid as written or on the committed grid when corrected; validity is kept |
| Tetris.Game.GameTick | src/hooks/useTetris.ts:127-145 | the new state is TickStep of the old one, with the lock's spawn test chosen by `corrected`; validity is kept |
| Tetris.Game.Hold | src/hooks/useTetris.ts:204-208 | the new state is the hold step of the old one, and validity is kept |
| Tetris.Game.Move | src/hooks/useTetris.ts:180-202 | the new state is the `move` step of the old one, and validity is kept |
| Tetris.Game.PressSoftDrop | src/hooks/useTetris.ts:176-178 | while playing, 'w' sets the interval to Fast (50); nothing else changes |
| Tetris.Game.ReleaseSoftDrop | src/hooks/useTetris.ts:216-218 | while playing, releasing 'w' sets the interval back to the ramp; nothing else changes |
| Tetris.Game.PressHardDrop | src/hooks/useTetris.ts:210-212 | while playing, 's' sets the interval to HardDrop (0); nothing else changes |
| Tetris.Game.RenderedBoard | src/hooks/useTetris.ts:249-258 | the rendered grid is 20×10; while playing, it is the grid with the falling piece's cells written in; otherwise it is the grid alone |
| Tetris.StaleSpawnCheckMissesOverlap | src/hooks/useTetris.ts:71 | as written: a piece locked at the spawn point, followed by a block of the same orientation, leaves the game running with the new piece overlapping the stack |
| Tetris.SpawnCheckAfterLockKeepsPieceClear | src/hooks/useTetris.ts:71-76 | corrected: with the spawn test on the grid after the lock, the falling piece never overlaps the stack while playing |
| Tetris.TickKeepsPieceClear | src/hooks/useTetris.ts:127-145 | a tick whose lock runs the corrected spawn test keeps the falling piece clear of the stack |
| Tetris.HoldKeepsPieceClear | src/hooks/useTetris.ts:112-117 | a hold keeps the falling piece clear of the stack (a blocked spawn ends the game) |
| Tetris.MoveKeepsPieceClear | src/hooks/useTetrisBoard.ts:153-163 | a move keeps the falling piece clear of the stack |
| Tetris.HoldLostAfterRestart | src/hooks/useTetris.ts:28-41 | as written: after a game that ends on a hold, the next game ignores the hold key for its first piece |
| Tetris.RestartKeepsInvariant | src/hooks/useTetris.ts:28-41 | corrected startGame gives a valid session with the piece clear of the grid and justHeld reset |
| Tetris.RestartAllowsHold | src/hooks/useTetris.ts:28-41 | corrected: the first piece of every new game can be held; the slot gets the first block, and the back of the fresh queue spawns |

## Left out

- Timers and input plumbing are not modelled: `useInterval`, the 300 ms auto-repeat of held movement keys, key-repeat suppression, and listener registration (`useTetris.ts:147-247`). Each timer tick or key press is a method call, and a handler that exists only while playing is guarded by `isPlaying`.
- React's batching is modelled as all setters of one handler taking effect together (`SetState`); where two setters write one field, the later one wins. For commitPosition, that makes the interval always the ramp, and game over is signalled only by `isPlaying`.
- Stale closures are not modelled; handlers read the state at call time. So the interval set by startGame is the ramp value current at the call, and in the hold path swapHolding reads the hold slot from before the key.
- The effect cleanup that resets the interval to the ramp whenever the effect's inputs change (`useTetris.ts:234-238`) is not modelled. It depends on React's scheduling of effects.
- `getRandomBlock` (`useTetrisBoard.ts:68-71`) is not modelled: every draw is a parameter. The reducer's `start` draws its own block, so it takes the drawn block in its action.
- The shape catalog `SHAPES` lives in a types file that is not part of this model. It is a parameter, required to map every block to a square matrix 1 to 4 wide.
- The reducer's default case (`useTetrisBoard.ts:165-167`) cannot be reached: the action type is closed, so it has no unknown tag.
- The component files (`App.tsx`, `HoldingBlock.tsx`, `Controls.tsx`) are rendering and key-capture UI.
- Tetris.ClearFullRows: requires a grid of exactly 20 rows, because the source loop starts at BOARD_HEIGHT - 1 whatever the grid's length; the lock only hands it such grids.
- TetrisBoard.Clockwise, TetrisBoard.Anticlockwise: defined only on square matrices, the only shapes the catalog has. On a non-square matrix the source loops index outside the shape or outside the fresh matrix.

## Findings

| source | as written | input that shows it | evidently intended | confidence | as-written member | corrected member |
|---|---|---|---|---|---|---|
| src/hooks/useTetris.ts:71 | commitPosition tests whether the next block can spawn against `board`, the grid from before the lock, not the grid with the piece locked in | a piece locks at row 0, column 3 without clearing a row, and the next block has the same orientation: the test passes, and the new piece spawns onto the cells just locked while the game continues | the spawn test runs on the grid the new piece spawns into, so a live piece never overlaps the stack | not executed | Tetris.StaleSpawnCheckMissesOverlap | Tetris.SpawnCheckAfterLockKeepsPieceClear |
| src/hooks/useTetris.ts:28-41 | startGame resets the queue, hold slot, score, ramp and board, but not `justHeld` | a game ends on a hold whose swapped-in block cannot spawn, leaving `justHeld` set; after startGame the Shift key is ignored until the first lock | each game starts with the hold available for its first piece | not executed | Tetris.HoldLostAfterRestart | Tetris.RestartAllowsHold |
