/**
 * The game session controller: scoring, the lock pipeline (merge, clear,
 * score, queue, game-over check, speed ramp), lock delay, hold and the
 * speed keys, over the board state machine of module TetrisBoard. Timers,
 * key listeners and random draws are left to the caller: every draw is a
 * parameter.
 */
module Tetris {
  import opened Wrappers
  import opened TetrisBoard

  /** Tick intervals in milliseconds (the TickSpeed enumeration). */
  const NORMAL_SPEED: nat := 800
  const SLIDING_SPEED: nat := 100
  const FAST_SPEED: nat := 50
  const HARD_DROP_SPEED: nat := 0

  /** The ramp loses RAMP_STEP per lock while it is above RAMP_THRESHOLD. */
  const RAMP_STEP: nat := 30
  const RAMP_THRESHOLD: nat := 100

  /** Number of upcoming blocks drawn by startGame. */
  const QUEUE_LENGTH: nat := 3

  // ---------------------------------------------------------------- points

  /** Points for one lock; any count other than 0 to 4 throws: None. */
  function GetPoints(numCleared: nat): (points: Option<nat>)
    ensures points.Some? <==> numCleared <= 4
    ensures points.Some? ==> points.value >= 100 * numCleared
  {
    match numCleared
    case 0 => Some(0)
    case 1 => Some(100)
    case 2 => Some(300)
    case 3 => Some(500)
    case 4 => Some(800)
    case _ => None
  }

  /** Clearing more rows in one lock always pays more. */
  lemma PointsGrowWithRows(fewer: nat, more: nat)
    requires fewer < more <= 4
    ensures GetPoints(fewer).value < GetPoints(more).value
    ensures more >= 2 ==> GetPoints(more).value > 100 * more
  {
  }

  // ---------------------------------------------------------------- merge

  /** The compacted shape anchored at (row, column) has a set cell over grid cell (r, c). */
  predicate Covers(shape: Shape, row: nat, column: int, r: int, c: int) {
    var rows := Compact(shape);
    0 <= r - row < |rows| && 0 <= c - column < |rows[r - row]| && rows[r - row][c - column]
  }

  /** The grid with the block written into every cell under a set cell of the compacted shape. */
  function Merged(board: Board, block: Block, shape: Shape, row: nat, column: int): (m: Board)
    ensures |m| == |board| && forall r :: 0 <= r < |m| ==> |m[r]| == |board[r]|
  {
    seq(|board|, r requires 0 <= r < |board| =>
      seq(|board[r]|, c requires 0 <= c < |board[r]| =>
        if Covers(shape, row, column, r, c) then Filled(block) else board[r][c]))
  }

  /** Writes the dropping block into the grid cell by cell, as the source does in place. */
  method AddShapeToBoard(board: Board, droppingBlock: Block, droppingShape: Shape, droppingRow: nat, droppingColumn: int)
    returns (newBoard: Board)
    requires InBounds(board, droppingShape, droppingRow, droppingColumn)
    ensures newBoard == Merged(board, droppingBlock, droppingShape, droppingRow, droppingColumn)
  {
    newBoard := board;
    var rows := Compact(droppingShape);
    var rowIndex := 0;
    while rowIndex < |rows|
      invariant 0 <= rowIndex <= |rows|
      invariant |newBoard| == |board| && forall r :: 0 <= r < |board| ==> |newBoard[r]| == |board[r]|
      invariant forall r, c :: 0 <= r < |board| && 0 <= c < |board[r]| ==>
        newBoard[r][c] == if r < droppingRow + rowIndex && Covers(droppingShape, droppingRow, droppingColumn, r, c)
                          then Filled(droppingBlock) else board[r][c]
    {
      var shapeRow := rows[rowIndex];
      var colIndex := 0;
      while colIndex < |shapeRow|
        invariant 0 <= colIndex <= |shapeRow|
        invariant |newBoard| == |board| && forall r :: 0 <= r < |board| ==> |newBoard[r]| == |board[r]|
        invariant forall r, c :: 0 <= r < |board| && 0 <= c < |board[r]| ==>
          newBoard[r][c] == if (r < droppingRow + rowIndex || (r == droppingRow + rowIndex && c < droppingColumn + colIndex))
                               && Covers(droppingShape, droppingRow, droppingColumn, r, c)
                            then Filled(droppingBlock) else board[r][c]
      {
        if shapeRow[colIndex] {
          var r := droppingRow + rowIndex;
          var c := droppingColumn + colIndex;
          newBoard := newBoard[r := newBoard[r][c := Filled(droppingBlock)]];
        }
        colIndex := colIndex + 1;
      }
      rowIndex := rowIndex + 1;
    }
    var merged := Merged(board, droppingBlock, droppingShape, droppingRow, droppingColumn);
    forall r | 0 <= r < |board| ensures newBoard[r] == merged[r] {
      assert |newBoard[r]| == |merged[r]|;
    }
  }

  /**
   * Merging a piece that does not collide fills exactly the empty cells under
   * its set cells: every occupied cell keeps its block, and every covered
   * cell now holds the piece's block.
   */
  lemma MergeOnlyFillsEmptyCells(board: Board, block: Block, shape: Shape, row: nat, column: int)
    requires IsBoard(board)
    requires !Collides(board, shape, row, column)
    ensures var m := Merged(board, block, shape, row, column);
            forall r, c :: 0 <= r < |board| && 0 <= c < |board[r]| ==>
              (board[r][c] != Empty ==> m[r][c] == board[r][c])
              && (Covers(shape, row, column, r, c) ==> board[r][c] == Empty && m[r][c] == Filled(block))
  {
    var m := Merged(board, block, shape, row, column);
    var rows := Compact(shape);
    forall r, c | 0 <= r < |board| && 0 <= c < |board[r]| && Covers(shape, row, column, r, c)
      ensures board[r][c] == Empty
    {
      assert rows[r - row][c - column];
      assert !Blocked(board, row + (r - row), column + (c - column));
    }
  }

  /** Rows that the compacted shape does not reach are left as they were. */
  lemma MergeKeepsOtherRows(board: Board, block: Block, shape: Shape, row: nat, column: int, r: nat)
    requires r < |board|
    requires r < row || row + |Compact(shape)| <= r
    ensures Merged(board, block, shape, row, column)[r] == board[r]
  {
    var m := Merged(board, block, shape, row, column);
    assert |m[r]| == |board[r]|;
    forall c | 0 <= c < |board[r]| ensures m[r][c] == board[r][c] {
      assert !Covers(shape, row, column, r, c);
    }
  }

  // ---------------------------------------------------------------- row clearing

  /** A row with no empty cell. */
  predicate Full(row: Row) {
    forall c :: 0 <= c < |row| ==> row[c] != Empty
  }

  predicate NoFullRows(board: Board) {
    forall r :: 0 <= r < |board| ==> !Full(board[r])
  }

  /** The rows of the grid that are not full, in their order. */
  function Uncleared(board: Board): (rest: Board)
    ensures |rest| <= |board|
  {
    if board == [] then []
    else (if Full(board[0]) then [] else [board[0]]) + Uncleared(board[1..])
  }

  /** The kept rows are rows of the grid, and none of them is full. */
  lemma {:induction false} UnclearedRows(board: Board)
    ensures NoFullRows(Uncleared(board))
    ensures forall r :: 0 <= r < |Uncleared(board)| ==> Uncleared(board)[r] in board
  {
    if board != [] {
      UnclearedRows(board[1..]);
      var head := if Full(board[0]) then [] else [board[0]];
      var rest := Uncleared(board[1..]);
      assert Uncleared(board) == head + rest;
      forall r | 0 <= r < |Uncleared(board)| ensures Uncleared(board)[r] in board && !Full(Uncleared(board)[r]) {
        if r < |head| {
          assert Uncleared(board)[r] == board[0];
        } else {
          assert Uncleared(board)[r] == rest[r - |head|];
          assert rest[r - |head|] in board[1..];
        }
      }
    }
  }

  /** The number of full rows of the grid. */
  function CountFull(board: Board): nat {
    if board == [] then 0
    else (if Full(board[0]) then 1 else 0) + CountFull(board[1..])
  }

  /**
   * The clear loop: scan from the bottom row up and splice out every full
   * row. A splice only shifts rows that were already scanned, so one pass
   * removes exactly the full rows.
   */
  method ClearFullRows(board: Board) returns (newBoard: Board, numCleared: nat)
    requires |board| == BOARD_HEIGHT
    ensures newBoard == Uncleared(board)
    ensures numCleared == CountFull(board)
  {
    newBoard := board;
    numCleared := 0;
    var row: int := BOARD_HEIGHT - 1;
    while row >= 0
      invariant -1 <= row < |board|
      invariant newBoard == board[..row + 1] + Uncleared(board[row + 1..])
      invariant numCleared == CountFull(board[row + 1..])
    {
      SpliceStep(board, newBoard, row);
      if Full(newBoard[row]) {
        numCleared := numCleared + 1;
        newBoard := newBoard[..row] + newBoard[row + 1..];
      }
      row := row - 1;
    }
    assert board[0..] == board;
  }

  /**
   * One step of the clear loop: the row at the scan position is still the
   * grid's own row, and splicing it out (when full) or keeping it (when not)
   * extends the cleared suffix by one row.
   */
  lemma SpliceStep(board: Board, newBoard: Board, row: nat)
    requires row < |board|
    requires newBoard == board[..row + 1] + Uncleared(board[row + 1..])
    ensures newBoard[row] == board[row]
    ensures CountFull(board[row..]) == (if Full(board[row]) then 1 else 0) + CountFull(board[row + 1..])
    ensures Full(board[row]) ==> newBoard[..row] + newBoard[row + 1..] == board[..row] + Uncleared(board[row..])
    ensures !Full(board[row]) ==> newBoard == board[..row] + Uncleared(board[row..])
  {
    assert board[row..][0] == board[row] && board[row..][1..] == board[row + 1..];
    assert newBoard[..row] == board[..row];
    if Full(board[row]) {
      assert newBoard[row + 1..] == Uncleared(board[row + 1..]);
    } else {
      assert board[..row + 1] == board[..row] + [board[row]];
    }
  }

  /** Each row is either cleared or kept: kept plus cleared is the height. */
  lemma {:induction false} ClearedPlusKept(board: Board)
    ensures |Uncleared(board)| + CountFull(board) == |board|
  {
    if board != [] {
      ClearedPlusKept(board[1..]);
    }
  }

  /** Clearing works row by row: it distributes over concatenation, so the kept rows keep their order. */
  lemma {:induction false} ClearDistributes(top: Board, bottom: Board)
    ensures Uncleared(top + bottom) == Uncleared(top) + Uncleared(bottom)
    ensures CountFull(top + bottom) == CountFull(top) + CountFull(bottom)
  {
    if top == [] {
      assert top + bottom == bottom;
    } else {
      var whole := top + bottom;
      assert whole[0] == top[0];
      assert whole[1..] == top[1..] + bottom;
      ClearDistributes(top[1..], bottom);
      var head := if Full(top[0]) then [] else [top[0]];
      assert Uncleared(whole) == head + Uncleared(top[1..] + bottom);
      assert Uncleared(top) == head + Uncleared(top[1..]);
      assert head + (Uncleared(top[1..]) + Uncleared(bottom)) == (head + Uncleared(top[1..])) + Uncleared(bottom);
    }
  }

  /** A grid without full rows is left untouched by a clear. */
  lemma {:induction false} ClearWithoutFullRows(board: Board)
    requires NoFullRows(board)
    ensures Uncleared(board) == board && CountFull(board) == 0
  {
    if board != [] {
      assert NoFullRows(board[1..]) by {
        forall r | 0 <= r < |board[1..]| ensures !Full(board[1..][r]) {
          assert board[1..][r] == board[r + 1];
        }
      }
      ClearWithoutFullRows(board[1..]);
    }
  }

  /** Every row that is not full survives the clear. */
  lemma {:induction false} ClearKeepsOpenRows(board: Board, r: nat)
    requires r < |board| && !Full(board[r])
    ensures board[r] in Uncleared(board)
  {
    if r > 0 {
      assert board[1..][r - 1] == board[r];
      ClearKeepsOpenRows(board[1..], r - 1);
    }
  }

  /** If every full row lies in rows lo to hi - 1, at most hi - lo rows are cleared. */
  lemma FullRowsInWindow(board: Board, lo: nat, hi: nat)
    requires lo <= hi <= |board|
    requires forall r :: 0 <= r < |board| && !(lo <= r < hi) ==> !Full(board[r])
    ensures CountFull(board) <= hi - lo
  {
    CountFullSplit(board, hi);
    CountFullSplit(board[..hi], lo);
    assert board[..hi][..lo] == board[..lo] && board[..hi][lo..] == board[lo..hi];
    NoFullRowsInSlice(board, 0, lo);
    NoFullRowsInSlice(board, hi, |board|);
    assert board[0..lo] == board[..lo] && board[hi..|board|] == board[hi..];
    ClearedPlusKept(board[lo..hi]);
  }

  /** The full rows of a grid are those above row k plus those from row k on. */
  lemma CountFullSplit(board: Board, k: nat)
    requires k <= |board|
    ensures CountFull(board) == CountFull(board[..k]) + CountFull(board[k..])
  {
    assert board[..k] + board[k..] == board;
    ClearDistributes(board[..k], board[k..]);
  }

  /** A slice of rows none of which is full clears nothing. */
  lemma NoFullRowsInSlice(board: Board, lo: nat, hi: nat)
    requires lo <= hi <= |board|
    requires forall r :: lo <= r < hi ==> !Full(board[r])
    ensures CountFull(board[lo..hi]) == 0
  {
    var slice := board[lo..hi];
    forall r | 0 <= r < |slice| ensures !Full(slice[r]) {
      assert slice[r] == board[lo + r];
    }
    ClearWithoutFullRows(slice);
  }

  /**
   * Locking a piece into a grid without full rows fills at most as many rows
   * as the compacted shape has, so at most that many rows are cleared.
   */
  lemma LockClearsAtMostShapeRows(board: Board, block: Block, shape: Shape, row: nat, column: int)
    requires NoFullRows(board)
    requires InBounds(board, shape, row, column)
    ensures CountFull(Merged(board, block, shape, row, column)) <= |Compact(shape)|
  {
    var m := Merged(board, block, shape, row, column);
    var rows := Compact(shape);
    var k := |rows|;
    if k > 0 {
      assert HasSetCell(rows[k - 1]);
      var j :| 0 <= j < |rows[k - 1]| && rows[k - 1][j];
      assert row + (k - 1) < |board|;
    }
    forall r | 0 <= r < |m| && !(row <= r < row + k) ensures !Full(m[r]) {
      MergeKeepsOtherRows(board, block, shape, row, column, r);
    }
    if k == 0 {
      FullRowsInWindow(m, 0, 0);
    } else {
      FullRowsInWindow(m, row, row + k);
    }
  }

  // ---------------------------------------------------------------- session state

  /** The controller's state fields together with the board state, as one value. */
  datatype Session = Session(
    score: nat,
    isPlaying: bool,
    tickSpeed: Option<nat>,
    isCommitting: bool,
    upcomingBlocks: seq<Block>,
    holdingBlock: Option<Block>,
    justHeld: bool,
    rampingTickSpeed: nat,
    boardState: BoardState)

  /** The ramp values reachable from 800 in steps of 30 while above 100: 800, 770, ..., 110, 80. */
  predicate RampValue(ramp: nat) {
    80 <= ramp <= NORMAL_SPEED && (NORMAL_SPEED - ramp) % RAMP_STEP == 0
  }

  /** The ramp after one lock. */
  function NextRamp(ramp: nat): nat {
    if ramp > RAMP_THRESHOLD then ramp - RAMP_STEP else ramp
  }

  /**
   * The board part of the session invariant: a full-size grid without full
   * rows, and a square orientation of size at most 4 whose set cells lie
   * inside the grid.
   */
  predicate BoardInvariant(b: BoardState) {
    IsFullSize(b.board) && NoFullRows(b.board)
    && IsSquare(b.droppingShape) && |b.droppingShape| <= 4
    && InBounds(b.board, b.droppingShape, b.droppingRow, b.droppingColumn)
  }

  /** The session invariant kept by every transition. */
  predicate Inv(s: Session) {
    BoardInvariant(s.boardState)
    && (s.isPlaying ==> |s.upcomingBlocks| == QUEUE_LENGTH)
    && RampValue(s.rampingTickSpeed)
  }

  /** The state before the first game: the hooks' initial values. */
  function InitialSession(shapes: Catalog): Session {
    Session(0, false, None, false, [], None, false, NORMAL_SPEED,
            BoardState(EmptyBoard(BOARD_HEIGHT), 0, 0, I, shapes(I)))
  }

  /** The next block drawn from the queue: its back element. */
  function NextInQueue(queue: seq<Block>): Block
    requires |queue| > 0
  {
    queue[|queue| - 1]
  }

  /** The queue after a draw: the back popped, the fresh draw put at the front. */
  function AdvanceQueue(queue: seq<Block>, drawn: Block): seq<Block>
    requires |queue| > 0
  {
    [drawn] + queue[..|queue| - 1]
  }

  /** startGame: a fresh queue, no held block, score 0, and the board reducer's `start`. */
  function StartStep(s: Session, q0: Block, q1: Block, q2: Block, first: Block, shapes: Catalog): Session {
    s.(upcomingBlocks := [q0, q1, q2], holdingBlock := None, score := 0, isPlaying := true,
       rampingTickSpeed := NORMAL_SPEED, tickSpeed := Some(s.rampingTickSpeed),
       boardState := BoardReducer(s.boardState, Start(first), shapes).value)
  }

  /**
   * commitPosition. When the row below is free again the lock is called off.
   * Otherwise the piece is merged, full rows are cleared, the queue advances,
   * the spawn test decides game over, points are added, and the ramp speeds
   * up. The spawn test runs on the grid given by spawnCheckAfterLock: the
   * source tests the grid from before the lock (false), the corrected model
   * the grid after it (true).
   */
  function LockStep(s: Session, drawn: Block, shapes: Catalog, spawnCheckAfterLock: bool): (r: Option<Session>)
    requires Inv(s) && s.isPlaying
  {
    var b := s.boardState;
    if !Collides(b.board, b.droppingShape, b.droppingRow + 1, b.droppingColumn) then
      Some(s.(isCommitting := false, tickSpeed := Some(s.rampingTickSpeed)))
    else
      LockedSession(s, drawn, shapes, Merged(b.board, b.droppingBlock, b.droppingShape, b.droppingRow, b.droppingColumn),
                    spawnCheckAfterLock)
  }

  /** The locking half of LockStep, given the grid with the piece merged in. */
  function LockedSession(s: Session, drawn: Block, shapes: Catalog, merged: Board, spawnCheckAfterLock: bool): Option<Session>
    requires |s.upcomingBlocks| > 0 && |merged| <= BOARD_HEIGHT
  {
    var b := s.boardState;
    var points := GetPoints(CountFull(merged));
    if points.None? then None
    else
      var newBlock := NextInQueue(s.upcomingBlocks);
      var next := BoardReducer(b, Commit(Uncleared(merged), newBlock), shapes).value;
      var spawnBoard := if spawnCheckAfterLock then next.board else b.board;
      var gameOver := Collides(spawnBoard, shapes(newBlock), 0, SPAWN_COLUMN);
      Some(Session(
        score := s.score + points.value,
        isPlaying := if gameOver then false else s.isPlaying,
        tickSpeed := Some(s.rampingTickSpeed),
        isCommitting := false,
        upcomingBlocks := AdvanceQueue(s.upcomingBlocks, drawn),
        holdingBlock := s.holdingBlock,
        justHeld := false,
        rampingTickSpeed := NextRamp(s.rampingTickSpeed),
        boardState := next))
  }

  /** commitPosition as the source writes it: the spawn test looks at the grid from before the lock. */
  function CommitStepAsWritten(s: Session, drawn: Block, shapes: Catalog): Option<Session>
    requires Inv(s) && s.isPlaying
  {
    LockStep(s, drawn, shapes, false)
  }

  /** commitPosition with the spawn test on the grid the new block spawns into. */
  function CommitStep(s: Session, drawn: Block, shapes: Catalog): Option<Session>
    requires Inv(s) && s.isPlaying
  {
    LockStep(s, drawn, shapes, true)
  }

  /**
   * One timer tick (the interval callback and gameTick); a tick in lock delay
   * runs commitPosition with the spawn test given by spawnCheckAfterLock.
   */
  function TickStep(s: Session, drawn: Block, shapes: Catalog, spawnCheckAfterLock: bool): Option<Session>
    requires Inv(s)
  {
    var b := s.boardState;
    if !s.isPlaying then Some(s)
    else if s.isCommitting then LockStep(s, drawn, shapes, spawnCheckAfterLock)
    else if Collides(b.board, b.droppingShape, b.droppingRow + 1, b.droppingColumn) then
      Some(s.(tickSpeed := Some(SLIDING_SPEED), isCommitting := true))
    else
      Some(s.(boardState := BoardReducer(b, Drop, shapes).value))
  }

  /**
   * The hold key: refused unless playing and not yet held since the last
   * lock; otherwise the active block goes to the hold slot and swapHolding
   * spawns the previously held block, or the next one of the queue.
   */
  function HoldStep(s: Session, drawn: Block, shapes: Catalog): Session
    requires Inv(s)
  {
    if !s.isPlaying || s.justHeld then s
    else
      var b := s.boardState;
      var newBlock := if s.holdingBlock.Some? then s.holdingBlock.value else NextInQueue(s.upcomingBlocks);
      var newQueue := if s.holdingBlock.Some? then s.upcomingBlocks else AdvanceQueue(s.upcomingBlocks, drawn);
      var gameOver := Collides(b.board, shapes(newBlock), 0, SPAWN_COLUMN);
      s.(justHeld := true,
         holdingBlock := Some(b.droppingBlock),
         isPlaying := if gameOver then false else s.isPlaying,
         tickSpeed := Some(s.rampingTickSpeed),
         upcomingBlocks := newQueue,
         boardState := BoardReducer(b, Commit(b.board, newBlock), shapes).value,
         isCommitting := false)
  }

  /** A movement or rotation key: the board reducer's `move`, while playing. */
  function MoveStep(s: Session, isPressingLeft: bool, isPressingRight: bool,
                    isRotatingClockwise: bool, isRotatingAnticlockwise: bool): Session
    requires Inv(s)
  {
    if !s.isPlaying then s
    else s.(boardState := MoveState(s.boardState, isPressingLeft, isPressingRight,
                                    isRotatingClockwise, isRotatingAnticlockwise))
  }

  // ---------------------------------------------------------------- session lemmas

  /** The hooks' initial state satisfies the invariant. */
  lemma InitialSessionValid(shapes: Catalog)
    requires ValidCatalog(shapes)
    ensures Inv(InitialSession(shapes))
  {
    var b := EmptyBoard(BOARD_HEIGHT);
    EmptyRowsAreNotFull(b);
    SmallShapeInBounds(b, shapes(I), 0);
  }

  lemma EmptyRowsAreNotFull(board: Board)
    requires forall r :: 0 <= r < |board| ==> IsEmptyRow(board[r])
    ensures NoFullRows(board)
  {
    forall r | 0 <= r < |board| ensures !Full(board[r]) {
      assert board[r][0] == Empty;
    }
  }

  /**
   * startGame yields an empty 20 by 10 grid, the first block at row 0,
   * column 3 in its catalog orientation, a queue of three blocks, score 0 and
   * the ramp back at 800, and it keeps the invariant.
   */
  lemma StartGameOutcome(s: Session, q0: Block, q1: Block, q2: Block, first: Block, shapes: Catalog)
    requires ValidCatalog(shapes)
    ensures var r := StartStep(s, q0, q1, q2, first, shapes);
            Inv(r) && r.isPlaying && r.score == 0 && r.holdingBlock == None
            && r.upcomingBlocks == [q0, q1, q2] && r.rampingTickSpeed == NORMAL_SPEED
            && (forall k :: 0 <= k < BOARD_HEIGHT ==> IsEmptyRow(r.boardState.board[k]))
            && r.boardState.droppingRow == 0 && r.boardState.droppingColumn == SPAWN_COLUMN
            && r.boardState.droppingBlock == first && r.boardState.droppingShape == shapes(first)
            && !Collides(r.boardState.board, r.boardState.droppingShape, 0, SPAWN_COLUMN)
  {
    var r := StartStep(s, q0, q1, q2, first, shapes);
    EmptyRowsAreNotFull(r.boardState.board);
    SmallShapeInBounds(r.boardState.board, shapes(first), SPAWN_COLUMN);
    SpawnIsLegalOnEmptyBoard(shapes(first));
  }

  /** The grid a lock hands to the reducer's `commit` comes back full-size and without full rows. */
  lemma CommittedGridValid(merged: Board, newBlock: Block, shapes: Catalog)
    requires IsFullSize(merged)
    ensures var next := CommitState(Uncleared(merged), newBlock, shapes);
            next.Some? && IsFullSize(next.value.board) && NoFullRows(next.value.board)
  {
    var kept := Uncleared(merged);
    UnclearedRows(merged);
    var next := CommitState(kept, newBlock, shapes).value;
    var pad := BOARD_HEIGHT - |kept|;
    forall k | 0 <= k < |next.board| ensures |next.board[k]| == BOARD_WIDTH && !Full(next.board[k]) {
      if k < pad {
        assert IsEmptyRow(next.board[k]);
        assert next.board[k][0] == Empty;
      } else {
        assert next.board[k] == next.board[pad..][k - pad] == kept[k - pad];
        assert kept[k - pad] in merged;
      }
    }
  }

  /** The locking branch of LockStep, field by field. */
  lemma LockResult(s: Session, drawn: Block, shapes: Catalog, spawnCheckAfterLock: bool)
    requires Inv(s) && s.isPlaying
    requires var b := s.boardState; Collides(b.board, b.droppingShape, b.droppingRow + 1, b.droppingColumn)
    ensures var b := s.boardState;
            var merged := Merged(b.board, b.droppingBlock, b.droppingShape, b.droppingRow, b.droppingColumn);
            CountFull(merged) <= 4 && CommitState(Uncleared(merged), NextInQueue(s.upcomingBlocks), shapes).Some?
    ensures var b := s.boardState;
            var merged := Merged(b.board, b.droppingBlock, b.droppingShape, b.droppingRow, b.droppingColumn);
            var newBlock := NextInQueue(s.upcomingBlocks);
            var next := CommitState(Uncleared(merged), newBlock, shapes).value;
            var r := LockStep(s, drawn, shapes, spawnCheckAfterLock);
            r.Some?
            && r.value.score == s.score + GetPoints(CountFull(merged)).value
            && r.value.isPlaying == !Collides(if spawnCheckAfterLock then next.board else b.board,
                                              shapes(newBlock), 0, SPAWN_COLUMN)
            && r.value.tickSpeed == Some(s.rampingTickSpeed)
            && !r.value.isCommitting
            && r.value.upcomingBlocks == AdvanceQueue(s.upcomingBlocks, drawn)
            && r.value.holdingBlock == s.holdingBlock
            && !r.value.justHeld
            && r.value.rampingTickSpeed == NextRamp(s.rampingTickSpeed)
            && r.value.boardState == next
  {
    var b := s.boardState;
    var merged := Merged(b.board, b.droppingBlock, b.droppingShape, b.droppingRow, b.droppingColumn);
    LockClearsAtMostShapeRows(b.board, b.droppingBlock, b.droppingShape, b.droppingRow, b.droppingColumn);
    LockedFields(s, drawn, shapes, merged, spawnCheckAfterLock);
  }

  /** LockedSession field by field, when at most 4 rows are full. */
  lemma LockedFields(s: Session, drawn: Block, shapes: Catalog, merged: Board, spawnCheckAfterLock: bool)
    requires |s.upcomingBlocks| > 0 && |merged| <= BOARD_HEIGHT && CountFull(merged) <= 4
    ensures var newBlock := NextInQueue(s.upcomingBlocks);
            var next := CommitState(Uncleared(merged), newBlock, shapes);
            var r := LockedSession(s, drawn, shapes, merged, spawnCheckAfterLock);
            next.Some? && r.Some?
            && r.value.score == s.score + GetPoints(CountFull(merged)).value
            && r.value.isPlaying == (s.isPlaying && !Collides(if spawnCheckAfterLock then next.value.board else s.boardState.board,
                                                               shapes(newBlock), 0, SPAWN_COLUMN))
            && r.value.tickSpeed == Some(s.rampingTickSpeed)
            && !r.value.isCommitting
            && r.value.upcomingBlocks == AdvanceQueue(s.upcomingBlocks, drawn)
            && r.value.holdingBlock == s.holdingBlock
            && !r.value.justHeld
            && r.value.rampingTickSpeed == NextRamp(s.rampingTickSpeed)
            && r.value.boardState == next.value
  {
    var points := GetPoints(CountFull(merged));
    assert points.Some?;
    var newBlock := NextInQueue(s.upcomingBlocks);
    var next := BoardReducer(s.boardState, Commit(Uncleared(merged), newBlock), shapes);
    assert next == CommitState(Uncleared(merged), newBlock, shapes);
  }

  /**
   * A lock never reaches the error of getPoints: the grid has no full row
   * before the lock and the piece spans at most 4 rows, so at most 4 rows are
   * cleared.
   */
  lemma LockNeverThrows(s: Session, drawn: Block, shapes: Catalog, spawnCheckAfterLock: bool)
    requires Inv(s) && s.isPlaying
    ensures LockStep(s, drawn, shapes, spawnCheckAfterLock).Some?
  {
    var b := s.boardState;
    LockClearsAtMostShapeRows(b.board, b.droppingBlock, b.droppingShape, b.droppingRow, b.droppingColumn);
  }

  /** A lock keeps the session invariant. */
  lemma LockKeepsInvariant(s: Session, drawn: Block, shapes: Catalog, spawnCheckAfterLock: bool)
    requires Inv(s) && s.isPlaying && ValidCatalog(shapes)
    ensures LockStep(s, drawn, shapes, spawnCheckAfterLock).Some?
    ensures Inv(LockStep(s, drawn, shapes, spawnCheckAfterLock).value)
  {
    var b := s.boardState;
    if Collides(b.board, b.droppingShape, b.droppingRow + 1, b.droppingColumn) {
      LockResult(s, drawn, shapes, spawnCheckAfterLock);
      var merged := Merged(b.board, b.droppingBlock, b.droppingShape, b.droppingRow, b.droppingColumn);
      var newBlock := NextInQueue(s.upcomingBlocks);
      CommittedGridValid(merged, newBlock, shapes);
      var next := CommitState(Uncleared(merged), newBlock, shapes).value;
      SmallShapeInBounds(next.board, shapes(newBlock), SPAWN_COLUMN);
      RampStep(s.rampingTickSpeed);
    }
  }

  /**
   * A lock adds getPoints of the number of full rows after the merge to the
   * score, keeps the queue length, spawns the block from the back of the
   * queue with the fresh draw at the front, clears the committing and
   * just-held flags, and resets the interval to the ramp.
   */
  lemma LockOutcome(s: Session, drawn: Block, shapes: Catalog)
    requires Inv(s) && s.isPlaying
    requires var b := s.boardState; Collides(b.board, b.droppingShape, b.droppingRow + 1, b.droppingColumn)
    ensures CommitStep(s, drawn, shapes).Some?
    ensures var b := s.boardState;
            var merged := Merged(b.board, b.droppingBlock, b.droppingShape, b.droppingRow, b.droppingColumn);
            var r := CommitStep(s, drawn, shapes).value;
            var q := s.upcomingBlocks;
            CountFull(merged) <= 4
            && r.score == s.score + GetPoints(CountFull(merged)).value && r.score >= s.score
            && |r.upcomingBlocks| == |q| && r.upcomingBlocks[0] == drawn
            && r.upcomingBlocks[1..] == q[..|q| - 1]
            && r.boardState.droppingBlock == q[|q| - 1]
            && r.boardState.droppingShape == shapes(q[|q| - 1])
            && r.boardState.droppingRow == 0 && r.boardState.droppingColumn == SPAWN_COLUMN
            && r.boardState.board[BOARD_HEIGHT - |Uncleared(merged)|..] == Uncleared(merged)
            && |Uncleared(merged)| == BOARD_HEIGHT - CountFull(merged)
            && !r.isCommitting && !r.justHeld && r.tickSpeed == Some(s.rampingTickSpeed)
            && r.holdingBlock == s.holdingBlock
  {
    var b := s.boardState;
    var merged := Merged(b.board, b.droppingBlock, b.droppingShape, b.droppingRow, b.droppingColumn);
    LockResult(s, drawn, shapes, true);
    ClearedPlusKept(merged);
  }

  /**
   * When a lock ends the game. As written: exactly when the next block's
   * catalog shape collides at the spawn point with the grid from before the
   * lock. Corrected: exactly when the spawned piece collides with the grid
   * it spawns into.
   */
  lemma LockGameOver(s: Session, drawn: Block, shapes: Catalog)
    requires Inv(s) && s.isPlaying
    requires var b := s.boardState; Collides(b.board, b.droppingShape, b.droppingRow + 1, b.droppingColumn)
    ensures CommitStepAsWritten(s, drawn, shapes).Some? && CommitStep(s, drawn, shapes).Some?
    ensures var w := CommitStepAsWritten(s, drawn, shapes).value;
            !w.isPlaying <==> Collides(s.boardState.board, shapes(NextInQueue(s.upcomingBlocks)), 0, SPAWN_COLUMN)
    ensures var r := CommitStep(s, drawn, shapes).value;
            var n := r.boardState;
            !r.isPlaying <==> Collides(n.board, n.droppingShape, n.droppingRow, n.droppingColumn)
  {
    LockResult(s, drawn, shapes, false);
    LockResult(s, drawn, shapes, true);
  }

  /** The ramp: 30 less on a lock while above 100, otherwise unchanged; it never rises and stays a ramp value (at least 80). */
  lemma RampStep(ramp: nat)
    requires RampValue(ramp)
    ensures RampValue(NextRamp(ramp))
    ensures NextRamp(ramp) <= ramp
    ensures NextRamp(ramp) == ramp - RAMP_STEP <==> ramp > RAMP_THRESHOLD
  {
  }

  /**
   * A tick: nothing when the game is over; a drop when the row below is
   * free; lock delay (Sliding speed, committing) when it is not; in lock
   * delay, a tick whose row below is free again only leaves lock delay.
   */
  lemma TickCases(s: Session, drawn: Block, shapes: Catalog, spawnCheckAfterLock: bool)
    requires Inv(s)
    ensures var b := s.boardState;
            var r := TickStep(s, drawn, shapes, spawnCheckAfterLock);
            var blocked := Collides(b.board, b.droppingShape, b.droppingRow + 1, b.droppingColumn);
            (!s.isPlaying ==> r == Some(s))
            && (s.isPlaying && !s.isCommitting && !blocked ==>
                  r == Some(s.(boardState := b.(droppingRow := b.droppingRow + 1))))
            && (s.isPlaying && !s.isCommitting && blocked ==>
                  r == Some(s.(tickSpeed := Some(SLIDING_SPEED), isCommitting := true)))
            && (s.isPlaying && s.isCommitting && !blocked ==>
                  r == Some(s.(isCommitting := false, tickSpeed := Some(s.rampingTickSpeed))))
  {
  }

  /** A tick keeps the invariant and never throws. */
  lemma TickKeepsInvariant(s: Session, drawn: Block, shapes: Catalog, spawnCheckAfterLock: bool)
    requires Inv(s) && ValidCatalog(shapes)
    ensures TickStep(s, drawn, shapes, spawnCheckAfterLock).Some?
    ensures Inv(TickStep(s, drawn, shapes, spawnCheckAfterLock).value)
  {
    var b := s.boardState;
    if s.isPlaying && s.isCommitting {
      LockKeepsInvariant(s, drawn, shapes, spawnCheckAfterLock);
    } else if s.isPlaying && !Collides(b.board, b.droppingShape, b.droppingRow + 1, b.droppingColumn) {
      NoCollisionMeansInBoundsAndEmpty(b.board, b.droppingShape, b.droppingRow + 1, b.droppingColumn);
    }
  }

  /** The accepted branch of HoldStep, field by field: the reducer's `commit` keeps the grid. */
  lemma HoldResult(s: Session, drawn: Block, shapes: Catalog)
    requires Inv(s) && s.isPlaying && !s.justHeld
    ensures var b := s.boardState;
            var newBlock := if s.holdingBlock.Some? then s.holdingBlock.value else NextInQueue(s.upcomingBlocks);
            var r := HoldStep(s, drawn, shapes);
            r.score == s.score
            && r.isPlaying == !Collides(b.board, shapes(newBlock), 0, SPAWN_COLUMN)
            && r.tickSpeed == Some(s.rampingTickSpeed)
            && !r.isCommitting
            && r.upcomingBlocks == (if s.holdingBlock.Some? then s.upcomingBlocks else AdvanceQueue(s.upcomingBlocks, drawn))
            && r.holdingBlock == Some(b.droppingBlock)
            && r.justHeld
            && r.rampingTickSpeed == s.rampingTickSpeed
            && r.boardState == BoardState(b.board, 0, SPAWN_COLUMN, newBlock, shapes(newBlock))
  {
    assert EmptyBoard(0) + s.boardState.board == s.boardState.board;
  }

  /**
   * Hold: allowed only while playing and not just held. It sets the
   * just-held flag, puts the active block in the hold slot, and spawns the
   * held block (queue untouched) or, with an empty slot, the back of the
   * queue (queue advanced). The grid and the score stay as they are.
   */
  lemma HoldOutcome(s: Session, drawn: Block, shapes: Catalog)
    requires Inv(s)
    ensures var r := HoldStep(s, drawn, shapes);
            var q := s.upcomingBlocks;
            (!s.isPlaying || s.justHeld ==> r == s)
            && (s.isPlaying && !s.justHeld ==>
                  r.justHeld && r.holdingBlock == Some(s.boardState.droppingBlock)
                  && r.boardState.board == s.boardState.board && r.score == s.score
                  && !r.isCommitting
                  && r.boardState.droppingRow == 0 && r.boardState.droppingColumn == SPAWN_COLUMN
                  && r.boardState.droppingShape == shapes(r.boardState.droppingBlock)
                  && (s.holdingBlock.Some? ==>
                        r.boardState.droppingBlock == s.holdingBlock.value && r.upcomingBlocks == q)
                  && (s.holdingBlock.None? ==>
                        r.boardState.droppingBlock == q[|q| - 1]
                        && |r.upcomingBlocks| == |q| && r.upcomingBlocks[0] == drawn
                        && r.upcomingBlocks[1..] == q[..|q| - 1]))
  {
    if s.isPlaying && !s.justHeld {
      HoldResult(s, drawn, shapes);
    }
  }

  /** A hold keeps the invariant. */
  lemma HoldKeepsInvariant(s: Session, drawn: Block, shapes: Catalog)
    requires Inv(s) && ValidCatalog(shapes)
    ensures Inv(HoldStep(s, drawn, shapes))
  {
    if s.isPlaying && !s.justHeld {
      HoldOutcome(s, drawn, shapes);
      var r := HoldStep(s, drawn, shapes);
      SmallShapeInBounds(r.boardState.board, r.boardState.droppingShape, SPAWN_COLUMN);
    }
  }

  /** A second hold before the next lock changes nothing. */
  lemma {:induction false} SecondHoldIsIgnored(s: Session, drawn: Block, again: Block, shapes: Catalog)
    requires Inv(s) && ValidCatalog(shapes)
    ensures Inv(HoldStep(s, drawn, shapes))
    ensures HoldStep(HoldStep(s, drawn, shapes), again, shapes) == HoldStep(s, drawn, shapes)
  {
    HoldKeepsInvariant(s, drawn, shapes);
    HoldOutcome(s, drawn, shapes);
  }

  /** A move keeps the invariant; it only changes the board state's column and orientation. */
  lemma MoveKeepsInvariant(s: Session, isPressingLeft: bool, isPressingRight: bool,
                           isRotatingClockwise: bool, isRotatingAnticlockwise: bool)
    requires Inv(s)
    ensures var r := MoveStep(s, isPressingLeft, isPressingRight, isRotatingClockwise, isRotatingAnticlockwise);
            Inv(r) && r.(boardState := s.boardState) == s
            && r.boardState.board == s.boardState.board && r.boardState.droppingRow == s.boardState.droppingRow
  {
    if s.isPlaying {
      var r := MoveStep(s, isPressingLeft, isPressingRight, isRotatingClockwise, isRotatingAnticlockwise);
      var b := r.boardState;
      if b != s.boardState {
        NoCollisionMeansInBoundsAndEmpty(b.board, b.droppingShape, b.droppingRow, b.droppingColumn);
      }
    }
  }

  /** Once the game is over, ticks, holds and moves change nothing and the score is frozen. */
  lemma GameOverIsFinal(s: Session, drawn: Block, shapes: Catalog, spawnCheckAfterLock: bool,
                        isPressingLeft: bool, isPressingRight: bool,
                        isRotatingClockwise: bool, isRotatingAnticlockwise: bool)
    requires Inv(s) && !s.isPlaying
    ensures TickStep(s, drawn, shapes, spawnCheckAfterLock) == Some(s)
    ensures HoldStep(s, drawn, shapes) == s
    ensures MoveStep(s, isPressingLeft, isPressingRight, isRotatingClockwise, isRotatingAnticlockwise) == s
  {
  }

  /** The score never decreases: a tick adds points or nothing, holds and moves leave it. */
  lemma ScoreNeverDecreases(s: Session, drawn: Block, shapes: Catalog, spawnCheckAfterLock: bool)
    requires Inv(s)
    ensures var r := TickStep(s, drawn, shapes, spawnCheckAfterLock);
            r.Some? ==> r.value.score >= s.score
    ensures HoldStep(s, drawn, shapes).score == s.score
  {
  }

  /**
   * Only a lock clears the just-held flag: a tick clears it only when it is
   * in lock delay with the row below blocked, and the new piece then spawns
   * at the spawn point; holds and moves keep it.
   */
  lemma OnlyLockClearsJustHeld(s: Session, drawn: Block, shapes: Catalog, spawnCheckAfterLock: bool,
                               isPressingLeft: bool, isPressingRight: bool,
                               isRotatingClockwise: bool, isRotatingAnticlockwise: bool)
    requires Inv(s) && s.justHeld
    ensures var b := s.boardState;
            var r := TickStep(s, drawn, shapes, spawnCheckAfterLock);
            r.Some? && !r.value.justHeld ==>
              (s.isPlaying && s.isCommitting
               && Collides(b.board, b.droppingShape, b.droppingRow + 1, b.droppingColumn)
               && r.value.boardState.droppingRow == 0 && r.value.boardState.droppingColumn == SPAWN_COLUMN)
    ensures HoldStep(s, drawn, shapes).justHeld
    ensures MoveStep(s, isPressingLeft, isPressingRight, isRotatingClockwise, isRotatingAnticlockwise).justHeld
  {
  }

  // ---------------------------------------------------------------- the controller

  /**
   * The grid work of a lock: the piece written into a copy of the grid, then
   * the full rows spliced out and counted.
   */
  method LockPiece(b: BoardState) returns (newBoard: Board, numCleared: nat)
    requires BoardInvariant(b)
    ensures var merged := Merged(b.board, b.droppingBlock, b.droppingShape, b.droppingRow, b.droppingColumn);
            newBoard == Uncleared(merged) && numCleared == CountFull(merged)
  {
    newBoard := AddShapeToBoard(b.board, b.droppingBlock, b.droppingShape, b.droppingRow, b.droppingColumn);
    newBoard, numCleared := ClearFullRows(newBoard);
  }

  /**
   * The locking half of commitPosition: merge and clear, draw the next block,
   * test the spawn point (on the grid from before the lock as the source does,
   * or on the committed grid), score, commit the new grid through the board
   * reducer, and slow the ramp.
   */
  method Lock(s: Session, drawn: Block, shapes: Catalog, spawnCheckAfterLock: bool) returns (r: Session)
    requires Inv(s) && s.isPlaying
    requires var b := s.boardState; Collides(b.board, b.droppingShape, b.droppingRow + 1, b.droppingColumn)
    ensures LockStep(s, drawn, shapes, spawnCheckAfterLock) == Some(r)
  {
    LockResult(s, drawn, shapes, spawnCheckAfterLock);
    var b := s.boardState;
    var newBoard, numCleared := LockPiece(b);

    var newBlock := s.upcomingBlocks[|s.upcomingBlocks| - 1];
    var newUpcomingBlocks := [drawn] + s.upcomingBlocks[..|s.upcomingBlocks| - 1];

    var next := BoardReducer(b, Commit(newBoard, newBlock), shapes).value;
    var spawnBoard := if spawnCheckAfterLock then next.board else b.board;
    var gameOver := HasCollisions(spawnBoard, shapes(newBlock), 0, SPAWN_COLUMN);
    var points := GetPoints(numCleared);
    var newRamp := if s.rampingTickSpeed > RAMP_THRESHOLD then s.rampingTickSpeed - RAMP_STEP else s.rampingTickSpeed;

    r := Session(s.score + points.value, if gameOver then false else s.isPlaying, Some(s.rampingTickSpeed), false,
                 newUpcomingBlocks, s.holdingBlock, false, newRamp, next);
    ghost var c := LockStep(s, drawn, shapes, spawnCheckAfterLock).value;
    assert r.score == c.score && r.isPlaying == c.isPlaying && r.tickSpeed == c.tickSpeed;
    assert r.isCommitting == c.isCommitting && r.upcomingBlocks == c.upcomingBlocks;
    assert r.holdingBlock == c.holdingBlock && r.justHeld == c.justHeld;
    assert r.rampingTickSpeed == c.rampingTickSpeed && r.boardState == c.boardState;
  }

  /**
   * swapHolding after the hold guard: the block that was in the hold slot
   * before the key (or the back of the queue, with a fresh draw at the front)
   * spawns through the reducer's `commit` with an unchanged grid, the
   * dropping block goes into the slot and the just-held flag is set.
   */
  method Swap(s: Session, drawn: Block, shapes: Catalog) returns (r: Session)
    requires Inv(s) && s.isPlaying && !s.justHeld
    ensures HoldStep(s, drawn, shapes) == r
  {
    HoldResult(s, drawn, shapes);
    var b := s.boardState;
    var newBlock;
    var newUpcomingBlocks := s.upcomingBlocks;
    if s.holdingBlock.Some? {
      newBlock := s.holdingBlock.value;
    } else {
      newBlock := newUpcomingBlocks[|newUpcomingBlocks| - 1];
      newUpcomingBlocks := [drawn] + newUpcomingBlocks[..|newUpcomingBlocks| - 1];
    }
    var gameOver := HasCollisions(b.board, shapes(newBlock), 0, SPAWN_COLUMN);
    var next := BoardReducer(b, Commit(b.board, newBlock), shapes).value;
    r := Session(s.score, if gameOver then false else s.isPlaying, Some(s.rampingTickSpeed), false,
                 newUpcomingBlocks, Some(b.droppingBlock), true, s.rampingTickSpeed, next);
    ghost var c := HoldStep(s, drawn, shapes);
    assert r.score == c.score && r.isPlaying == c.isPlaying && r.tickSpeed == c.tickSpeed;
    assert r.isCommitting == c.isCommitting && r.upcomingBlocks == c.upcomingBlocks;
    assert r.holdingBlock == c.holdingBlock && r.justHeld == c.justHeld;
    assert r.rampingTickSpeed == c.rampingTickSpeed && r.boardState == c.boardState;
  }

  /** The session controller: the hooks' state fields and the board state, updated by its handlers. */
  class Game {
    const shapes: Catalog
    /**
     * false runs the source as written (the lock's spawn test on the grid
     * from before the lock, startGame keeping the just-held flag); true runs
     * both corrections.
     */
    const corrected: bool
    var score: nat
    var isPlaying: bool
    var tickSpeed: Option<nat>
    var isCommitting: bool
    var upcomingBlocks: seq<Block>
    var holdingBlock: Option<Block>
    var justHeld: bool
    var rampingTickSpeed: nat
    var boardState: BoardState

    function State(): Session
      reads this
    {
      Session(score, isPlaying, tickSpeed, isCommitting, upcomingBlocks, holdingBlock, justHeld,
              rampingTickSpeed, boardState)
    }

    /** All fields at once, as the setters of one handler take effect together. */
    method SetState(r: Session)
      modifies this
      ensures State() == r
    {
      score, isPlaying, tickSpeed, isCommitting := r.score, r.isPlaying, r.tickSpeed, r.isCommitting;
      upcomingBlocks, holdingBlock, justHeld := r.upcomingBlocks, r.holdingBlock, r.justHeld;
      rampingTickSpeed, boardState := r.rampingTickSpeed, r.boardState;
    }

    ghost predicate Valid()
      reads this
    {
      ValidCatalog(shapes) && Inv(State()) && (corrected ==> PieceClear(State()))
    }

    constructor (shapes: Catalog, corrected: bool)
      requires ValidCatalog(shapes)
      ensures Valid() && this.shapes == shapes && this.corrected == corrected
      ensures State() == InitialSession(shapes)
    {
      this.shapes := shapes;
      this.corrected := corrected;
      score := 0;
      isPlaying := false;
      tickSpeed := None;
      isCommitting := false;
      upcomingBlocks := [];
      holdingBlock := None;
      justHeld := false;
      rampingTickSpeed := NORMAL_SPEED;
      boardState := BoardState(EmptyBoard(BOARD_HEIGHT), 0, 0, I, shapes(I));
      new;
      InitialSessionValid(shapes);
    }

    /**
     * startGame: three draws for the queue, then the reducer's `start` with a
     * fourth; the corrected game resets the just-held flag as well.
     */
    method StartGame(q0: Block, q1: Block, q2: Block, first: Block)
      requires Valid()
      modifies this
      ensures Valid()
      ensures State() == if corrected then RestartStep(old(State()), q0, q1, q2, first, shapes)
                         else StartStep(old(State()), q0, q1, q2, first, shapes)
    {
      if corrected {
        RestartKeepsInvariant(State(), q0, q1, q2, first, shapes);
      } else {
        StartGameOutcome(State(), q0, q1, q2, first, shapes);
      }
      var startingBlocks := [q0, q1, q2];
      var ramp := rampingTickSpeed;
      upcomingBlocks := startingBlocks;
      holdingBlock := None;
      score := 0;
      isPlaying := true;
      rampingTickSpeed := NORMAL_SPEED;
      tickSpeed := Some(ramp);
      if corrected {
        justHeld := false;
      }
      boardState := BoardReducer(boardState, Start(first), shapes).value;
    }

    /**
     * commitPosition: lock delay ends, either called off or locking the piece.
     * The setters of one handler take effect together, so the new fields are
     * gathered first and assigned at once; of the two interval settings the
     * last one wins.
     */
    method CommitPosition(drawn: Block)
      requires Valid() && isPlaying
      modifies this
      ensures Valid()
      ensures LockStep(old(State()), drawn, shapes, corrected) == Some(State())
    {
      var b := boardState;
      var blockedBelow := HasCollisions(b.board, b.droppingShape, b.droppingRow + 1, b.droppingColumn);
      var s := State();
      var r;
      if blockedBelow {
        LockKeepsInvariant(s, drawn, shapes, corrected);
        if corrected {
          SpawnCheckAfterLockKeepsPieceClear(s, drawn, shapes);
        }
        r := Lock(s, drawn, shapes, corrected);
      } else {
        r := s.(isCommitting := false, tickSpeed := Some(rampingTickSpeed));
        assert BoardInvariant(r.boardState) && (corrected ==> PieceClear(r));
      }
      SetState(r);
    }

    /** One timer tick: ignored when not playing, otherwise gameTick. */
    method GameTick(drawn: Block)
      requires Valid()
      modifies this
      ensures Valid()
      ensures TickStep(old(State()), drawn, shapes, corrected) == Some(State())
    {
      if !isPlaying {
        return;
      }
      if isCommitting {
        CommitPosition(drawn);
        return;
      }
      TickKeepsInvariant(State(), drawn, shapes, corrected);
      if corrected {
        TickKeepsPieceClear(State(), drawn, shapes);
      }
      var b := boardState;
      var blockedBelow := HasCollisions(b.board, b.droppingShape, b.droppingRow + 1, b.droppingColumn);
      var r;
      if blockedBelow {
        r := State().(tickSpeed := Some(SLIDING_SPEED), isCommitting := true);
      } else {
        r := State().(boardState := BoardReducer(b, Drop, shapes).value);
      }
      SetState(r);
    }

    /**
     * The hold key: its guard sets the just-held flag and the hold slot, then
     * swapHolding spawns the block that was in the slot before the key (or the
     * back of the queue) through the reducer's `commit` with an unchanged grid.
     * As in CommitPosition, the new fields are assigned at once.
     */
    method Hold(drawn: Block)
      requires Valid()
      modifies this
      ensures Valid()
      ensures State() == HoldStep(old(State()), drawn, shapes)
    {
      HoldKeepsInvariant(State(), drawn, shapes);
      if corrected {
        HoldKeepsPieceClear(State(), drawn, shapes);
      }
      if !isPlaying || justHeld {
        return;
      }
      var r := Swap(State(), drawn, shapes);
      SetState(r);
    }

    /** A movement or rotation key while playing: the reducer's `move`. */
    method Move(isPressingLeft: bool, isPressingRight: bool, isRotatingClockwise: bool, isRotatingAnticlockwise: bool)
      requires Valid()
      modifies this
      ensures Valid()
      ensures State() == MoveStep(old(State()), isPressingLeft, isPressingRight, isRotatingClockwise, isRotatingAnticlockwise)
    {
      MoveKeepsInvariant(State(), isPressingLeft, isPressingRight, isRotatingClockwise, isRotatingAnticlockwise);
      if corrected {
        MoveKeepsPieceClear(State(), isPressingLeft, isPressingRight, isRotatingClockwise, isRotatingAnticlockwise);
      }
      if !isPlaying {
        return;
      }
      boardState := ApplyMove(boardState, isPressingLeft, isPressingRight, isRotatingClockwise, isRotatingAnticlockwise);
    }

    /** The soft-drop key pressed while playing: Fast speed. */
    method PressSoftDrop()
      requires Valid()
      modifies this`tickSpeed
      ensures Valid()
      ensures tickSpeed == if isPlaying then Some(FAST_SPEED) else old(tickSpeed)
    {
      if isPlaying {
        tickSpeed := Some(FAST_SPEED);
      }
    }

    /** The soft-drop key released while playing: back to the ramp speed. */
    method ReleaseSoftDrop()
      requires Valid()
      modifies this`tickSpeed
      ensures Valid()
      ensures tickSpeed == if isPlaying then Some(rampingTickSpeed) else old(tickSpeed)
    {
      if isPlaying {
        tickSpeed := Some(rampingTickSpeed);
      }
    }

    /** The hard-drop key pressed while playing: HardDrop speed, a tick every 0 ms. */
    method PressHardDrop()
      requires Valid()
      modifies this`tickSpeed
      ensures Valid()
      ensures tickSpeed == if isPlaying then Some(HARD_DROP_SPEED) else old(tickSpeed)
    {
      if isPlaying {
        tickSpeed := Some(HARD_DROP_SPEED);
      }
    }

    /**
     * The grid handed to the renderer: while playing, the grid with the
     * falling piece written in; otherwise the grid alone. It is always full-size.
     */
    function RenderedBoard(): (rendered: Board)
      reads this
      requires Valid()
      ensures IsFullSize(rendered)
      ensures forall r, c :: 0 <= r < BOARD_HEIGHT && 0 <= c < BOARD_WIDTH ==>
                rendered[r][c] == if isPlaying && Covers(boardState.droppingShape, boardState.droppingRow, boardState.droppingColumn, r, c)
                                  then Filled(boardState.droppingBlock) else boardState.board[r][c]
    {
      if isPlaying then
        Merged(boardState.board, boardState.droppingBlock, boardState.droppingShape,
               boardState.droppingRow, boardState.droppingColumn)
      else boardState.board
    }
  }

  // ---------------------------------------------------------------- findings

  /** The falling piece does not overlap the stack while the game is on. */
  predicate PieceClear(s: Session) {
    var b := s.boardState;
    s.isPlaying ==> !Collides(b.board, b.droppingShape, b.droppingRow, b.droppingColumn)
  }

  /**
   * As written, the spawn test of a lock looks at the grid from before the
   * lock. A piece that locks at the spawn point, followed by a block of the
   * same orientation, passes the test though it lands on the cells just
   * locked: the game goes on with the new piece overlapping the stack.
   */
  lemma StaleSpawnCheckMissesOverlap(s: Session, drawn: Block, shapes: Catalog)
    requires Inv(s) && s.isPlaying && PieceClear(s)
    requires var b := s.boardState;
             b.droppingRow == 0 && b.droppingColumn == SPAWN_COLUMN
             && b.droppingShape == shapes(NextInQueue(s.upcomingBlocks))
             && Collides(b.board, b.droppingShape, 1, SPAWN_COLUMN)
             && NoFullRows(Merged(b.board, b.droppingBlock, b.droppingShape, 0, SPAWN_COLUMN))
    ensures CommitStepAsWritten(s, drawn, shapes).Some?
    ensures var r := CommitStepAsWritten(s, drawn, shapes).value;
            r.isPlaying && !PieceClear(r)
  {
    var b := s.boardState;
    LockResult(s, drawn, shapes, false);
    var merged := Merged(b.board, b.droppingBlock, b.droppingShape, 0, SPAWN_COLUMN);
    ClearWithoutFullRows(merged);
    assert EmptyBoard(0) + merged == merged;
    LockedPieceBlocksSpawn(b.board, b.droppingBlock, b.droppingShape);
  }

  /** A piece locked at the spawn point occupies cells that its own shape covers there. */
  lemma LockedPieceBlocksSpawn(board: Board, block: Block, shape: Shape)
    requires IsFullSize(board)
    requires !Collides(board, shape, 0, SPAWN_COLUMN) && Collides(board, shape, 1, SPAWN_COLUMN)
    ensures Collides(Merged(board, block, shape, 0, SPAWN_COLUMN), shape, 0, SPAWN_COLUMN)
  {
    var merged := Merged(board, block, shape, 0, SPAWN_COLUMN);
    var rows := Compact(shape);
    var i, j :| 0 <= i < |rows| && 0 <= j < |rows[i]| && rows[i][j] && Blocked(board, 1 + i, SPAWN_COLUMN + j);
    assert !Blocked(board, 0 + i, SPAWN_COLUMN + j);
    assert Covers(shape, 0, SPAWN_COLUMN, i, SPAWN_COLUMN + j);
    assert merged[i][SPAWN_COLUMN + j] == Filled(block);
    assert Blocked(merged, 0 + i, SPAWN_COLUMN + j);
  }

  /** The lock with the spawn test on the grid after the lock keeps the falling piece clear of the stack. */
  lemma SpawnCheckAfterLockKeepsPieceClear(s: Session, drawn: Block, shapes: Catalog)
    requires Inv(s) && s.isPlaying
    ensures LockStep(s, drawn, shapes, true).Some?
    ensures PieceClear(s) ==> PieceClear(LockStep(s, drawn, shapes, true).value)
  {
    LockNeverThrows(s, drawn, shapes, true);
  }

  /** A tick moves the piece down only onto free cells, and its lock spawns only onto free cells. */
  lemma TickKeepsPieceClear(s: Session, drawn: Block, shapes: Catalog)
    requires Inv(s) && PieceClear(s)
    ensures TickStep(s, drawn, shapes, true).Some?
    ensures PieceClear(TickStep(s, drawn, shapes, true).value)
  {
    if s.isPlaying && s.isCommitting {
      SpawnCheckAfterLockKeepsPieceClear(s, drawn, shapes);
    }
  }

  /** A hold spawns only when the spawn point is clear; otherwise the game ends. */
  lemma HoldKeepsPieceClear(s: Session, drawn: Block, shapes: Catalog)
    requires Inv(s) && PieceClear(s)
    ensures PieceClear(HoldStep(s, drawn, shapes))
  {
    if s.isPlaying && !s.justHeld {
      HoldResult(s, drawn, shapes);
    }
  }

  /** A move takes a candidate placement only when it does not collide. */
  lemma MoveKeepsPieceClear(s: Session, isPressingLeft: bool, isPressingRight: bool,
                            isRotatingClockwise: bool, isRotatingAnticlockwise: bool)
    requires Inv(s) && PieceClear(s)
    ensures PieceClear(MoveStep(s, isPressingLeft, isPressingRight, isRotatingClockwise, isRotatingAnticlockwise))
  {
    if s.isPlaying {
      MoveKeepsPlacementLegal(s.boardState, isPressingLeft, isPressingRight, isRotatingClockwise, isRotatingAnticlockwise);
    }
  }

  /**
   * As written, startGame does not reset the just-held flag. A game that
   * ended on a hold (the swapped-in block could not spawn) leaves the flag
   * set, so in the next game the hold key is ignored until the first lock.
   */
  lemma HoldLostAfterRestart(s: Session, drawn: Block, q0: Block, q1: Block, q2: Block, first: Block, shapes: Catalog)
    requires Inv(s) && s.isPlaying && !s.justHeld && ValidCatalog(shapes)
    requires var held := if s.holdingBlock.Some? then s.holdingBlock.value else NextInQueue(s.upcomingBlocks);
             Collides(s.boardState.board, shapes(held), 0, SPAWN_COLUMN)
    ensures Inv(StartStep(HoldStep(s, drawn, shapes), q0, q1, q2, first, shapes))
    ensures var over := HoldStep(s, drawn, shapes);
            var next := StartStep(over, q0, q1, q2, first, shapes);
            !over.isPlaying && next.isPlaying && HoldStep(next, drawn, shapes) == next
  {
    HoldResult(s, drawn, shapes);
    StartGameOutcome(HoldStep(s, drawn, shapes), q0, q1, q2, first, shapes);
  }

  /** startGame with the just-held flag reset. */
  function RestartStep(s: Session, q0: Block, q1: Block, q2: Block, first: Block, shapes: Catalog): Session {
    StartStep(s, q0, q1, q2, first, shapes).(justHeld := false)
  }

  /** A restart yields a valid session whose piece is clear of the (empty) stack. */
  lemma RestartKeepsInvariant(s: Session, q0: Block, q1: Block, q2: Block, first: Block, shapes: Catalog)
    requires ValidCatalog(shapes)
    ensures var r := RestartStep(s, q0, q1, q2, first, shapes);
            Inv(r) && PieceClear(r) && !r.justHeld
  {
    StartGameOutcome(s, q0, q1, q2, first, shapes);
  }

  /** With the flag reset, the first block of every new game can be held. */
  lemma RestartAllowsHold(s: Session, drawn: Block, q0: Block, q1: Block, q2: Block, first: Block, shapes: Catalog)
    requires ValidCatalog(shapes)
    ensures Inv(RestartStep(s, q0, q1, q2, first, shapes))
    ensures var r := HoldStep(RestartStep(s, q0, q1, q2, first, shapes), drawn, shapes);
            r.justHeld && r.holdingBlock == Some(first) && r.boardState.droppingBlock == q2
  {
    StartGameOutcome(s, q0, q1, q2, first, shapes);
    var start := RestartStep(s, q0, q1, q2, first, shapes);
    HoldOutcome(start, drawn, shapes);
  }
}
