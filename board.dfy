/** Option, for the operations of the game that can fail (the source throws). */
module Wrappers {
  datatype Option<+T> = None | Some(value: T)
}

/**
 * The board state machine of the game: the grid, the collision test, the two
 * rotations and the board reducer with its four actions (start, drop, commit,
 * move). Random draws and the shape catalog are parameters.
 */
module TetrisBoard {
  import opened Wrappers

  const BOARD_WIDTH: nat := 10
  const BOARD_HEIGHT: nat := 20
  /** Every new piece appears at row 0 of this column. */
  const SPAWN_COLUMN: int := 3

  datatype Block = I | J | L | O | S | T | Z

  /** A grid cell is empty or holds the kind of the piece locked there. */
  datatype Cell = Empty | Filled(block: Block)

  type Row = seq<Cell>
  type Board = seq<Row>
  type Shape = seq<seq<bool>>

  /** The piece catalog: the base shape of every block kind. */
  type Catalog = Block -> Shape

  // ---------------------------------------------------------------- grid

  predicate IsEmptyRow(row: Row) {
    |row| == BOARD_WIDTH && forall c :: 0 <= c < |row| ==> row[c] == Empty
  }

  /** Every row of the grid is BOARD_WIDTH cells wide. */
  predicate IsBoard(board: Board) {
    forall r :: 0 <= r < |board| ==> |board[r]| == BOARD_WIDTH
  }

  /** The grid has the playing dimensions, BOARD_HEIGHT by BOARD_WIDTH. */
  predicate IsFullSize(board: Board) {
    |board| == BOARD_HEIGHT && IsBoard(board)
  }

  /** A grid of the given height whose cells are all empty. */
  function EmptyBoard(height: nat): (b: Board)
    ensures |b| == height && IsBoard(b)
    ensures forall r :: 0 <= r < |b| ==> IsEmptyRow(b[r])
  {
    seq(height, _ => seq(BOARD_WIDTH, _ => Empty))
  }

  // ---------------------------------------------------------------- shapes

  predicate HasSetCell(row: seq<bool>) {
    exists j :: 0 <= j < |row| && row[j]
  }

  /** A non-empty square boolean matrix. */
  predicate IsSquare(shape: Shape) {
    |shape| > 0 && forall i :: 0 <= i < |shape| ==> |shape[i]| == |shape|
  }

  /** The catalog shapes are square matrices of size 1 to 4. */
  predicate ValidCatalog(shapes: Catalog) {
    forall b: Block :: IsSquare(shapes(b)) && |shapes(b)| <= 4
  }

  /**
   * The shape with every all-false row dropped and the remaining rows
   * re-indexed from 0. Both the collision test and the merge look at the
   * shape through this view.
   */
  function Compact(shape: Shape): (rows: Shape)
    ensures |rows| <= |shape|
    ensures forall i :: 0 <= i < |rows| ==> HasSetCell(rows[i]) && rows[i] in shape
  {
    if shape == [] then []
    else if HasSetCell(shape[0]) then [shape[0]] + Compact(shape[1..])
    else Compact(shape[1..])
  }

  /** Compact drops only blank rows: every row with a set cell is kept. */
  lemma {:induction false} CompactKeepsSetRows(shape: Shape, i: nat)
    requires i < |shape| && HasSetCell(shape[i])
    ensures shape[i] in Compact(shape)
  {
    if i > 0 {
      assert shape[1..][i - 1] == shape[i];
      CompactKeepsSetRows(shape[1..], i - 1);
    }
  }

  // ---------------------------------------------------------------- collisions

  /**
   * Grid cell (r, c) cannot take a piece cell: it is below the last row,
   * beyond the width of row 0, left of column 0, missing from its row, or
   * not empty.
   */
  predicate Blocked(board: Board, r: nat, c: int) {
    r >= |board| || c >= |board[0]| || c < 0 || c >= |board[r]| || board[r][c] != Empty
  }

  /** Some set cell of the compacted shape, anchored at (row, column), lands on a blocked cell. */
  predicate Collides(board: Board, shape: Shape, row: nat, column: int) {
    var rows := Compact(shape);
    exists i, j :: 0 <= i < |rows| && 0 <= j < |rows[i]| && rows[i][j] && Blocked(board, row + i, column + j)
  }

  /** Some set cell among the first k compacted rows lands on a blocked cell. */
  predicate CollidesWithin(board: Board, rows: Shape, row: nat, column: int, k: nat)
    requires k <= |rows|
  {
    exists i, j :: 0 <= i < k && 0 <= j < |rows[i]| && rows[i][j] && Blocked(board, row + i, column + j)
  }

  /** Some set cell among the first k cells of one compacted row lands on a blocked cell. */
  predicate RowCollidesWithin(board: Board, shapeRow: seq<bool>, r: nat, column: int, k: nat)
    requires k <= |shapeRow|
  {
    exists j :: 0 <= j < k && shapeRow[j] && Blocked(board, r, column + j)
  }

  /** The collision test: nested loops over the compacted shape raising a flag. */
  method HasCollisions(board: Board, currentShape: Shape, row: nat, column: int) returns (hasCollision: bool)
    ensures hasCollision == Collides(board, currentShape, row, column)
  {
    hasCollision := false;
    var rows := Compact(currentShape);
    var rowIndex := 0;
    while rowIndex < |rows|
      invariant 0 <= rowIndex <= |rows|
      invariant hasCollision == CollidesWithin(board, rows, row, column, rowIndex)
    {
      var shapeRow := rows[rowIndex];
      var colIndex := 0;
      while colIndex < |shapeRow|
        invariant 0 <= colIndex <= |shapeRow|
        invariant hasCollision == (CollidesWithin(board, rows, row, column, rowIndex)
                                   || RowCollidesWithin(board, shapeRow, row + rowIndex, column, colIndex))
      {
        if shapeRow[colIndex] && Blocked(board, row + rowIndex, column + colIndex) {
          hasCollision := true;
        }
        colIndex := colIndex + 1;
      }
      CollidesWithinNext(board, rows, row, column, rowIndex);
      rowIndex := rowIndex + 1;
    }
  }

  lemma CollidesWithinNext(board: Board, rows: Shape, row: nat, column: int, k: nat)
    requires k < |rows|
    ensures CollidesWithin(board, rows, row, column, k + 1)
            == (CollidesWithin(board, rows, row, column, k)
                || RowCollidesWithin(board, rows[k], row + k, column, |rows[k]|))
  {
    if RowCollidesWithin(board, rows[k], row + k, column, |rows[k]|) {
      var j :| 0 <= j < |rows[k]| && rows[k][j] && Blocked(board, row + k, column + j);
      assert rows[k][j];
    }
  }

  /** Every set cell of the compacted shape anchored at (row, column) lies inside the grid. */
  predicate InBounds(board: Board, shape: Shape, row: nat, column: int) {
    var rows := Compact(shape);
    forall i, j :: 0 <= i < |rows| && 0 <= j < |rows[i]| && rows[i][j] ==>
      row + i < |board| && 0 <= column + j < |board[row + i]|
  }

  /** A placement that does not collide lies inside the grid and covers only empty cells. */
  lemma NoCollisionMeansInBoundsAndEmpty(board: Board, shape: Shape, row: nat, column: int)
    requires IsBoard(board)
    requires !Collides(board, shape, row, column)
    ensures InBounds(board, shape, row, column)
    ensures var rows := Compact(shape);
            forall i, j :: 0 <= i < |rows| && 0 <= j < |rows[i]| && rows[i][j] ==>
              row + i < |board| && 0 <= column + j < BOARD_WIDTH && board[row + i][column + j] == Empty
  {
  }

  /** A shape with no set cell never collides, wherever it is placed. */
  lemma BlankShapeNeverCollides(board: Board, shape: Shape, row: nat, column: int)
    requires forall i :: 0 <= i < |shape| ==> !HasSetCell(shape[i])
    ensures !Collides(board, shape, row, column)
  {
  }

  /** A square shape of size at most 7 placed at the spawn point of an empty grid is legal. */
  lemma SpawnIsLegalOnEmptyBoard(shape: Shape)
    requires IsSquare(shape) && |shape| <= 7
    ensures !Collides(EmptyBoard(BOARD_HEIGHT), shape, 0, SPAWN_COLUMN)
  {
    var board := EmptyBoard(BOARD_HEIGHT);
    var rows := Compact(shape);
    forall i, j | 0 <= i < |rows| && 0 <= j < |rows[i]| && rows[i][j]
      ensures !Blocked(board, i, SPAWN_COLUMN + j)
    {
      assert rows[i] in shape;
      assert IsEmptyRow(board[i]);
    }
  }

  /**
   * A square shape of size at most 4 anchored on row 0 of a full-size grid, at
   * a column from 0 to BOARD_WIDTH - 4, lies inside the grid.
   */
  lemma SmallShapeInBounds(board: Board, shape: Shape, column: int)
    requires IsFullSize(board)
    requires IsSquare(shape) && |shape| <= 4
    requires 0 <= column <= BOARD_WIDTH - 4
    ensures InBounds(board, shape, 0, column)
  {
    var rows := Compact(shape);
    forall i, j | 0 <= i < |rows| && 0 <= j < |rows[i]| && rows[i][j]
      ensures i < |board| && 0 <= column + j < |board[i]|
    {
      assert rows[i] in shape;
    }
  }

  // ---------------------------------------------------------------- rotations

  /** Clockwise quarter turn of a square matrix: cell (row, column) moves to (column, n - 1 - row). */
  function Clockwise(shape: Shape): (r: Shape)
    requires IsSquare(shape)
    ensures IsSquare(r) && |r| == |shape|
  {
    var n := |shape|;
    seq(n, a requires 0 <= a < n => seq(n, b requires 0 <= b < n => shape[n - 1 - b][a]))
  }

  /** Anticlockwise quarter turn of a square matrix: cell (column, row) moves to (n - 1 - row, column). */
  function Anticlockwise(shape: Shape): (r: Shape)
    requires IsSquare(shape)
    ensures IsSquare(r) && |r| == |shape|
  {
    var n := |shape|;
    seq(n, a requires 0 <= a < n => seq(n, b requires 0 <= b < n => shape[b][n - 1 - a]))
  }

  /** The clockwise rotation: a fresh matrix filled by two nested loops. */
  method RotateBlockClockwise(shape: Shape) returns (rotated: Shape)
    requires IsSquare(shape)
    ensures rotated == Clockwise(shape)
  {
    var rows := |shape|;
    var columns := |shape[0]|;
    var grid := new bool[rows, columns]((_, _) => false);
    for row := 0 to rows
      invariant forall a, b :: 0 <= a < columns && rows - row <= b < rows ==> grid[a, b] == shape[rows - 1 - b][a]
    {
      for column := 0 to columns
        invariant forall a, b :: 0 <= a < columns && rows - row <= b < rows ==> grid[a, b] == shape[rows - 1 - b][a]
        invariant forall a :: 0 <= a < column ==> grid[a, rows - 1 - row] == shape[row][a]
      {
        grid[column, rows - 1 - row] := shape[row][column];
      }
    }
    rotated := seq(rows, a requires 0 <= a < rows reads grid => seq(columns, b requires 0 <= b < columns reads grid => grid[a, b]));
    forall a | 0 <= a < rows ensures rotated[a] == Clockwise(shape)[a] {
      assert |rotated[a]| == |Clockwise(shape)[a]|;
    }
  }

  /** The anticlockwise rotation: a fresh matrix filled by two nested loops. */
  method RotateBlockAnticlockwise(shape: Shape) returns (rotated: Shape)
    requires IsSquare(shape)
    ensures rotated == Anticlockwise(shape)
  {
    var rows := |shape|;
    var columns := |shape[0]|;
    var grid := new bool[rows, columns]((_, _) => false);
    for row := 0 to rows
      invariant forall a, b :: rows - row <= a < rows && 0 <= b < columns ==> grid[a, b] == shape[b][rows - 1 - a]
    {
      for column := 0 to columns
        invariant forall a, b :: rows - row <= a < rows && 0 <= b < columns ==> grid[a, b] == shape[b][rows - 1 - a]
        invariant forall b :: 0 <= b < column ==> grid[rows - 1 - row, b] == shape[b][row]
      {
        grid[rows - 1 - row, column] := shape[column][row];
      }
    }
    rotated := seq(rows, a requires 0 <= a < rows reads grid => seq(columns, b requires 0 <= b < columns reads grid => grid[a, b]));
    forall a | 0 <= a < rows ensures rotated[a] == Anticlockwise(shape)[a] {
      assert |rotated[a]| == |Anticlockwise(shape)[a]|;
    }
  }

  /** The two rotations undo each other. */
  lemma RotationsAreInverse(shape: Shape)
    requires IsSquare(shape)
    ensures Anticlockwise(Clockwise(shape)) == shape
    ensures Clockwise(Anticlockwise(shape)) == shape
  {
    var n := |shape|;
    var ac := Anticlockwise(Clockwise(shape));
    forall a | 0 <= a < n ensures ac[a] == shape[a] {
      assert |ac[a]| == |shape[a]|;
    }
    var ca := Clockwise(Anticlockwise(shape));
    forall a | 0 <= a < n ensures ca[a] == shape[a] {
      assert |ca[a]| == |shape[a]|;
    }
  }

  /** Two clockwise quarter turns are a half turn: cell (a, b) comes from (n - 1 - a, n - 1 - b). */
  lemma HalfTurn(shape: Shape)
    requires IsSquare(shape)
    ensures var h := Clockwise(Clockwise(shape));
            forall a, b :: 0 <= a < |shape| && 0 <= b < |shape| ==> h[a][b] == shape[|shape| - 1 - a][|shape| - 1 - b]
  {
  }

  /** Four clockwise quarter turns give back the original matrix. */
  lemma FourClockwiseTurns(shape: Shape)
    requires IsSquare(shape)
    ensures Clockwise(Clockwise(Clockwise(Clockwise(shape)))) == shape
  {
    var n := |shape|;
    var h := Clockwise(Clockwise(shape));
    HalfTurn(shape);
    HalfTurn(h);
    var f := Clockwise(Clockwise(h));
    forall a | 0 <= a < n ensures f[a] == shape[a] {
      assert |f[a]| == |shape[a]|;
      forall b | 0 <= b < n ensures f[a][b] == shape[a][b] {
        assert f[a][b] == h[n - 1 - a][n - 1 - b];
      }
    }
  }

  /** Four anticlockwise quarter turns give back the original matrix. */
  lemma FourAnticlockwiseTurns(shape: Shape)
    requires IsSquare(shape)
    ensures Anticlockwise(Anticlockwise(Anticlockwise(Anticlockwise(shape)))) == shape
  {
    var a1 := Anticlockwise(shape);
    var a2 := Anticlockwise(a1);
    var a3 := Anticlockwise(a2);
    var a4 := Anticlockwise(a3);
    RotationsAreInverse(a3);
    RotationsAreInverse(a2);
    RotationsAreInverse(a1);
    RotationsAreInverse(shape);
    FourClockwiseTurns(a4);
    // a4 turned clockwise four times is a4 with its four anticlockwise turns undone
    assert Clockwise(a4) == a3;
    assert Clockwise(a3) == a2;
    assert Clockwise(a2) == a1;
    assert Clockwise(a1) == shape;
  }

  /** The set cells of a square matrix, as (row, column) pairs. */
  function SetCells(shape: Shape): set<(int, int)>
    requires IsSquare(shape)
  {
    set a, b | 0 <= a < |shape| && 0 <= b < |shape| && shape[a][b] :: (a, b)
  }

  /** Where a clockwise quarter turn of an n-by-n matrix moves cell p. */
  function TurnCell(p: (int, int), n: int): (int, int) {
    (p.1, n - 1 - p.0)
  }

  lemma TurnImageSize(cells: set<(int, int)>, n: int)
    ensures |set p | p in cells :: TurnCell(p, n)| == |cells|
    decreases |cells|
  {
    if cells != {} {
      var x :| x in cells;
      var rest := cells - {x};
      TurnImageSize(rest, n);
      var image := set p | p in cells :: TurnCell(p, n);
      var restImage := set p | p in rest :: TurnCell(p, n);
      assert image == restImage + {TurnCell(x, n)};
      assert TurnCell(x, n) !in restImage;
    }
  }

  /** A clockwise quarter turn keeps the number of set cells. */
  lemma {:induction false} ClockwiseKeepsCellCount(shape: Shape)
    requires IsSquare(shape)
    ensures |SetCells(Clockwise(shape))| == |SetCells(shape)|
  {
    var n := |shape|;
    var r := Clockwise(shape);
    var image := set p | p in SetCells(shape) :: TurnCell(p, n);
    forall q | q in SetCells(r) ensures q in image {
      assert TurnCell((n - 1 - q.1, q.0), n) == q;
    }
    TurnImageSize(SetCells(shape), n);
    assert SetCells(r) == image;
  }

  /** An anticlockwise quarter turn keeps the number of set cells. */
  lemma AnticlockwiseKeepsCellCount(shape: Shape)
    requires IsSquare(shape)
    ensures |SetCells(Anticlockwise(shape))| == |SetCells(shape)|
  {
    RotationsAreInverse(shape);
    ClockwiseKeepsCellCount(Anticlockwise(shape));
  }

  // ---------------------------------------------------------------- reducer

  /** The board state: grid plus the falling piece's anchor, kind and current orientation. */
  datatype BoardState = BoardState(
    board: Board,
    droppingRow: nat,
    droppingColumn: int,
    droppingBlock: Block,
    droppingShape: Shape)

  /** The reducer's actions; the random block of `start` is supplied by the caller. */
  datatype Action =
    | Start(firstBlock: Block)
    | Drop
    | Commit(newBoard: Board, newBlock: Block)
    | Move(isPressingLeft: bool, isPressingRight: bool,
           isRotatingClockwise: bool, isRotatingAnticlockwise: bool)

  /** A move's candidate orientation: clockwise wins over anticlockwise. */
  function RotatedShape(shape: Shape, isRotatingClockwise: bool, isRotatingAnticlockwise: bool): (r: Shape)
    requires isRotatingClockwise || isRotatingAnticlockwise ==> IsSquare(shape)
  {
    if isRotatingClockwise then Clockwise(shape)
    else if isRotatingAnticlockwise then Anticlockwise(shape)
    else shape
  }

  /** A move's column offset: pressing right overrides pressing left. */
  function ColumnOffset(isPressingLeft: bool, isPressingRight: bool): int {
    var offset := if isPressingLeft then -1 else 0;
    if isPressingRight then 1 else offset
  }

  /** The state after `start`: an empty full-size grid and the drawn block at the spawn point. */
  function StartState(firstBlock: Block, shapes: Catalog): (r: BoardState)
    ensures IsFullSize(r.board) && forall k :: 0 <= k < |r.board| ==> IsEmptyRow(r.board[k])
    ensures r.droppingRow == 0 && r.droppingColumn == SPAWN_COLUMN
    ensures r.droppingBlock == firstBlock && r.droppingShape == shapes(firstBlock)
  {
    BoardState(EmptyBoard(BOARD_HEIGHT), 0, SPAWN_COLUMN, firstBlock, shapes(firstBlock))
  }

  /** The state after `drop`: one row lower, no collision check. */
  function DropState(state: BoardState): (r: BoardState)
    ensures r.droppingRow == state.droppingRow + 1
    ensures r.board == state.board && r.droppingColumn == state.droppingColumn
    ensures r.droppingBlock == state.droppingBlock && r.droppingShape == state.droppingShape
  {
    state.(droppingRow := state.droppingRow + 1)
  }

  /**
   * The state after `commit`: the supplied grid padded on top with empty rows
   * up to BOARD_HEIGHT, and the new block at the spawn point. A supplied grid
   * taller than BOARD_HEIGHT asks for an empty grid of negative height, which
   * throws: None.
   */
  function CommitState(newBoard: Board, newBlock: Block, shapes: Catalog): (r: Option<BoardState>)
    ensures r.Some? <==> |newBoard| <= BOARD_HEIGHT
    ensures r.Some? ==>
      var pad := BOARD_HEIGHT - |newBoard|;
      |r.value.board| == BOARD_HEIGHT
      && (forall k :: 0 <= k < pad ==> IsEmptyRow(r.value.board[k]))
      && r.value.board[pad..] == newBoard
      && r.value.droppingRow == 0 && r.value.droppingColumn == SPAWN_COLUMN
      && r.value.droppingBlock == newBlock && r.value.droppingShape == shapes(newBlock)
  {
    if |newBoard| > BOARD_HEIGHT then None
    else
      var padded := EmptyBoard(BOARD_HEIGHT - |newBoard|) + newBoard;
      assert padded[BOARD_HEIGHT - |newBoard|..] == newBoard;
      Some(BoardState(padded, 0, SPAWN_COLUMN, newBlock, shapes(newBlock)))
  }

  /**
   * The state after `move`: the candidate orientation and column are tested
   * together at the current row; if they collide nothing changes, otherwise
   * both are taken at once.
   */
  function MoveState(state: BoardState, isPressingLeft: bool, isPressingRight: bool,
                     isRotatingClockwise: bool, isRotatingAnticlockwise: bool): (r: BoardState)
    requires isRotatingClockwise || isRotatingAnticlockwise ==> IsSquare(state.droppingShape)
    ensures r.board == state.board && r.droppingRow == state.droppingRow && r.droppingBlock == state.droppingBlock
    ensures r == state || !Collides(r.board, r.droppingShape, r.droppingRow, r.droppingColumn)
    ensures IsSquare(state.droppingShape) ==> IsSquare(r.droppingShape) && |r.droppingShape| == |state.droppingShape|
  {
    var shape := RotatedShape(state.droppingShape, isRotatingClockwise, isRotatingAnticlockwise);
    var column := state.droppingColumn + ColumnOffset(isPressingLeft, isPressingRight);
    if !Collides(state.board, shape, state.droppingRow, column) then
      state.(droppingColumn := column, droppingShape := shape)
    else
      state
  }

  /**
   * The `move` case as the source runs it: a fresh rotated matrix from the
   * rotation loops, the offset, one collision test, then both updates or none.
   */
  method ApplyMove(state: BoardState, isPressingLeft: bool, isPressingRight: bool,
                   isRotatingClockwise: bool, isRotatingAnticlockwise: bool) returns (newState: BoardState)
    requires isRotatingClockwise || isRotatingAnticlockwise ==> IsSquare(state.droppingShape)
    ensures newState == MoveState(state, isPressingLeft, isPressingRight, isRotatingClockwise, isRotatingAnticlockwise)
  {
    newState := state;
    var rotatedShape := state.droppingShape;
    if isRotatingClockwise {
      rotatedShape := RotateBlockClockwise(state.droppingShape);
    } else if isRotatingAnticlockwise {
      rotatedShape := RotateBlockAnticlockwise(state.droppingShape);
    }
    var columnOffset := if isPressingLeft then -1 else 0;
    columnOffset := if isPressingRight then 1 else columnOffset;
    var collision := HasCollisions(state.board, rotatedShape, state.droppingRow, state.droppingColumn + columnOffset);
    if !collision {
      newState := newState.(droppingColumn := newState.droppingColumn + columnOffset, droppingShape := rotatedShape);
    }
  }

  /** The reducer's precondition: only a rotating move needs the orientation to be square. */
  predicate CanReduce(state: BoardState, action: Action) {
    action.Move? && (action.isRotatingClockwise || action.isRotatingAnticlockwise) ==> IsSquare(state.droppingShape)
  }

  /**
   * The board reducer. Every action tag is handled (the action type is closed);
   * only a `commit` whose grid is taller than BOARD_HEIGHT fails.
   */
  function BoardReducer(state: BoardState, action: Action, shapes: Catalog): (r: Option<BoardState>)
    requires CanReduce(state, action)
    ensures r.None? <==> action.Commit? && |action.newBoard| > BOARD_HEIGHT
  {
    match action
    case Start(firstBlock) => Some(StartState(firstBlock, shapes))
    case Drop => Some(DropState(state))
    case Commit(newBoard, newBlock) => CommitState(newBoard, newBlock, shapes)
    case Move(left, right, cw, acw) => Some(MoveState(state, left, right, cw, acw))
  }

  /** The outcome of `move`, case by case: what the candidate is and when it is taken. */
  lemma MoveOutcome(state: BoardState, isPressingLeft: bool, isPressingRight: bool,
                    isRotatingClockwise: bool, isRotatingAnticlockwise: bool)
    requires IsSquare(state.droppingShape)
    ensures var r := MoveState(state, isPressingLeft, isPressingRight, isRotatingClockwise, isRotatingAnticlockwise);
            var offset := if isPressingRight then 1 else if isPressingLeft then -1 else 0;
            var shape := if isRotatingClockwise then Clockwise(state.droppingShape)
                         else if isRotatingAnticlockwise then Anticlockwise(state.droppingShape)
                         else state.droppingShape;
            (Collides(state.board, shape, state.droppingRow, state.droppingColumn + offset) ==> r == state)
            && (!Collides(state.board, shape, state.droppingRow, state.droppingColumn + offset) ==>
                  r.droppingColumn == state.droppingColumn + offset && r.droppingShape == shape)
  {
  }

  /** A legal placement stays legal and square through `move`; the orientation keeps its size. */
  lemma MoveKeepsPlacementLegal(state: BoardState, isPressingLeft: bool, isPressingRight: bool,
                                isRotatingClockwise: bool, isRotatingAnticlockwise: bool)
    requires IsSquare(state.droppingShape)
    requires !Collides(state.board, state.droppingShape, state.droppingRow, state.droppingColumn)
    ensures var r := MoveState(state, isPressingLeft, isPressingRight, isRotatingClockwise, isRotatingAnticlockwise);
            !Collides(r.board, r.droppingShape, r.droppingRow, r.droppingColumn)
            && IsSquare(r.droppingShape) && |r.droppingShape| == |state.droppingShape|
  {
  }

  /**
   * Every action leaves a full-size grid: start builds one, drop and move keep
   * the grid, commit pads any grid of at most BOARD_HEIGHT rows of width
   * BOARD_WIDTH back to full height.
   */
  lemma ReducerKeepsDimensions(state: BoardState, action: Action, shapes: Catalog)
    requires CanReduce(state, action)
    requires IsFullSize(state.board)
    requires action.Commit? ==> IsBoard(action.newBoard) && |action.newBoard| <= BOARD_HEIGHT
    ensures BoardReducer(state, action, shapes).Some?
    ensures IsFullSize(BoardReducer(state, action, shapes).value.board)
  {
    match action
    case Commit(newBoard, newBlock) =>
      var r := CommitState(newBoard, newBlock, shapes).value;
      var pad := BOARD_HEIGHT - |newBoard|;
      forall k | 0 <= k < |r.board| ensures |r.board[k]| == BOARD_WIDTH {
        if k < pad {
          assert IsEmptyRow(r.board[k]);
        } else {
          assert r.board[k] == r.board[pad..][k - pad];
        }
      }
    case _ =>
  }
}
