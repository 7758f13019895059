/** The situations that the game's own tests describe, stated as lemmas
    about the board rules. */
module BoardScenarios {
  import opened Game
  import opened Board

  function EmptyBoard(): (b: Grid)
    ensures IsBoard(b) && IsEmpty(b)
  {
    CreateContainer(BoardSize)
  }

  /** A negative origin is refused whatever the piece. */
  lemma NegativeOriginFails(board: Grid, x: int, y: int, block: Grid)
    requires IsBoard(board) && (x < 0 || y < 0)
    ensures PlaceBlock(board, x, y, block) == Results.Err(IncorrectPosition)
  {
  }

  /** The placement test, step 1: the horizontal pair at (0, 0) on an
      empty board paints exactly (0, 0) and (0, 1) green. */
  lemma PairAtOrigin()
    ensures var r := PlaceBlock(EmptyBoard(), 0, 0, BlockShape(1));
      && r.Ok?
      && forall p, q | OnBoard(p, q) :: r.value[p][q] == if p == 0 && q < 2 then Green else None
  {
    assert Placeable(EmptyBoard(), 0, 0, BlockShape(1));
  }

  function AfterPair(): (b: Grid)
    ensures IsBoard(b)
    ensures forall p, q | OnBoard(p, q) :: b[p][q] == if p == 0 && q < 2 then Green else None
  {
    PairAtOrigin();
    PlaceBlock(EmptyBoard(), 0, 0, BlockShape(1)).value
  }

  /** Step 2: the vertical five-bar at row 8 would run off the board. */
  lemma FiveBarOffEdge()
    ensures PlaceBlock(AfterPair(), 8, 0, BlockShape(8)).Err?
  {
    assert Occupied(BlockShape(8), 2, 0);
  }

  /** Step 3: the 2x2 square at (8, 8) just reaches the corner. */
  lemma SquareAtCorner()
    ensures var r := PlaceBlock(AfterPair(), 8, 8, BlockShape(9));
      && r.Ok?
      && forall p, q | OnBoard(p, q) ::
           r.value[p][q] == if p == 0 && q < 2 then Green else if 8 <= p && 8 <= q then Cyan else None
  {
    var square := BlockShape(9);
    assert forall i, j | Occupied(square, i, j) :: 0 <= i < 2 && 0 <= j < 2;
    assert forall i, j | 0 <= i < 2 && 0 <= j < 2 :: Occupied(square, i, j) && square[i][j] == Cyan;
    assert Placeable(AfterPair(), 8, 8, square);
  }

  function AfterSquare(): (b: Grid)
    ensures IsBoard(b)
    ensures forall p, q | OnBoard(p, q) ::
      b[p][q] == if p == 0 && q < 2 then Green else if 8 <= p && 8 <= q then Cyan else None
  {
    SquareAtCorner();
    PlaceBlock(AfterPair(), 8, 8, BlockShape(9)).value
  }

  /** Steps 4 to 9: the dot is refused on an occupied cell and at origins
      off the board, and accepted on the free cell beside the square. */
  lemma DotPlacements()
    ensures PlaceBlock(AfterSquare(), 9, 9, BlockShape(0)).Err?
    ensures PlaceBlock(AfterSquare(), -5, 5, BlockShape(0)).Err?
    ensures PlaceBlock(AfterSquare(), 0, -2, BlockShape(0)).Err?
    ensures PlaceBlock(AfterSquare(), -20, -2, BlockShape(0)).Err?
    ensures PlaceBlock(AfterSquare(), 10, 10, BlockShape(0)).Err?
    ensures PlaceBlock(AfterSquare(), 25, 0, BlockShape(0)).Err?
    ensures PlaceBlock(AfterSquare(), 8, 7, BlockShape(0)).Ok?
  {
    var dot := BlockShape(0);
    assert Occupied(dot, 0, 0);
    assert forall i, j | Occupied(dot, i, j) :: i == 0 && j == 0;
    assert Placeable(AfterSquare(), 8, 7, dot);
  }

  /** A board whose only occupied cells are one full row. */
  function FullRowBoard(row: int, colour: BoardElement): (b: Grid)
    requires 0 <= row < BoardSize
    ensures IsBoard(b)
  {
    seq(BoardSize, p => seq(BoardSize, q => if p == row then colour else None))
  }

  /** A board whose only occupied cells are one full column. */
  function FullColumnBoard(col: int, colour: BoardElement): (b: Grid)
    requires 0 <= col < BoardSize
    ensures IsBoard(b)
  {
    seq(BoardSize, p => seq(BoardSize, q => if q == col then colour else None))
  }

  /** Column 0 in `colour` crossing row 0, whose other cells are `other`. */
  function CrossBoard(colour: BoardElement, other: BoardElement): (b: Grid)
    ensures IsBoard(b)
  {
    seq(BoardSize, p => seq(BoardSize, q => if q == 0 then colour else if p == 0 then other else None))
  }

  /** A full row, a full column, and a full row crossing a full column are
      each cleared completely by one call. */
  lemma LanesAreCleared(k: int, colour: BoardElement, other: BoardElement)
    requires 0 <= k < BoardSize && colour != None && other != None
    ensures IsEmpty(CheckAndRemoveFullLanes(FullRowBoard(k, colour)))
    ensures IsEmpty(CheckAndRemoveFullLanes(FullColumnBoard(k, colour)))
    ensures IsEmpty(CheckAndRemoveFullLanes(CrossBoard(colour, other)))
  {
    RowIsCleared(k, colour);
    ColumnIsCleared(k, colour);
    CrossIsCleared(colour, other);
  }

  lemma RowIsCleared(k: int, colour: BoardElement)
    requires 0 <= k < BoardSize && colour != None
    ensures IsEmpty(CheckAndRemoveFullLanes(FullRowBoard(k, colour)))
  {
    var rowBoard := FullRowBoard(k, colour);
    forall p | 0 <= p < BoardSize && p != k ensures !RowFull(rowBoard, p) {
      assert rowBoard[p][0] == None;
    }
  }

  lemma ColumnIsCleared(k: int, colour: BoardElement)
    requires 0 <= k < BoardSize && colour != None
    ensures IsEmpty(CheckAndRemoveFullLanes(FullColumnBoard(k, colour)))
  {
    var columnBoard := FullColumnBoard(k, colour);
    forall q | 0 <= q < BoardSize && q != k ensures !ColumnFull(columnBoard, q) {
      assert columnBoard[0][q] == None;
    }
  }

  lemma CrossIsCleared(colour: BoardElement, other: BoardElement)
    requires colour != None && other != None
    ensures IsEmpty(CheckAndRemoveFullLanes(CrossBoard(colour, other)))
  {
    var cross := CrossBoard(colour, other);
    assert RowFull(cross, 0) && ColumnFull(cross, 0);
  }

  /** Scattered cells that complete no lane survive a clear. */
  lemma ScatteredCellsSurvive()
    ensures var b := seq(BoardSize, p => seq(BoardSize, q =>
        if p == 0 && q == 0 then Cyan
        else if p == 0 && q == 1 then Yellow
        else if 8 <= p && 8 <= q then Blue
        else None));
      var r := CheckAndRemoveFullLanes(b);
      r[0][0] == Cyan && r[0][1] == Yellow && r[8][8] == Blue && r[8][9] == Blue
      && r[9][8] == Blue && r[9][9] == Blue
  {
    var b := seq(BoardSize, p => seq(BoardSize, q =>
        if p == 0 && q == 0 then Cyan
        else if p == 0 && q == 1 then Yellow
        else if 8 <= p && 8 <= q then Blue
        else None));
    assert b[0][5] == None && b[8][0] == None && b[9][0] == None;
    assert b[5][0] == None && b[5][1] == None && b[5][8] == None && b[5][9] == None;
  }

  /** In this version a fresh game has three empty slots, so it is over
      before it starts, and every move on it fails with `IncorrectBlock`. */
  lemma FreshGameIsOver(t: BlockType, x: int, y: int, refill: Refill)
    requires ValidRefill(refill)
    ensures IsGameOver(New())
    ensures Move(New(), t, x, y, refill) == Failed(IncorrectBlock, New())
  {
  }

  /** A piece of the slot size fits at the origin of an empty board. */
  lemma PieceFitsEmptyBoard(board: Grid, block: Grid)
    requires IsBoard(board) && IsEmpty(board) && IsSquare(block, BlockSize)
    ensures Placeable(board, 0, 0, block)
  {
  }

  /** The move test's opening game: two vertical five-bars in slots A and B. */
  function TwoBars(): (g: Game)
    ensures WellFormed(g)
  {
    New().(blockA := BlockShape(8), blockB := BlockShape(8))
  }

  lemma BarCells()
    ensures forall i, j :: Occupied(BlockShape(8), i, j) <==> 0 <= i < 5 && j == 0
    ensures forall i | 0 <= i < 5 :: BlockShape(8)[i][0] == Magenta
  {
    var bar := BlockShape(8);
    forall i, j ensures Occupied(bar, i, j) <==> 0 <= i < 5 && j == 0 {
    }
  }

  /** Column 0 occupied in rows [0, rows), everything else empty. */
  function ColumnStart(rows: int): (b: Grid)
    ensures IsBoard(b)
    ensures forall p, q | OnBoard(p, q) :: b[p][q] == if p < rows && q == 0 then Magenta else None
  {
    seq(BoardSize, p => seq(BoardSize, q => if p < rows && q == 0 then Magenta else None))
  }

  lemma BarPlacements()
    ensures PlaceBlock(ColumnStart(0), 0, 0, BlockShape(8)) == Results.Ok(ColumnStart(5))
    ensures PlaceBlock(ColumnStart(5), 5, 0, BlockShape(8)) == Results.Ok(ColumnStart(10))
  {
    BarPlacedAt(0, 5);
    BarPlacedAt(5, 10);
  }

  /** A vertical bar placed at the top of an empty column 0, or right under
      a half column, extends the column by five cells. */
  lemma BarPlacedAt(rows: nat, after: nat)
    requires (rows == 0 || rows == 5) && after == rows + 5
    ensures PlaceBlock(ColumnStart(rows), rows, 0, BlockShape(8)) == Results.Ok(ColumnStart(after))
  {
    var bar := BlockShape(8);
    BarCells();
    assert Placeable(ColumnStart(rows), rows, 0, bar);
    SameCellsSameGrid(PlaceBlock(ColumnStart(rows), rows, 0, bar).value, ColumnStart(after), BoardSize);
  }

  lemma ColumnClears()
    ensures CheckAndRemoveFullLanes(ColumnStart(5)) == ColumnStart(5)
    ensures CheckAndRemoveFullLanes(ColumnStart(10)) == ColumnStart(0)
  {
    var half := ColumnStart(5);
    forall p, q | OnBoard(p, q) ensures CheckAndRemoveFullLanes(half)[p][q] == half[p][q] {
      assert half[p][1] == None && half[9][q] == None;
    }
    SameCellsSameGrid(CheckAndRemoveFullLanes(half), half, BoardSize);
    var full := ColumnStart(10);
    assert ColumnFull(full, 0);
    forall p, q | OnBoard(p, q) ensures CheckAndRemoveFullLanes(full)[p][q] == None {
      if q != 0 {
        assert full[p][q] == None;
      }
    }
    SameCellsSameGrid(CheckAndRemoveFullLanes(full), ColumnStart(0), BoardSize);
  }

  /** The first bar lands on the top half of column 0; nothing is cleared,
      and the game goes on because the second bar still fits. */
  lemma FirstBarMove(refill: Refill)
    requires ValidRefill(refill)
    ensures Move(TwoBars(), A, 0, 0, refill) ==
      Moved(Game(ColumnStart(5), CreateContainer(BlockSize), BlockShape(8), CreateContainer(BlockSize)))
  {
    var g := TwoBars();
    var bar := BlockShape(8);
    SameCellsSameGrid(g.board, ColumnStart(0), BoardSize);
    BarPlacements();
    ColumnClears();
    BarCells();
    assert !OthersEmpty(g, A) by {
      assert !IsEmpty(Slot(g, B)) by { assert Occupied(bar, 0, 0); }
    }
    var next := UseSlot(g, A, ColumnStart(5), refill);
    assert next == Game(ColumnStart(5), CreateContainer(BlockSize), BlockShape(8), CreateContainer(BlockSize));
    assert Placeable(next.board, 5, 0, next.blockB);
  }

  /** The second bar completes column 0, which is cleared: the board ends
      empty, the now empty slots are refilled, and the game goes on. */
  lemma SecondBarClearsColumn(refill: Refill)
    requires ValidRefill(refill)
    ensures Move(Game(ColumnStart(5), CreateContainer(BlockSize), BlockShape(8), CreateContainer(BlockSize)),
                 B, 5, 0, refill) ==
      Moved(Game(ColumnStart(0), refill.a, refill.b, refill.c))
  {
    var g := Game(ColumnStart(5), CreateContainer(BlockSize), BlockShape(8), CreateContainer(BlockSize));
    var next := Game(ColumnStart(0), refill.a, refill.b, refill.c);
    BarPlacements();
    ColumnClears();
    assert Placeable(g.board, 5, 0, g.blockB) by {
      assert PlaceBlock(g.board, 5, 0, g.blockB).Ok?;
    }
    assert !IsEmpty(g.blockB) by {
      BarCells();
    }
    assert UseSlot(g, B, ColumnStart(0), refill) == next by {
      assert OthersEmpty(g, B);
    }
    RefilledGameGoesOn(refill);
    MovedTo(g, B, 5, 0, refill, next);
  }

  /** A move that is allowed and leaves a piece that fits succeeds. */
  lemma MovedTo(g: Game, t: BlockType, x: int, y: int, refill: Refill, next: Game)
    requires WellFormed(g) && ValidRefill(refill) && ValidSlot(t)
    requires !IsEmpty(Slot(g, t)) && Placeable(g.board, x, y, Slot(g, t))
    requires UseSlot(g, t, CheckAndRemoveFullLanes(PlaceBlock(g.board, x, y, Slot(g, t)).value), refill) == next
    requires !IsGameOver(next)
    ensures Move(g, t, x, y, refill) == Moved(next)
  {
  }

  /** After a refill on an empty board the game is not over. */
  lemma RefilledGameGoesOn(refill: Refill)
    requires ValidRefill(refill)
    ensures !IsGameOver(Game(ColumnStart(0), refill.a, refill.b, refill.c))
  {
    var next := Game(ColumnStart(0), refill.a, refill.b, refill.c);
    assert IsEmpty(next.board);
    PieceFitsEmptyBoard(next.board, next.blockA);
  }

  /** The two moves of the test in sequence leave an empty board. */
  lemma TwoBarsLeaveEmptyBoard(refill: Refill)
    requires ValidRefill(refill)
    ensures var first := Move(TwoBars(), A, 0, 0, refill);
      && first.Moved?
      && var second := Move(first.game, B, 5, 0, refill);
      && second.Moved? && IsEmpty(second.game.board)
  {
    FirstBarMove(refill);
    SecondBarClearsColumn(refill);
  }

  /** The game-over test's board: rows 0 to 7 alternate green and empty
      cells, rows 8 and 9 are empty; `pair` also paints (8, 0) and (8, 1). */
  function Checkerboard(pair: bool): (b: Grid)
    ensures IsBoard(b)
    ensures forall p, q | OnBoard(p, q) ::
      b[p][q] == if p < 8 && (p + q) % 2 == 0 then Green else if pair && p == 8 && q < 2 then Green else None
  {
    seq(BoardSize, p => seq(BoardSize, q =>
      if p < 8 && (p + q) % 2 == 0 then Green else if pair && p == 8 && q < 2 then Green else None))
  }

  /** A piece holding the cells (0, 0), (0, 1), (0, 2) and (2, 0) fits
      nowhere on a board that covers the checkerboard: in rows 0 to 7 one of
      two neighbouring cells is green, and lower down the piece runs off. */
  lemma CornerPieceBlocked(b: Grid, block: Grid, x: int, y: int)
    requires IsBoard(b)
    requires forall p, q | OnBoard(p, q) && p < 8 && (p + q) % 2 == 0 :: b[p][q] != None
    requires Occupied(block, 0, 0) && Occupied(block, 0, 1) && Occupied(block, 0, 2) && Occupied(block, 2, 0)
    ensures !Placeable(b, x, y, block)
  {
    if x < 0 || y < 0 {
    } else if x >= 8 {
      BlockedCell(b, block, x, y, 2, 0);
    } else if y >= 8 {
      BlockedCell(b, block, x, y, 0, 2);
    } else {
      GreenNeighbour(b, x, y);
      if b[x][y] != None {
        BlockedCell(b, block, x, y, 0, 0);
      } else {
        BlockedCell(b, block, x, y, 0, 1);
      }
    }
  }

  /** Of two neighbouring cells in rows 0 to 7, one is green. */
  lemma GreenNeighbour(b: Grid, x: int, y: int)
    requires IsBoard(b)
    requires forall p, q | OnBoard(p, q) && p < 8 && (p + q) % 2 == 0 :: b[p][q] != None
    requires 0 <= x < 8 && 0 <= y < 8
    ensures b[x][y] != None || b[x][y + 1] != None
  {
    if (x + y) % 2 != 0 {
      assert (x + (y + 1)) % 2 == 0;
    }
  }

  /** One occupied piece cell that lands off the board or on an occupied
      cell rules the origin out. */
  lemma BlockedCell(b: Grid, block: Grid, x: int, y: int, i: int, j: int)
    requires IsBoard(b) && Occupied(block, i, j)
    requires !OnBoard(x + i, y + j) || b[x + i][y + j] != None
    ensures !Placeable(b, x, y, block)
  {
  }

  lemma SquareAndCornerCells()
    ensures var s := BlockShape(10);
      Occupied(s, 0, 0) && Occupied(s, 0, 1) && Occupied(s, 0, 2) && Occupied(s, 2, 0)
    ensures var s := BlockShape(11);
      Occupied(s, 0, 0) && Occupied(s, 0, 1) && Occupied(s, 0, 2) && Occupied(s, 2, 0)
  {
  }

  /** The 3x3 square and the large corner fit nowhere on the checkerboard,
      with or without the pair in row 8. */
  lemma LargePiecesBlocked(pair: bool)
    ensures !SlotCanContinue(Checkerboard(pair), BlockShape(10))
    ensures !SlotCanContinue(Checkerboard(pair), BlockShape(11))
  {
    SquareAndCornerCells();
    forall x, y ensures !Placeable(Checkerboard(pair), x, y, BlockShape(10)) {
      CornerPieceBlocked(Checkerboard(pair), BlockShape(10), x, y);
    }
    forall x, y ensures !Placeable(Checkerboard(pair), x, y, BlockShape(11)) {
      CornerPieceBlocked(Checkerboard(pair), BlockShape(11), x, y);
    }
  }

  lemma PairFitsRowEight()
    ensures Placeable(Checkerboard(false), 8, 0, BlockShape(1))
    ensures !IsEmpty(BlockShape(1))
  {
    var pair := BlockShape(1);
    assert forall i, j | Occupied(pair, i, j) :: i == 0 && j < 2;
    assert Occupied(pair, 0, 0);
  }

  /** The four verdicts of the game-over test. */
  lemma GameOverVerdicts()
    ensures !IsGameOver(Game(Checkerboard(false), BlockShape(1), BlockShape(1), BlockShape(1)))
    ensures IsGameOver(Game(Checkerboard(false), CreateContainer(5), BlockShape(10), CreateContainer(5)))
    ensures IsGameOver(Game(Checkerboard(false), BlockShape(10), BlockShape(10), BlockShape(11)))
    ensures !IsGameOver(Game(Checkerboard(false), CreateContainer(5), CreateContainer(5), BlockShape(1)))
  {
    PairFitsRowEight();
    LargePiecesBlocked(false);
  }

  lemma PairPlaced()
    ensures PlaceBlock(Checkerboard(false), 8, 0, BlockShape(1)) == Results.Ok(Checkerboard(true))
  {
    PairFitsRowEight();
    var pair := BlockShape(1);
    assert forall i, j | Occupied(pair, i, j) :: i == 0 && j < 2 && pair[i][j] == Green;
    SameCellsSameGrid(PlaceBlock(Checkerboard(false), 8, 0, pair).value, Checkerboard(true), BoardSize);
  }

  lemma PairKept()
    ensures CheckAndRemoveFullLanes(Checkerboard(true)) == Checkerboard(true)
  {
    var b := Checkerboard(true);
    forall p, q | OnBoard(p, q) ensures CheckAndRemoveFullLanes(b)[p][q] == b[p][q] {
      assert b[9][q] == None;
      assert b[p][if p == 8 then 2 else if p % 2 == 0 then 1 else 0] == None;
    }
    SameCellsSameGrid(CheckAndRemoveFullLanes(b), b, BoardSize);
  }

  /** A move that is allowed but leaves no piece that fits fails with
      `GameOver` and carries the game after the move. */
  lemma FailedWithGameOver(g: Game, t: BlockType, x: int, y: int, refill: Refill, next: Game)
    requires WellFormed(g) && ValidRefill(refill) && ValidSlot(t)
    requires !IsEmpty(Slot(g, t)) && Placeable(g.board, x, y, Slot(g, t))
    requires UseSlot(g, t, CheckAndRemoveFullLanes(PlaceBlock(g.board, x, y, Slot(g, t)).value), refill) == next
    requires IsGameOver(next)
    ensures Move(g, t, x, y, refill) == Failed(GameOver, next)
  {
  }

  /** The last step of the game-over test: the pair still fits in row 8, but
      afterwards only the 3x3 square is left and it fits nowhere. */
  lemma LastMoveEndsGame(refill: Refill)
    requires ValidRefill(refill)
    ensures Move(Game(Checkerboard(false), BlockShape(1), BlockShape(10), CreateContainer(5)), A, 8, 0, refill) ==
      Failed(GameOver, Game(Checkerboard(true), CreateContainer(5), BlockShape(10), CreateContainer(5)))
  {
    var g := Game(Checkerboard(false), BlockShape(1), BlockShape(10), CreateContainer(5));
    var next := Game(Checkerboard(true), CreateContainer(5), BlockShape(10), CreateContainer(5));
    PairFitsRowEight();
    PairPlaced();
    PairKept();
    assert UseSlot(g, A, Checkerboard(true), refill) == next by {
      SquareAndCornerCells();
      assert !IsEmpty(g.blockB);
    }
    assert IsGameOver(next) by {
      LargePiecesBlocked(true);
    }
    FailedWithGameOver(g, A, 8, 0, refill, next);
  }
}
