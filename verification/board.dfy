/** The rules of the board: stamping a piece at an origin, clearing full
    rows and columns, detecting that no remaining piece fits, and the move
    that combines them. Coordinates follow the game's convention: `x` is the
    row, and piece cell (i, j) lands on board cell (x + i, y + j). */
module Board {
  import opened Game
  import opened Results

  /** Why a move failed. */
  datatype Reason = IncorrectBlock | IncorrectPosition | GameOver

  /** The outcome of a move: the game after it, and the failure if any. */
  datatype MoveResult = Moved(game: Game) | Failed(reason: Reason, game: Game)

  /** Three pieces drawn to refill the slots once all of them are used.
      Which shapes are drawn is left to the caller. */
  datatype Refill = Refill(a: Grid, b: Grid, c: Grid)

  predicate IsBoard(b: Grid) {
    IsSquare(b, BoardSize)
  }

  predicate OnBoard(row: int, col: int) {
    0 <= row < BoardSize && 0 <= col < BoardSize
  }

  /** The placement rule: a non-negative origin, and every occupied piece
      cell lands inside the board on an empty cell. */
  ghost predicate Placeable(board: Grid, x: int, y: int, block: Grid)
    requires IsBoard(board)
  {
    && x >= 0 && y >= 0
    && forall i, j | Occupied(block, i, j) :: OnBoard(x + i, y + j) && board[x + i][y + j] == None
  }

  /** Piece cell (i, j) holding `e` does not prevent placement at (x, y). */
  predicate CellFits(board: Grid, x: int, y: int, i: int, j: int, e: BoardElement)
    requires IsBoard(board)
  {
    e == None || (OnBoard(x + i, y + j) && board[x + i][y + j] == None)
  }

  /** Scan of piece row `i` from column `j` on. */
  predicate RowFits(board: Grid, x: int, y: int, i: int, row: seq<BoardElement>, j: nat)
    requires IsBoard(board)
    decreases |row| - j
  {
    j >= |row| || (CellFits(board, x, y, i, j, row[j]) && RowFits(board, x, y, i, row, j + 1))
  }

  /** Scan of the piece's rows from row `i` on. */
  predicate RowsFit(board: Grid, x: int, y: int, block: Grid, i: nat)
    requires IsBoard(board)
    decreases |block| - i
  {
    i >= |block| || (RowFits(board, x, y, i, block[i], 0) && RowsFit(board, x, y, block, i + 1))
  }

  lemma {:induction false} RowFitsMeans(board: Grid, x: int, y: int, i: int, row: seq<BoardElement>, j: nat)
    requires IsBoard(board)
    ensures RowFits(board, x, y, i, row, j) <==>
      forall k | j <= k < |row| :: CellFits(board, x, y, i, k, row[k])
    decreases |row| - j
  {
    if j < |row| {
      RowFitsMeans(board, x, y, i, row, j + 1);
    }
  }

  lemma {:induction false} RowsFitMeans(board: Grid, x: int, y: int, block: Grid, i: nat)
    requires IsBoard(board)
    ensures RowsFit(board, x, y, block, i) <==>
      forall k, j | i <= k < |block| && 0 <= j < |block[k]| :: CellFits(board, x, y, k, j, block[k][j])
    decreases |block| - i
  {
    if i < |block| {
      RowFitsMeans(board, x, y, i, block[i], 0);
      RowsFitMeans(board, x, y, block, i + 1);
    }
  }

  /** The cell-by-cell scan decides exactly the placement rule. */
  lemma ScanMatchesRule(board: Grid, x: int, y: int, block: Grid)
    requires IsBoard(board) && x >= 0 && y >= 0
    ensures RowsFit(board, x, y, block, 0) <==> Placeable(board, x, y, block)
  {
    RowsFitMeans(board, x, y, block, 0);
    if !RowsFit(board, x, y, block, 0) {
      var k, j :| 0 <= k < |block| && 0 <= j < |block[k]| && !CellFits(board, x, y, k, j, block[k][j]);
      assert Occupied(block, k, j);
    } else {
      forall i, j | Occupied(block, i, j) ensures OnBoard(x + i, y + j) && board[x + i][y + j] == None {
        assert CellFits(board, x, y, i, j, block[i][j]);
      }
    }
  }

  /** Writes the occupied cells of piece row `i`, from column `j` on. */
  function PaintRow(board: Grid, x: int, y: int, i: int, row: seq<BoardElement>, j: nat): (r: Grid)
    requires IsBoard(board)
    requires forall k | j <= k < |row| && row[k] != None :: OnBoard(x + i, y + k)
    ensures IsBoard(r)
    ensures forall p, q | OnBoard(p, q) ::
      r[p][q] == if p == x + i && j <= q - y < |row| && row[q - y] != None then row[q - y] else board[p][q]
    decreases |row| - j
  {
    if j >= |row| then board
    else if row[j] == None then PaintRow(board, x, y, i, row, j + 1)
    else
      assert OnBoard(x + i, y + j);
      PaintRow(board[x + i := board[x + i][y + j := row[j]]], x, y, i, row, j + 1)
  }

  /** Writes the occupied cells of the piece's rows, from row `i` on. */
  function PaintRows(board: Grid, x: int, y: int, block: Grid, i: nat): (r: Grid)
    requires IsBoard(board)
    requires forall k, j | i <= k < |block| && Occupied(block, k, j) :: OnBoard(x + k, y + j)
    ensures IsBoard(r)
    ensures forall p, q | OnBoard(p, q) ::
      r[p][q] == if i <= p - x && Occupied(block, p - x, q - y) then block[p - x][q - y] else board[p][q]
    decreases |block| - i
  {
    if i >= |block| then board
    else
      assert forall k | 0 <= k < |block[i]| && block[i][k] != None :: Occupied(block, i, k);
      PaintRows(PaintRow(board, x, y, i, block[i], 0), x, y, block, i + 1)
  }

  /** `placeBlock`: stamps the piece with its cell (0, 0) on board cell
      (x, y). It fails, leaving the board alone, when the origin is negative,
      or when an occupied piece cell would leave the board or cover an
      occupied board cell. On success exactly the occupied piece cells are
      written, in the piece's colours. */
  function PlaceBlock(board: Grid, x: int, y: int, block: Grid): (r: Result<Grid, Reason>)
    requires IsBoard(board)
    ensures r.Ok? <==> Placeable(board, x, y, block)
    ensures r.Err? ==> r.error == IncorrectPosition
    ensures r.Ok? ==> IsBoard(r.value)
    ensures r.Ok? ==> forall p, q | OnBoard(p, q) ::
      r.value[p][q] == if Occupied(block, p - x, q - y) then block[p - x][q - y] else board[p][q]
  {
    if x < 0 || y < 0 then Err(IncorrectPosition)
    else
      ScanMatchesRule(board, x, y, block);
      if !RowsFit(board, x, y, block, 0) then Err(IncorrectPosition)
      else Ok(PaintRows(board, x, y, block, 0))
  }

  ghost predicate RowFull(b: Grid, row: int)
    requires IsBoard(b) && 0 <= row < BoardSize
  {
    forall col | 0 <= col < BoardSize :: b[row][col] != None
  }

  ghost predicate ColumnFull(b: Grid, col: int)
    requires IsBoard(b) && 0 <= col < BoardSize
  {
    forall row | 0 <= row < BoardSize :: b[row][col] != None
  }

  /** `checkAndRemoveFullLanes`: every row and every column that is full on
      the given board is emptied. Fullness is judged on the board as given,
      before any cell is cleared, so a full row and a full column are both
      cleared in one call; every other cell keeps its value. */
  function CheckAndRemoveFullLanes(board: Grid): (r: Grid)
    requires IsBoard(board)
    ensures IsBoard(r)
    ensures forall p, q | OnBoard(p, q) ::
      r[p][q] == if RowFull(board, p) || ColumnFull(board, q) then None else board[p][q]
  {
    var fullRows := seq(BoardSize, p requires 0 <= p < BoardSize =>
      forall q | 0 <= q < BoardSize :: board[p][q] != None);
    var fullColumns := seq(BoardSize, q requires 0 <= q < BoardSize =>
      forall p | 0 <= p < BoardSize :: board[p][q] != None);
    seq(BoardSize, p requires 0 <= p < BoardSize =>
      seq(BoardSize, q requires 0 <= q < BoardSize =>
        if fullRows[p] || fullColumns[q] then None else board[p][q]))
  }

  /** After clearing, no row and no column is full. */
  lemma NoFullLaneAfterClear(board: Grid)
    requires IsBoard(board)
    ensures var r := CheckAndRemoveFullLanes(board);
      && (forall p | 0 <= p < BoardSize :: !RowFull(r, p))
      && (forall q | 0 <= q < BoardSize :: !ColumnFull(r, q))
  {
    var r := CheckAndRemoveFullLanes(board);
    forall p | 0 <= p < BoardSize ensures !RowFull(r, p) {
      if RowFull(board, p) {
        assert r[p][0] == None;
      } else {
        var q :| 0 <= q < BoardSize && board[p][q] == None;
        assert r[p][q] == None;
      }
    }
    forall q | 0 <= q < BoardSize ensures !ColumnFull(r, q) {
      if ColumnFull(board, q) {
        assert r[0][q] == None;
      } else {
        var p :| 0 <= p < BoardSize && board[p][q] == None;
        assert r[p][q] == None;
      }
    }
  }

  /** Clearing a cleared board changes nothing. */
  lemma ClearIsIdempotent(board: Grid)
    requires IsBoard(board)
    ensures CheckAndRemoveFullLanes(CheckAndRemoveFullLanes(board)) == CheckAndRemoveFullLanes(board)
  {
    var r := CheckAndRemoveFullLanes(board);
    NoFullLaneAfterClear(board);
    forall p, q | 0 <= p < BoardSize && 0 <= q < BoardSize
      ensures CheckAndRemoveFullLanes(r)[p][q] == r[p][q]
    {
      assert !RowFull(r, p) && !ColumnFull(r, q);
    }
    SameCellsSameGrid(CheckAndRemoveFullLanes(r), r, BoardSize);
  }

  /** Searches the origins (x, y), (x, y + 1), ..., (x, 9) of one board row
      for one where the piece can be placed. */
  predicate FitsInRow(board: Grid, block: Grid, x: int, y: nat)
    requires IsBoard(board)
    decreases BoardSize - y
  {
    y < BoardSize && (PlaceBlock(board, x, y, block).Ok? || FitsInRow(board, block, x, y + 1))
  }

  /** Searches the origins of board rows x, x + 1, ..., 9, row-major. */
  predicate FitsFromRow(board: Grid, block: Grid, x: nat)
    requires IsBoard(board)
    decreases BoardSize - x
  {
    x < BoardSize && (FitsInRow(board, block, x, 0) || FitsFromRow(board, block, x + 1))
  }

  lemma {:induction false} FitsInRowFinds(board: Grid, block: Grid, x: int, y: nat, y': int)
    requires IsBoard(board)
    requires y <= y' < BoardSize && Placeable(board, x, y', block)
    ensures FitsInRow(board, block, x, y)
    decreases BoardSize - y
  {
    if y < y' {
      FitsInRowFinds(board, block, x, y + 1, y');
    }
  }

  lemma {:induction false} FitsFromRowFinds(board: Grid, block: Grid, x: nat, x': int, y': int)
    requires IsBoard(board)
    requires x <= x' < BoardSize && 0 <= y' < BoardSize && Placeable(board, x', y', block)
    ensures FitsFromRow(board, block, x)
    decreases BoardSize - x
  {
    if x < x' {
      FitsFromRowFinds(board, block, x + 1, x', y');
    } else {
      FitsInRowFinds(board, block, x, 0, y');
    }
  }

  lemma {:induction false} FitsInRowSound(board: Grid, block: Grid, x: int, y: nat)
    requires IsBoard(board) && FitsInRow(board, block, x, y)
    ensures exists y' :: Placeable(board, x, y', block)
    decreases BoardSize - y
  {
    if !PlaceBlock(board, x, y, block).Ok? {
      FitsInRowSound(board, block, x, y + 1);
    }
  }

  lemma {:induction false} FitsFromRowSound(board: Grid, block: Grid, x: nat)
    requires IsBoard(board) && FitsFromRow(board, block, x)
    ensures exists x', y' :: Placeable(board, x', y', block)
    decreases BoardSize - x
  {
    if FitsInRow(board, block, x, 0) {
      FitsInRowSound(board, block, x, 0);
    } else {
      FitsFromRowSound(board, block, x + 1);
    }
  }

  /** Whether the piece can be placed at some origin of the board. Only the
      100 origins on the board are searched, and that is enough: a piece that
      fits at any integer origin also fits at one of them. */
  predicate FitsAnywhere(board: Grid, block: Grid)
    requires IsBoard(board)
  {
    FitsFromRow(board, block, 0)
  }

  lemma FitsAnywhereIsExhaustive(board: Grid, block: Grid)
    requires IsBoard(board)
    ensures FitsAnywhere(board, block) <==> exists x, y :: Placeable(board, x, y, block)
  {
    if FitsAnywhere(board, block) {
      FitsFromRowSound(board, block, 0);
    } else {
      forall x, y ensures !Placeable(board, x, y, block) {
        if Placeable(board, x, y, block) {
          FitsAnywhereFinds(board, block, x, y);
        }
      }
    }
  }

  /** The search finds every origin at which the piece can be placed. */
  lemma FitsAnywhereFinds(board: Grid, block: Grid, x: int, y: int)
    requires IsBoard(board) && Placeable(board, x, y, block)
    ensures FitsAnywhere(board, block)
  {
    if exists i, j :: Occupied(block, i, j) {
      var i, j :| Occupied(block, i, j);
      FitsFromRowFinds(board, block, 0, x, y);
    } else {
      assert Placeable(board, 0, 0, block);
    }
  }

  predicate ValidSlot(t: BlockType) {
    t == A || t == B || t == C
  }

  function Slot(g: Game, t: BlockType): Grid
    requires ValidSlot(t)
  {
    if t == A then g.blockA else if t == B then g.blockB else g.blockC
  }

  function WithSlot(g: Game, t: BlockType, block: Grid): Game
    requires ValidSlot(t)
  {
    if t == A then g.(blockA := block) else if t == B then g.(blockB := block) else g.(blockC := block)
  }

  predicate AllSlotsEmpty(g: Game) {
    IsEmpty(g.blockA) && IsEmpty(g.blockB) && IsEmpty(g.blockC)
  }

  /** A slot that keeps the game going: it holds a piece, and that piece
      is placeable somewhere. */
  ghost predicate SlotCanContinue(board: Grid, block: Grid)
    requires IsBoard(board)
  {
    !IsEmpty(block) && exists x, y :: Placeable(board, x, y, block)
  }

  /** A slot that cannot keep the game going: empty, or its piece found
      nowhere by the search. */
  predicate Stuck(board: Grid, block: Grid)
    requires IsBoard(board)
    ensures Stuck(board, block) <==> !SlotCanContinue(board, block)
  {
    FitsAnywhereIsExhaustive(board, block);
    IsEmpty(block) || !FitsAnywhere(board, block)
  }

  /** `isGameOver`: no non-empty slot fits anywhere on the board. Empty
      slots are ignored, so a game whose three slots are all empty is over. */
  predicate IsGameOver(g: Game)
    requires IsBoard(g.board)
    ensures IsGameOver(g) <==>
      && !SlotCanContinue(g.board, g.blockA)
      && !SlotCanContinue(g.board, g.blockB)
      && !SlotCanContinue(g.board, g.blockC)
  {
    Stuck(g.board, g.blockA) && Stuck(g.board, g.blockB) && Stuck(g.board, g.blockC)
  }

  predicate ValidRefill(refill: Refill) {
    && IsSquare(refill.a, BlockSize) && !IsEmpty(refill.a)
    && IsSquare(refill.b, BlockSize) && !IsEmpty(refill.b)
    && IsSquare(refill.c, BlockSize) && !IsEmpty(refill.c)
  }

  /** The slots other than `t` are all empty. */
  ghost predicate OthersEmpty(g: Game, t: BlockType)
    requires ValidSlot(t)
  {
    forall u | ValidSlot(u) && u != t :: IsEmpty(Slot(g, u))
  }

  /** Bookkeeping after a successful placement from slot `t`: the board
      becomes `board`, the slot is emptied, and once all three slots are
      empty all three are refilled, so a move never leaves them all empty. */
  function UseSlot(g: Game, t: BlockType, board: Grid, refill: Refill): (next: Game)
    requires WellFormed(g) && ValidSlot(t) && IsBoard(board) && ValidRefill(refill)
    ensures WellFormed(next) && next.board == board
    ensures !AllSlotsEmpty(next)
    ensures OthersEmpty(g, t) ==> next.blockA == refill.a && next.blockB == refill.b && next.blockC == refill.c
    ensures !OthersEmpty(g, t) ==>
      && IsEmpty(Slot(next, t))
      && forall u | ValidSlot(u) && u != t :: Slot(next, u) == Slot(g, u)
  {
    var used := WithSlot(g.(board := board), t, CreateContainer(BlockSize));
    assert forall u | ValidSlot(u) && u != t :: Slot(used, u) == Slot(g, u);
    assert IsEmpty(Slot(used, t));
    assert Slot(used, A) == used.blockA && Slot(used, B) == used.blockB && Slot(used, C) == used.blockC;
    assert OthersEmpty(g, t) ==> forall u | ValidSlot(u) :: IsEmpty(Slot(used, u));
    if AllSlotsEmpty(used) then
      used.(blockA := refill.a, blockB := refill.b, blockC := refill.c)
    else
      used
  }

  /** `Move`: places the piece of slot `t` at (x, y). An invalid slot id or
      an empty slot fails with `IncorrectBlock`, a placement that is not
      allowed fails with `IncorrectPosition`; both leave the game as it was.
      Otherwise the piece is stamped, full lanes are cleared, the slot is
      emptied (and all three refilled once all are empty), and the move
      still fails with `GameOver` if no remaining piece fits. */
  function Move(g: Game, t: BlockType, x: int, y: int, refill: Refill): (r: MoveResult)
    requires WellFormed(g) && ValidRefill(refill)
    ensures !ValidSlot(t) ==> r == Failed(IncorrectBlock, g)
    ensures ValidSlot(t) && IsEmpty(Slot(g, t)) ==> r == Failed(IncorrectBlock, g)
    ensures ValidSlot(t) && !IsEmpty(Slot(g, t)) && !Placeable(g.board, x, y, Slot(g, t)) ==>
      r == Failed(IncorrectPosition, g)
    ensures ValidSlot(t) && !IsEmpty(Slot(g, t)) && Placeable(g.board, x, y, Slot(g, t)) ==>
      && r.game == UseSlot(g, t, CheckAndRemoveFullLanes(PlaceBlock(g.board, x, y, Slot(g, t)).value), refill)
      && (r.Failed? <==> IsGameOver(r.game))
      && (r.Failed? ==> r.reason == GameOver)
  {
    if !ValidSlot(t) then Failed(IncorrectBlock, g)
    else
      var block := Slot(g, t);
      if IsEmpty(block) then Failed(IncorrectBlock, g)
      else
        match PlaceBlock(g.board, x, y, block)
        case Err(e) => Failed(e, g)
        case Ok(placed) =>
          var next := UseSlot(g, t, CheckAndRemoveFullLanes(placed), refill);
          if IsGameOver(next) then Failed(GameOver, next) else Moved(next)
  }
}
