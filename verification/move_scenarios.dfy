/** The move test of the game: three horizontal pairs played one under the
    other from slots A, B and C, with the failed moves in between. */
module MoveScenarios {
  import opened Game
  import opened Board
  import BoardScenarios

  /** Rows 0 to `rows - 1` hold a green pair in columns 0 and 1; every other
      cell is empty. */
  function PairRows(rows: int): (b: Grid)
    ensures IsBoard(b)
    ensures forall p, q | OnBoard(p, q) :: b[p][q] == if p < rows && q < 2 then Green else None
  {
    seq(BoardSize, p => seq(BoardSize, q => if p < rows && q < 2 then Green else None))
  }

  function Pair(): Grid {
    BlockShape(1)
  }

  function Used(): Grid {
    CreateContainer(BlockSize)
  }

  lemma PairCells()
    ensures forall i, j :: Occupied(Pair(), i, j) <==> i == 0 && 0 <= j < 2
    ensures Pair()[0][0] == Green && Pair()[0][1] == Green
    ensures !IsEmpty(Pair())
  {
    var pair := Pair();
    assert Occupied(pair, 0, 0);
    forall i, j ensures Occupied(pair, i, j) <==> i == 0 && 0 <= j < 2 {
    }
  }

  /** A pair placed at the start of the first free row extends the stack
      by one row. */
  lemma PairPlacedAt(rows: nat, after: nat)
    requires rows < 3 && after == rows + 1
    ensures PlaceBlock(PairRows(rows), rows, 0, Pair()) == Results.Ok(PairRows(after))
  {
    var pair := Pair();
    PairCells();
    assert Placeable(PairRows(rows), rows, 0, pair);
    var placed := PlaceBlock(PairRows(rows), rows, 0, pair).value;
    forall p, q | OnBoard(p, q) ensures placed[p][q] == PairRows(after)[p][q] {
      if Occupied(pair, p - rows, q) {
        assert p == rows && q < 2;
      }
    }
    SameCellsSameGrid(placed, PairRows(after), BoardSize);
  }

  /** No lane of a short stack of pairs is full, so clearing keeps it. */
  lemma PairRowsKept(rows: nat)
    requires rows <= 3
    ensures CheckAndRemoveFullLanes(PairRows(rows)) == PairRows(rows)
  {
    var b := PairRows(rows);
    forall p, q | OnBoard(p, q) ensures CheckAndRemoveFullLanes(b)[p][q] == b[p][q] {
      assert b[p][2] == None && b[9][q] == None;
    }
    SameCellsSameGrid(CheckAndRemoveFullLanes(b), b, BoardSize);
  }

  /** Every piece of the slot size fits with its origin at (5, 5) when the
      lower half of the board is empty, so such a game is not over while a
      slot holds a piece. */
  lemma LowerHalfTakesAnyPiece(board: Grid, block: Grid)
    requires IsBoard(board) && IsSquare(block, BlockSize)
    requires forall p, q | OnBoard(p, q) && p >= 5 :: board[p][q] == None
    ensures Placeable(board, 5, 5, block)
  {
  }

  lemma GoesOn(g: Game, t: BlockType)
    requires WellFormed(g) && ValidSlot(t) && !IsEmpty(Slot(g, t))
    requires forall p, q | OnBoard(p, q) && p >= 5 :: g.board[p][q] == None
    ensures !IsGameOver(g)
  {
    LowerHalfTakesAnyPiece(g.board, Slot(g, t));
    assert SlotCanContinue(g.board, Slot(g, t));
  }

  /** The test's opening game: a fresh game with a pair in every slot. */
  function ThreePairs(): (g: Game)
    ensures WellFormed(g)
  {
    New().(blockA := Pair(), blockB := Pair(), blockC := Pair())
  }

  /** The first move places slot A's pair at (0, 0) and empties slot A. */
  lemma FirstPairMove(refill: Refill)
    requires ValidRefill(refill)
    ensures Move(ThreePairs(), A, 0, 0, refill) == Moved(Game(PairRows(1), Used(), Pair(), Pair()))
  {
    var g := ThreePairs();
    var next := Game(PairRows(1), Used(), Pair(), Pair());
    SameCellsSameGrid(g.board, PairRows(0), BoardSize);
    PairPlacedAt(0, 1);
    PairRowsKept(1);
    PairCells();
    assert Placeable(g.board, 0, 0, g.blockA) by {
      assert PlaceBlock(g.board, 0, 0, g.blockA).Ok?;
    }
    assert UseSlot(g, A, PairRows(1), refill) == next by {
      assert !OthersEmpty(g, A) by { assert !IsEmpty(Slot(g, B)); }
    }
    GoesOn(next, B);
    BoardScenarios.MovedTo(g, A, 0, 0, refill, next);
  }

  /** Slot A is now empty and slot 22 does not exist: both moves fail with
      `IncorrectBlock` and leave the game alone. */
  lemma EmptyAndInvalidSlotsFail(refill: Refill)
    requires ValidRefill(refill)
    ensures var g := Game(PairRows(1), Used(), Pair(), Pair());
      && Move(g, A, 5, 5, refill) == Failed(IncorrectBlock, g)
      && Move(g, 22, 5, 5, refill) == Failed(IncorrectBlock, g)
  {
  }

  /** The second move places slot B's pair under the first. */
  lemma SecondPairMove(refill: Refill)
    requires ValidRefill(refill)
    ensures Move(Game(PairRows(1), Used(), Pair(), Pair()), B, 1, 0, refill) ==
      Moved(Game(PairRows(2), Used(), Used(), Pair()))
  {
    var g := Game(PairRows(1), Used(), Pair(), Pair());
    var next := Game(PairRows(2), Used(), Used(), Pair());
    PairPlacedAt(1, 2);
    PairRowsKept(2);
    PairCells();
    assert Placeable(g.board, 1, 0, g.blockB) by {
      assert PlaceBlock(g.board, 1, 0, g.blockB).Ok?;
    }
    assert UseSlot(g, B, PairRows(2), refill) == next by {
      assert !OthersEmpty(g, B) by { assert !IsEmpty(Slot(g, C)); }
    }
    GoesOn(next, C);
    BoardScenarios.MovedTo(g, B, 1, 0, refill, next);
  }

  /** The third move uses the last piece, so all three slots are refilled. */
  lemma ThirdPairMove(refill: Refill)
    requires ValidRefill(refill)
    ensures Move(Game(PairRows(2), Used(), Used(), Pair()), C, 2, 0, refill) ==
      Moved(Game(PairRows(3), refill.a, refill.b, refill.c))
  {
    var g := Game(PairRows(2), Used(), Used(), Pair());
    var next := Game(PairRows(3), refill.a, refill.b, refill.c);
    PairPlacedAt(2, 3);
    PairRowsKept(3);
    PairCells();
    assert Placeable(g.board, 2, 0, g.blockC) by {
      assert PlaceBlock(g.board, 2, 0, g.blockC).Ok?;
    }
    assert UseSlot(g, C, PairRows(3), refill) == next by {
      assert OthersEmpty(g, C);
    }
    GoesOn(next, A);
    BoardScenarios.MovedTo(g, C, 2, 0, refill, next);
  }

  /** The whole move test: after the three pairs are played every slot holds
      a piece again. */
  lemma MoveSequence(refill: Refill)
    requires ValidRefill(refill)
    ensures var first := Move(ThreePairs(), A, 0, 0, refill);
      && first.Moved? && IsEmpty(first.game.blockA)
      && Move(first.game, A, 5, 5, refill).Failed?
      && Move(first.game, 22, 5, 5, refill).Failed?
      && var second := Move(first.game, B, 1, 0, refill);
      && second.Moved? && IsEmpty(second.game.blockA) && IsEmpty(second.game.blockB)
      && var third := Move(second.game, C, 2, 0, refill);
      && third.Moved?
      && !IsEmpty(third.game.blockA) && !IsEmpty(third.game.blockB) && !IsEmpty(third.game.blockC)
  {
    FirstPairMove(refill);
    EmptyAndInvalidSlotsFail(refill);
    SecondPairMove(refill);
    ThirdPairMove(refill);
  }
}
