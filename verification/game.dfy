/** The puzzle's data: the colour tag of a cell, square grids of cells, the
    game record (a 10x10 board and three 5x5 piece slots), its constructor
    and the closed table of 19 piece shapes. */
module Game {

  /** The colour of one cell; `None` is an empty cell. */
  datatype BoardElement = None | Red | Green | Yellow | Blue | Magenta | Cyan | White

  /** A grid addressed as `g[row][column]`, both zero-based. */
  type Grid = seq<seq<BoardElement>>

  const BoardSize: nat := 10
  const BlockSize: nat := 5

  /** Number of shapes in the table; every other index yields an empty grid. */
  const ShapeCount: nat := 19

  /** The three piece slots are selected by an integer id; any other id is invalid. */
  type BlockType = int
  const A: BlockType := 0
  const B: BlockType := 1
  const C: BlockType := 2

  /** The game record: no score or game-over flag is kept in this version. */
  datatype Game = Game(board: Grid, blockA: Grid, blockB: Grid, blockC: Grid)

  predicate IsSquare(g: Grid, n: nat) {
    |g| == n && forall i | 0 <= i < n :: |g[i]| == n
  }

  predicate Occupied(g: Grid, i: int, j: int) {
    0 <= i < |g| && 0 <= j < |g[i]| && g[i][j] != None
  }

  predicate IsEmpty(g: Grid) {
    forall i, j | 0 <= i < |g| && 0 <= j < |g[i]| :: g[i][j] == None
  }

  /** Every occupied cell of `g` has colour `c`. */
  predicate SingleColour(g: Grid, c: BoardElement) {
    forall i, j | 0 <= i < |g| && 0 <= j < |g[i]| :: g[i][j] == None || g[i][j] == c
  }

  /** A board of the right size and three slots of the right size. */
  predicate WellFormed(g: Game) {
    && IsSquare(g.board, BoardSize)
    && IsSquare(g.blockA, BlockSize)
    && IsSquare(g.blockB, BlockSize)
    && IsSquare(g.blockC, BlockSize)
  }

  /** An n x n grid of empty cells. */
  function CreateContainer(size: nat): (g: Grid)
    ensures IsSquare(g, size)
    ensures IsEmpty(g)
  {
    seq(size, _ => seq(size, _ => None))
  }

  /** A fresh game. In this version the three slots are left empty. */
  function New(): (g: Game)
    ensures WellFormed(g)
    ensures IsEmpty(g.board) && IsEmpty(g.blockA) && IsEmpty(g.blockB) && IsEmpty(g.blockC)
  {
    Game(CreateContainer(BoardSize), CreateContainer(BlockSize),
         CreateContainer(BlockSize), CreateContainer(BlockSize))
  }

  /** Number of occupied cells of `row` from column `j` on. */
  function RowCellsFrom(row: seq<BoardElement>, j: nat): (n: nat)
    decreases |row| - j
  {
    if j >= |row| then 0
    else (if row[j] != None then 1 else 0) + RowCellsFrom(row, j + 1)
  }

  /** Number of occupied cells of `g` from row `i` on. */
  function CellsFrom(g: Grid, i: nat): nat
    decreases |g| - i
  {
    if i >= |g| then 0 else RowCellsFrom(g[i], 0) + CellsFrom(g, i + 1)
  }

  /** Number of occupied cells in a grid. */
  function CellCount(g: Grid): nat {
    CellsFrom(g, 0)
  }

  /** The mirror image of a square grid in its main diagonal. */
  function Transpose(g: Grid): (t: Grid)
    requires IsSquare(g, |g|)
    ensures IsSquare(t, |g|)
    ensures forall i, j | 0 <= i < |g| && 0 <= j < |g| :: t[i][j] == g[j][i]
  {
    seq(|g|, i requires 0 <= i < |g| => seq(|g|, j requires 0 <= j < |g| => g[j][i]))
  }

  /** The piece table. Indices 0..18 name the game's shapes; any other index
      falls back to an empty 5x5 grid. */
  function BlockShape(number: int): (shape: Grid)
    ensures IsSquare(shape, BlockSize)
    ensures !(0 <= number < ShapeCount) ==> IsEmpty(shape)
  {
    var N := None;
    match number
    case 0 =>
      [[Red, N, N, N, N],
       [N, N, N, N, N],
       [N, N, N, N, N],
       [N, N, N, N, N],
       [N, N, N, N, N]]
    case 1 =>
      [[Green, Green, N, N, N],
       [N, N, N, N, N],
       [N, N, N, N, N],
       [N, N, N, N, N],
       [N, N, N, N, N]]
    case 2 =>
      [[Green, N, N, N, N],
       [Green, N, N, N, N],
       [N, N, N, N, N],
       [N, N, N, N, N],
       [N, N, N, N, N]]
    case 3 =>
      [[Yellow, Yellow, Yellow, N, N],
       [N, N, N, N, N],
       [N, N, N, N, N],
       [N, N, N, N, N],
       [N, N, N, N, N]]
    case 4 =>
      [[Yellow, N, N, N, N],
       [Yellow, N, N, N, N],
       [Yellow, N, N, N, N],
       [N, N, N, N, N],
       [N, N, N, N, N]]
    case 5 =>
      [[Blue, Blue, Blue, Blue, N],
       [N, N, N, N, N],
       [N, N, N, N, N],
       [N, N, N, N, N],
       [N, N, N, N, N]]
    case 6 =>
      [[Blue, N, N, N, N],
       [Blue, N, N, N, N],
       [Blue, N, N, N, N],
       [Blue, N, N, N, N],
       [N, N, N, N, N]]
    case 7 =>
      [[Magenta, Magenta, Magenta, Magenta, Magenta],
       [N, N, N, N, N],
       [N, N, N, N, N],
       [N, N, N, N, N],
       [N, N, N, N, N]]
    case 8 =>
      [[Magenta, N, N, N, N],
       [Magenta, N, N, N, N],
       [Magenta, N, N, N, N],
       [Magenta, N, N, N, N],
       [Magenta, N, N, N, N]]
    case 9 =>
      [[Cyan, Cyan, N, N, N],
       [Cyan, Cyan, N, N, N],
       [N, N, N, N, N],
       [N, N, N, N, N],
       [N, N, N, N, N]]
    case 10 =>
      [[White, White, White, N, N],
       [White, White, White, N, N],
       [White, White, White, N, N],
       [N, N, N, N, N],
       [N, N, N, N, N]]
    case 11 =>
      [[Cyan, Cyan, Cyan, N, N],
       [Cyan, N, N, N, N],
       [Cyan, N, N, N, N],
       [N, N, N, N, N],
       [N, N, N, N, N]]
    case 12 =>
      [[Cyan, Cyan, Cyan, N, N],
       [N, N, Cyan, N, N],
       [N, N, Cyan, N, N],
       [N, N, N, N, N],
       [N, N, N, N, N]]
    case 13 =>
      [[N, N, Cyan, N, N],
       [N, N, Cyan, N, N],
       [Cyan, Cyan, Cyan, N, N],
       [N, N, N, N, N],
       [N, N, N, N, N]]
    case 14 =>
      [[Cyan, N, N, N, N],
       [Cyan, N, N, N, N],
       [Cyan, Cyan, Cyan, N, N],
       [N, N, N, N, N],
       [N, N, N, N, N]]
    case 15 =>
      [[White, White, N, N, N],
       [White, N, N, N, N],
       [N, N, N, N, N],
       [N, N, N, N, N],
       [N, N, N, N, N]]
    case 16 =>
      [[White, White, N, N, N],
       [N, White, N, N, N],
       [N, N, N, N, N],
       [N, N, N, N, N],
       [N, N, N, N, N]]
    case 17 =>
      [[N, White, N, N, N],
       [White, White, N, N, N],
       [N, N, N, N, N],
       [N, N, N, N, N],
       [N, N, N, N, N]]
    case 18 =>
      [[White, N, N, N, N],
       [White, White, N, N, N],
       [N, N, N, N, N],
       [N, N, N, N, N],
       [N, N, N, N, N]]
    case _ => CreateContainer(BlockSize)
  }

  /** Every shape of the table is a non-empty piece of one colour. */
  lemma ShapesAreSingleColoured(n: int)
    requires 0 <= n < ShapeCount
    ensures !IsEmpty(BlockShape(n))
    ensures exists c :: c != None && SingleColour(BlockShape(n), c)
  {
    if n == 0 || n == 9 || n == 10 {
      DotAndSquaresColoured();
      if n == 0 {} else if n == 9 {} else {}
    } else if n == 1 || n == 3 || n == 5 || n == 7 {
      HorizontalBarsColoured();
      if n == 1 {} else if n == 3 {} else if n == 5 {} else {}
    } else if n == 2 || n == 4 || n == 6 || n == 8 {
      VerticalBarsColoured();
      if n == 2 {} else if n == 4 {} else if n == 6 {} else {}
    } else if n < 15 {
      LargeCornersColoured();
      if n == 11 {} else if n == 12 {} else if n == 13 {} else {}
    } else {
      SmallCornersColoured();
      if n == 15 {} else if n == 16 {} else if n == 17 {} else {}
    }
  }

  /** The dot and the two squares are each of one colour. */
  lemma DotAndSquaresColoured()
    ensures Occupied(BlockShape(0), 0, 0) && SingleColour(BlockShape(0), Red)
    ensures Occupied(BlockShape(9), 0, 0) && SingleColour(BlockShape(9), Cyan)
    ensures Occupied(BlockShape(10), 0, 0) && SingleColour(BlockShape(10), White)
  {
  }

  /** The horizontal bars are each of one colour. */
  lemma HorizontalBarsColoured()
    ensures Occupied(BlockShape(1), 0, 0) && SingleColour(BlockShape(1), Green)
    ensures Occupied(BlockShape(3), 0, 0) && SingleColour(BlockShape(3), Yellow)
    ensures Occupied(BlockShape(5), 0, 0) && SingleColour(BlockShape(5), Blue)
    ensures Occupied(BlockShape(7), 0, 0) && SingleColour(BlockShape(7), Magenta)
  {
  }

  /** The vertical bars are each of one colour. */
  lemma VerticalBarsColoured()
    ensures Occupied(BlockShape(2), 0, 0) && SingleColour(BlockShape(2), Green)
    ensures Occupied(BlockShape(4), 0, 0) && SingleColour(BlockShape(4), Yellow)
    ensures Occupied(BlockShape(6), 0, 0) && SingleColour(BlockShape(6), Blue)
    ensures Occupied(BlockShape(8), 0, 0) && SingleColour(BlockShape(8), Magenta)
  {
  }

  /** The large corners are each of one colour. */
  lemma LargeCornersColoured()
    ensures Occupied(BlockShape(11), 0, 0) && SingleColour(BlockShape(11), Cyan)
    ensures Occupied(BlockShape(12), 0, 0) && SingleColour(BlockShape(12), Cyan)
    ensures Occupied(BlockShape(13), 2, 0) && SingleColour(BlockShape(13), Cyan)
    ensures Occupied(BlockShape(14), 0, 0) && SingleColour(BlockShape(14), Cyan)
  {
  }

  /** The small corners are each of one colour. */
  lemma SmallCornersColoured()
    ensures Occupied(BlockShape(15), 0, 0) && SingleColour(BlockShape(15), White)
    ensures Occupied(BlockShape(16), 0, 0) && SingleColour(BlockShape(16), White)
    ensures Occupied(BlockShape(17), 1, 0) && SingleColour(BlockShape(17), White)
    ensures Occupied(BlockShape(18), 0, 0) && SingleColour(BlockShape(18), White)
  {
  }

  /** Every shape is anchored at the top-left of its frame: row 0 and
      column 0 each hold an occupied cell. */
  lemma ShapesAreAnchored(n: int)
    requires 0 <= n < ShapeCount
    ensures exists j :: Occupied(BlockShape(n), 0, j)
    ensures exists i :: Occupied(BlockShape(n), i, 0)
  {
    var s := BlockShape(n);
    if n == 13 {
      assert Occupied(s, 0, 2) && Occupied(s, 2, 0);
    } else if n == 17 {
      assert Occupied(s, 0, 1) && Occupied(s, 1, 0);
    } else {
      assert Occupied(s, 0, 0);
    }
  }

  /** Two n x n grids that agree on every cell are equal. */
  lemma SameCellsSameGrid(g: Grid, h: Grid, n: nat)
    requires IsSquare(g, n) && IsSquare(h, n)
    requires forall i, j | 0 <= i < n && 0 <= j < n :: g[i][j] == h[i][j]
    ensures g == h
  {
    forall i | 0 <= i < n ensures g[i] == h[i] {
    }
  }

  /** The vertical bars are the transposes of the horizontal ones. */
  lemma VerticalBarsAreTransposes()
    ensures Transpose(BlockShape(1)) == BlockShape(2)
    ensures Transpose(BlockShape(3)) == BlockShape(4)
    ensures Transpose(BlockShape(5)) == BlockShape(6)
    ensures Transpose(BlockShape(7)) == BlockShape(8)
  {
    forall n | n in {1, 3, 5, 7}
      ensures Transpose(BlockShape(n)) == BlockShape(n + 1)
    {
      SameCellsSameGrid(Transpose(BlockShape(n)), BlockShape(n + 1), BlockSize);
    }
  }

  /** The cell count of each shape the table's groups speak of, one
      shape at a time. */
  lemma CellCountOf0()
    ensures CellCount(BlockShape(0)) == 1
  {
  }

  lemma CellCountOf7()
    ensures CellCount(BlockShape(7)) == 5
  {
  }

  lemma CellCountOf8()
    ensures CellCount(BlockShape(8)) == 5
  {
  }

  lemma CellCountOf10()
    ensures CellCount(BlockShape(10)) == 9
  {
  }

  lemma CellCountOf11()
    ensures CellCount(BlockShape(11)) == 5
  {
  }

  lemma CellCountOf12()
    ensures CellCount(BlockShape(12)) == 5
  {
  }

  lemma CellCountOf13()
    ensures CellCount(BlockShape(13)) == 5
  {
  }

  lemma CellCountOf14()
    ensures CellCount(BlockShape(14)) == 5
  {
  }

  lemma CellCountOf15()
    ensures CellCount(BlockShape(15)) == 3
  {
  }

  lemma CellCountOf16()
    ensures CellCount(BlockShape(16)) == 3
  {
  }

  lemma CellCountOf17()
    ensures CellCount(BlockShape(17)) == 3
  {
  }

  lemma CellCountOf18()
    ensures CellCount(BlockShape(18)) == 3
  {
  }

  /** The dot has one cell, the five-cell bars five and the 3x3 square
      nine. */
  lemma ShapeCellCounts()
    ensures CellCount(BlockShape(0)) == 1
    ensures CellCount(BlockShape(7)) == 5 && CellCount(BlockShape(8)) == 5
    ensures CellCount(BlockShape(10)) == 9
  {
    CellCountOf0(); CellCountOf7(); CellCountOf8(); CellCountOf10();
  }

  /** The four large corners have five cells each. */
  lemma LargeCornerCellCounts()
    ensures CellCount(BlockShape(11)) == 5 && CellCount(BlockShape(12)) == 5
    ensures CellCount(BlockShape(13)) == 5 && CellCount(BlockShape(14)) == 5
  {
    CellCountOf11(); CellCountOf12(); CellCountOf13(); CellCountOf14();
  }

  /** The four small corners have three cells each. */
  lemma SmallCornerCellCounts()
    ensures CellCount(BlockShape(15)) == 3 && CellCount(BlockShape(16)) == 3
    ensures CellCount(BlockShape(17)) == 3 && CellCount(BlockShape(18)) == 3
  {
    CellCountOf15(); CellCountOf16(); CellCountOf17(); CellCountOf18();
  }
}
