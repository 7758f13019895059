/** The glue between a game and a network: the game as the network's
    input, and the network's output as a move. */
module Control {
  import opened Game
  import opened Neural
  import opened Manager

  /** The input for one cell: 1 when it is occupied, 0 when it is empty. */
  function Feature(e: BoardElement): real {
    if e != None then 1.0 else 0.0
  }

  /** An n x n grid for its own n. */
  predicate Square(g: Grid) {
    IsSquare(g, |g|)
  }

  function RowFeatures(row: seq<BoardElement>): (f: seq<real>)
    ensures |f| == |row|
    ensures forall y | 0 <= y < |row| :: f[y] == Feature(row[y])
  {
    seq(|row|, y requires 0 <= y < |row| => Feature(row[y]))
  }

  /** The rows of `g`, each of `width` cells, one after another. */
  function GridFeatures(g: Grid, width: nat): (f: seq<real>)
    requires forall x | 0 <= x < |g| :: |g[x]| == width
    ensures |f| == |g| * width
    ensures forall k | 0 <= k < |f| :: f[k] == 0.0 || f[k] == 1.0
  {
    if |g| == 0 then []
    else
      var rest := GridFeatures(g[1..], width);
      RowStep(|g|, width);
      RowFeatures(g[0]) + rest
  }

  /** Cell `(x, y)` lands at `x * width + y`. */
  lemma {:induction false} GridFeaturesAt(g: Grid, width: nat, x: nat, y: nat)
    requires forall x | 0 <= x < |g| :: |g[x]| == width
    requires x < |g| && y < width
    ensures x * width + y < |GridFeatures(g, width)|
    ensures GridFeatures(g, width)[x * width + y] == Feature(g[x][y])
  {
    RowStep(|g|, width);
    if x > 0 {
      GridFeaturesAt(g[1..], width, x - 1, y);
      RowStep(x, width);
      assert g[x] == g[1..][x - 1];
    }
  }

  /** Row `x` starts one row's width after row `x - 1`. */
  lemma RowStep(x: int, width: int)
    ensures x * width == width + (x - 1) * width
  {
  }

  /** `inputForGame`: the board, then slot A, slot B and slot C, each row
      by row, one entry per cell. Each loop reads as many cells per row as
      the grid's first row has, and the input is sized for square grids;
      the requirement matches what the game passes, since a new board and
      every piece shape are square. */
  function InputForGame(g: Game): (input: seq<real>)
    requires Square(g.board) && Square(g.blockA) && Square(g.blockB) && Square(g.blockC)
    ensures |input| == |g.board| * |g.board| + |g.blockA| * |g.blockA| + |g.blockB| * |g.blockB| + |g.blockC| * |g.blockC|
    ensures forall k | 0 <= k < |input| :: input[k] == 0.0 || input[k] == 1.0
  {
    GridFeatures(g.board, |g.board|) + GridFeatures(g.blockA, |g.blockA|)
      + GridFeatures(g.blockB, |g.blockB|) + GridFeatures(g.blockC, |g.blockC|)
  }

  /** Cell `(x, y)` of a slot, read into the input from `offset` on. */
  lemma SlotCell(input: seq<real>, offset: nat, slot: Grid, x: nat, y: nat)
    requires IsSquare(slot, 5) && x < 5 && y < 5
    requires offset + 25 <= |input| && input[offset..offset + 25] == GridFeatures(slot, 5)
    ensures input[offset + 5 * x + y] == 1.0 <==> slot[x][y] != None
  {
    GridFeaturesAt(slot, 5, x, y);
    assert input[offset + 5 * x + y] == GridFeatures(slot, 5)[5 * x + y];
  }

  /** For a game of the standard sizes the input has 175 entries: the
      board at 0 to 99, slot A at 100 to 124, slot B at 125 to 149 and
      slot C at 150 to 174, each row by row, and an entry is 1 exactly
      when its cell is occupied. */
  lemma InputLayout(g: Game)
    requires WellFormed(g)
    ensures var input := InputForGame(g);
      && |input| == 175
      && (forall x, y | 0 <= x < 10 && 0 <= y < 10 :: input[10 * x + y] == 1.0 <==> g.board[x][y] != None)
      && (forall x, y | 0 <= x < 5 && 0 <= y < 5 :: input[100 + 5 * x + y] == 1.0 <==> g.blockA[x][y] != None)
      && (forall x, y | 0 <= x < 5 && 0 <= y < 5 :: input[125 + 5 * x + y] == 1.0 <==> g.blockB[x][y] != None)
      && (forall x, y | 0 <= x < 5 && 0 <= y < 5 :: input[150 + 5 * x + y] == 1.0 <==> g.blockC[x][y] != None)
  {
    var input := InputForGame(g);
    var board := GridFeatures(g.board, 10);
    var a := GridFeatures(g.blockA, 5);
    var b := GridFeatures(g.blockB, 5);
    var c := GridFeatures(g.blockC, 5);
    assert input == board + a + b + c;
    assert input[..100] == board;
    assert input[100..125] == a;
    assert input[125..150] == b;
    assert input[150..175] == c;
    forall x, y | 0 <= x < 10 && 0 <= y < 10 ensures input[10 * x + y] == 1.0 <==> g.board[x][y] != None {
      GridFeaturesAt(g.board, 10, x, y);
      assert input[10 * x + y] == board[10 * x + y];
    }
    forall x, y | 0 <= x < 5 && 0 <= y < 5
      ensures input[100 + 5 * x + y] == 1.0 <==> g.blockA[x][y] != None
      ensures input[125 + 5 * x + y] == 1.0 <==> g.blockB[x][y] != None
      ensures input[150 + 5 * x + y] == 1.0 <==> g.blockC[x][y] != None
    {
      SlotCell(input, 100, g.blockA, x, y);
      SlotCell(input, 125, g.blockB, x, y);
      SlotCell(input, 150, g.blockC, x, y);
    }
  }

  /** The networks a manager builds for 175 inputs, with at least one
      hidden layer, accept the input of every well-formed game. */
  lemma GameInputFitsNetworks(g: Game, hidden: seq<nat>, population: nat, draws: Draws, start: nat, k: nat)
    requires WellFormed(g) && |hidden| >= 1 && k < population
    ensures Runnable(NewNetworkManager(175, 3, hidden, population, draws, start).networks[k], InputForGame(g))
  {
    InputLayout(g);
    NewNetworksAreRunnable(175, 3, hidden, population, draws, start, k, InputForGame(g));
  }

  /** Go's conversion of a float to an integer: the fraction is dropped,
      rounding toward zero. */
  function Truncate(r: real): (t: int)
    ensures r >= 0.0 ==> 0 <= t && t as real <= r < t as real + 1.0
    ensures r < 0.0 ==> t <= 0 && t as real - 1.0 < r <= t as real
  {
    if r >= 0.0 then r.Floor else -((-r).Floor)
  }

  /** An output in [-1, 1] mapped onto [0, size]. */
  function Scale(o: real, size: int): real {
    ((o + 1.0) / 2.0) * size as real
  }

  /** `outputToGameControl`: the first output chooses the slot by thirds,
      the second and third, mapped from [-1, 1] onto [0, boardSize] and
      truncated, the row and the column. Fewer than three outputs make the
      source index out of range. */
  function OutputToGameControl(output: seq<real>, boardSize: int): (r: (BlockType, int, int))
    requires |output| >= 3
    ensures r.0 == A <==> output[0] < -0.3333
    ensures r.0 == B <==> -0.3333 <= output[0] < 0.3333
    ensures r.0 == C <==> 0.3333 <= output[0]
    ensures r.1 == Truncate(Scale(output[1], boardSize)) && r.2 == Truncate(Scale(output[2], boardSize))
  {
    var block := if output[0] < -0.3333 then A else if output[0] < 0.3333 then B else C;
    (block, Truncate(Scale(output[1], boardSize)), Truncate(Scale(output[2], boardSize)))
  }

  /** A fraction `p` of `k`, the fraction `t` being in [0, 1], lies
      between 0 and `k`, and below `k` when `t` is below 1 and `k` is
      positive. */
  lemma {:induction false} FractionBetween(t: real, k: nat, p: real)
    requires 0.0 <= t <= 1.0 && p == t * k as real
    ensures 0.0 <= p <= k as real
    ensures t < 1.0 && k >= 1 ==> p < k as real
  {
    if k > 0 {
      var q := t * (k - 1) as real;
      FractionBetween(t, k - 1, q);
      assert p == q + t;
    }
  }

  /** An output in [-1, 1] gives a coordinate between 0 and the board size;
      it is the board size itself, one past the last row or column, exactly
      when the output is 1. */
  lemma CoordinateRange(o: real, size: nat)
    requires -1.0 <= o <= 1.0 && size >= 1
    ensures 0 <= Truncate(Scale(o, size)) <= size
    ensures Truncate(Scale(o, size)) == size <==> o == 1.0
  {
    var t := (o + 1.0) / 2.0;
    var n := size as real;
    var s := Scale(o, size);
    FractionBetween(t, size, s);
    var c := Truncate(s);
    assert c as real <= s < c as real + 1.0;
    if o == 1.0 {
      assert s == n;
    } else {
      assert t < 1.0 && s < n;
      assert c < size;
    }
  }

  /** With the control `main.go` uses, every output in [-1, 1] picks a
      valid slot and a position whose row and column lie in 0 to 10. */
  lemma ControlIsInRange(output: seq<real>)
    requires |output| >= 3
    requires forall k | 0 <= k < |output| :: -1.0 <= output[k] <= 1.0
    ensures var r := OutputToGameControl(output, BoardSize);
      && (r.0 == A || r.0 == B || r.0 == C)
      && 0 <= r.1 <= BoardSize && 0 <= r.2 <= BoardSize
      && (r.1 == BoardSize <==> output[1] == 1.0)
  {
    CoordinateRange(output[1], BoardSize);
    CoordinateRange(output[2], BoardSize);
  }
}
