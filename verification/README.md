# go1010 in Dafny

This project models the core of go1010. go1010 is a terminal version of the puzzle game 1010!, played by a population of small neural networks that evolve from one generation to the next. The model covers five parts:

- **Game** (`game.dfy`, `board.dfy`): the 10x10 board and the three 5x5 piece slots. It covers the table of 19 shapes, placing a piece, and clearing full rows and columns. It also covers the game-over test and a whole move: the slot is emptied and all three slots are refilled once all are used.
- **Neural** (`neural.dfy`): a feed-forward network.
  - Construction draws every weight from a random stream.
  - The forward pass `Run` feeds the inputs in and evaluates each layer against the previous one.
  - `Mutated` returns the network unchanged.
- **Manager** (`manager.dfy`, `persistence.dfy`): the network manager.
  - It builds the layer sizes and the initial population, orders networks by fitness, and breeds the next generation.
  - It writes the fittest network as text and reads such a text back into the last slot.
- **Control** (`control.dfy`): the two adapters of `main.go`. One encodes a game as the 175 network inputs. The other decodes three network outputs into a slot and a board position.
- **Drawer** (`drawer.dfy`): the two pure text helpers of the terminal drawer. One merges boards side by side; the other draws a titled frame around a block of text.

`text.dfy` holds the string functions of Go's library that these parts rely on, with Go's semantics: `strings.Split`, `strings.Join`, `strconv.Itoa`, `strconv.Atoi`, and `len` of a string as a byte count. `results.dfy` holds the `Option` and `Result` types.

The bodies of `placeBlock`, `checkAndRemoveFullLanes`, `isGameOver` and `Move` are not part of this model. Their behaviour is taken from `game/game_test.go`. Each test of that file is proved about the model as a scenario lemma, in `board_scenarios.dfy` and `move_scenarios.dfy`. The network tests of `neural/neural_test.go` are proved in `neural_scenarios.dfy`.

Go panics become preconditions: an index out of range, `Run` on a network with fewer than three layers, `NextGeneration` on fewer than three networks. Every error the source returns as a value is modelled as an error result.

Where the doc comments or tests and the code disagree, the model follows the code:
- `New` leaves the three slots empty, while `TestInitialState` expects them filled. A fresh game is therefore over before it starts (`BoardScenarios.FreshGameIsOver`).
- `Mutated` is documented to mutate weights, but it returns the network as it is.

## Model

| member | source | states |
|---|---|---|
| Game.CreateContainer | game/game.go:32-38 | a container of size n is an n x n grid whose cells are all empty |
| Game.New | game/game.go:27-30 | a new game has an empty 10x10 board and three 5x5 slots, all empty |
| Game.BlockShape | game/game.go:41-185 | every shape is a 5x5 grid; an index outside 0..18 gives the empty grid |
| Game.ShapesAreSingleColoured | game/game.go:41-175 | each of the 19 shapes is non-empty and all its occupied cells have one colour |
| Game.DotAndSquaresColoured | game/game.go:43-119 | the dot is red, the 2x2 square cyan and the 3x3 square white, each anchored at (0, 0) |
| Game.HorizontalBarsColoured | game/game.go:50-105 | the horizontal bars of length 2 to 5 are green, yellow, blue and magenta |
| Game.VerticalBarsColoured | game/game.go:57-105 | the vertical bars of length 2 to 5 are green, yellow, blue and magenta |
| Game.LargeCornersColoured | game/game.go:120-147 | the four large corners are cyan |
| Game.SmallCornersColoured | game/game.go:148-175 | the four small corners are white |
| Game.ShapesAreAnchored | game/game.go:41-175 | every shape touches row 0 and column 0 of its frame, so origin (x, y) is the top-left of the piece |
| Game.VerticalBarsAreTransposes | game/game.go:50-105 | each vertical bar is the mirror image of the horizontal bar of the same length |
| Game.ShapeCellCounts | game/game.go:43-119 | the dot has 1 cell, the five-cell bars 5 and the 3x3 square 9 |
| Game.LargeCornerCellCounts | game/game.go:120-147 | each large corner has 5 cells |
| Game.SmallCornerCellCounts | game/game.go:148-175 | each small corner has 3 cells |
| Board.PlaceBlock | game/game_test.go:202-234 | placement succeeds exactly when the origin is non-negative and every occupied piece cell lands on an empty board cell; a failure is IncorrectPosition; on success exactly the occupied piece cells are written, in their colours |
| Board.ScanMatchesRule | game/game_test.go:202-234 | the cell-by-cell scan accepts exactly the placements the rule allows |
| Board.CheckAndRemoveFullLanes | game/game_test.go:93-142 | every row and column that is full on the given board becomes empty; every other cell is kept |
| Board.NoFullLaneAfterClear | game/game_test.go:93-124 | after clearing, no row and no column is full |
| Board.ClearIsIdempotent | game/game_test.go:93-142 | clearing a cleared board changes nothing |
| Board.FitsAnywhereIsExhaustive | game/game_test.go:144-183 | the search over the 100 board origins finds a place exactly when the piece fits at some integer origin |
| Board.FitsAnywhereFinds | game/game_test.go:144-183 | any origin where the piece fits makes the search succeed |
| Board.Stuck | game/game_test.go:144-183 | a slot is stuck exactly when it is empty or its piece fits nowhere on the board |
| Board.IsGameOver | game/game_test.go:144-183 | the game is over exactly when no slot can continue; an empty slot is ignored |
| Board.UseSlot | game/game_test.go:36-72 | after a placement the used slot is empty and the others are kept; once all three are used all three are refilled, so a move never leaves every slot empty |
| Board.Move | game/game_test.go:36-91 | an invalid or empty slot fails with IncorrectBlock and a refused placement with IncorrectPosition, both leaving the game unchanged; otherwise the piece is placed, full lanes are cleared and the slot used, and the move fails with GameOver exactly when the resulting game is over |
| BoardScenarios.NegativeOriginFails | game/game_test.go:226-228 | a negative origin is refused whatever the piece |
| BoardScenarios.PairAtOrigin | game/game_test.go:208-210 | the pair at (0, 0) on an empty board paints exactly (0, 0) and (0, 1) green |
| BoardScenarios.FiveBarOffEdge | game/game_test.go:213 | the vertical five-bar at row 8 is refused |
| BoardScenarios.SquareAtCorner | game/game_test.go:216-220 | the 2x2 square at (8, 8) fills the bottom-right corner in cyan |
| BoardScenarios.DotPlacements | game/game_test.go:223-233 | the dot is refused on an occupied cell and at the five origins off the board, and accepted at (8, 7) |
| BoardScenarios.LanesAreCleared | game/game_test.go:98-124 | a full row, a full column, and a full row crossing a full column are each cleared completely |
| BoardScenarios.RowIsCleared | game/game_test.go:98-105 | a board holding one full row is empty after clearing |
| BoardScenarios.ColumnIsCleared | game/game_test.go:107-114 | a board holding one full column is empty after clearing |
| BoardScenarios.CrossIsCleared | game/game_test.go:116-124 | a full row and a full column that cross are both cleared in one call |
| BoardScenarios.ScatteredCellsSurvive | game/game_test.go:126-141 | cells that complete no lane keep their colours |
| BoardScenarios.FreshGameIsOver | game/game.go:27-30 | a new game is over, and every move on it fails with IncorrectBlock |
| BoardScenarios.FirstBarMove | game/game_test.go:82-84 | the first five-bar fills the top half of column 0 and the game goes on |
| BoardScenarios.SecondBarClearsColumn | game/game_test.go:86-90 | the second five-bar completes column 0, which is cleared; the slots are refilled and the game goes on |
| BoardScenarios.TwoBarsLeaveEmptyBoard | game/game_test.go:74-91 | the two moves succeed and leave an empty board |
| BoardScenarios.CornerPieceBlocked | game/game_test.go:149-159 | on the checkerboard a piece covering (0, 0), (0, 1), (0, 2) and (2, 0) fits nowhere |
| BoardScenarios.LargePiecesBlocked | game/game_test.go:167-177 | the 3x3 square and the large corner fit nowhere on the checkerboard |
| BoardScenarios.GameOverVerdicts | game/game_test.go:161-183 | the four verdicts of the test: three pairs go on, a lone 3x3 square is over, squares with a corner are over, a lone pair goes on |
| BoardScenarios.LastMoveEndsGame | game/game_test.go:185-199 | the pair still fits in row 8, but afterwards only the 3x3 square is left and the move fails with GameOver |
| MoveScenarios.PairPlacedAt | game/game_test.go:45-64 | a pair at the start of the next free row extends the stack of pairs by one row |
| MoveScenarios.PairRowsKept | game/game_test.go:45-64 | a stack of up to three pairs completes no lane and survives clearing |
| MoveScenarios.LowerHalfTakesAnyPiece | game/game_test.go:64-71 | any 5x5 piece fits at (5, 5) while the lower half of the board is empty |
| MoveScenarios.FirstPairMove | game/game_test.go:45-48 | slot A's pair goes to (0, 0) and slot A becomes empty |
| MoveScenarios.EmptyAndInvalidSlotsFail | game/game_test.go:50-57 | moving the empty slot A, or slot 22, fails with IncorrectBlock and leaves the game alone |
| MoveScenarios.SecondPairMove | game/game_test.go:59-62 | slot B's pair goes to (1, 0) and slot B becomes empty |
| MoveScenarios.ThirdPairMove | game/game_test.go:64-71 | slot C's pair goes to (2, 0), and all three slots are refilled |
| MoveScenarios.MoveSequence | game/game_test.go:36-72 | the whole move test: each successful move empties its slot, the two bad moves fail, and after the third move every slot holds a piece |
| Neural.WindowSplit | neural/neural.go:36-38 | consecutive draws split into consecutive windows |
| Neural.NewNeuron | neural/neural.go:43-54 | a new neuron holds zero and the given number of weights |
| Neural.NewNeurons | neural/neural.go:36-38 | a new layer has the given number of neurons, each holding zero with one weight per link, and its weights are the next draws in order |
| Neural.NewLayers | neural/neural.go:30-39 | each layer has its size, each neuron one weight per neuron of the previous layer (none in the input layer), and the weights are consecutive draws |
| Neural.NewNetwork | neural/neural.go:26-41 | a new network has the requested shape, zero values and fitness, and all its weights in draw order |
| Neural.Evaluate | neural/neural.go:73-81 | each neuron of a layer gets the activation of its weighted sum over the previous layer's values, and keeps its weights |
| Neural.Forward | neural/neural.go:73-81 | evaluating the remaining layers in order keeps the weights and leaves every layer following the one before it |
| Neural.Run | neural/neural.go:59-90 | the input layer holds the input, every later layer follows the one before it, the weights are untouched, and the output is the last layer's values |
| Neural.WithValues | neural/neural.go:68-70 | the input layer takes the input values and keeps its weights |
| Neural.PropagationIsUnique | neural/neural.go:73-81 | two forward passes over the same weights from the same input values are identical |
| Neural.RunDependsOnlyOnLinks | neural/neural.go:59-90 | the output of Run depends only on the input and the weights, not on values left over from an earlier run |
| Neural.RunIsRepeatable | neural/neural.go:59-90 | running a network that has just run, on the same input, gives the same output and network |
| Neural.Mutated | neural/neural.go:97-99 | the mutant has the same layers and fitness as the original |
| NeuralScenarios.ConstantDrawsEveryWeight | neural/neural_test.go:9-38 | with a random provider that always returns v, every weight of a new network is v |
| NeuralScenarios.SharedOutputWeightsGiveEqualOutputs | neural/neural.go:73-89 | when all output neurons carry the same weights, every output of Run is the same |
| NeuralScenarios.ConstantDrawsGiveEqualOutputs | neural/neural_test.go:40-55 | a network built from a constant provider runs on an input of its input size and gives equal outputs |
| Manager.MakeLayers | neural/neuralNetworkManager.go:49-57 | the sizes are the inputs, then the hidden sizes in order, then the outputs |
| Manager.NewNetworks | neural/neuralNetworkManager.go:42-45 | the k-th network is built from the k-th block of draws |
| Manager.PoolIsFresh | neural/neuralNetworkManager.go:42-45 | every network of the pool has the manager's shape, fitness zero, and its own block of draws as weights |
| Manager.NewNetworkManager | neural/neuralNetworkManager.go:34-47 | generation 0, the layers of makeLayers, a fresh pool of the requested size, and the stream advanced past every draw used |
| Manager.NewNetworksAreRunnable | neural/neuralNetworkManager.go:34-47 | with at least one hidden layer every new network can run on an input of the input size |
| Manager.Insert | neural/neuralNetworkManager.go:95-99 | inserting into a sequence ordered by fitness keeps it ordered and adds exactly one network |
| Manager.SortByFitness | neural/neuralNetworkManager.go:95-99 | the result is a permutation of the networks, fittest first |
| Manager.SortedHeadIsFittest | neural/neuralNetworkManager_test.go:60-79 | the first sorted network is one of the population, at least as fit as every other |
| Manager.FreshStartIsLeast | neural/neuralNetworkManager.go:76-88 | the first slot that gets a new random network is the least k with k / n >= 0.9 |
| Manager.FreshShare | neural/neuralNetworkManager.go:83-88 | a tenth of the population, rounded down, is replaced by new random networks |
| Manager.Parent | neural/neuralNetworkManager.go:76-84 | slots below a half descend from the fittest network, those below eight tenths from the second, the rest from the third |
| Manager.Assemble | neural/neuralNetworkManager.go:75-89 | slots before the fresh share hold offspring of the fittest three; the remaining slots take new networks in order |
| Manager.NextGeneration | neural/neuralNetworkManager.go:66-93 | the population size and layers are kept, the generation counter grows by one, and the stream advances by one network per fresh slot |
| Manager.NextGenerationSlot | neural/neuralNetworkManager.go:75-89 | slot 0 keeps the fittest network; the later slots take mutants of the first, second or third fittest by the 50/80/90 percent thresholds, or a new network |
| Manager.NextGenerationKeepsFittest | neural/neuralNetworkManager.go:77-78 | slot 0 of the next generation is a network of the current one, at least as fit as all of them |
| Manager.GenerationOfTen | neural/neuralNetworkManager_test.go:27-58 | for ten networks: slot 0 keeps the fittest, slots 1-4 mutate it, 5-7 mutate the second, 8 the third, and slot 9 is new |
| Persistence.LayerTexts | neural/neuralNetworkManager.go:110-115 | each layer size is written in decimal |
| Persistence.WeightTexts | neural/neuralNetworkManager.go:119-125 | each weight is written with the codec, in order |
| Persistence.Save | neural/neuralNetworkManager.go:103-131 | the caller's networks are reordered by fitness; the text is the layer sizes, a bar, and the fittest network's weights, comma-separated; with no weights the trailing cut removes the bar |
| Persistence.CheckLayers | neural/neuralNetworkManager.go:155-163 | the layer check passes exactly when every entry reads as the expected size; otherwise it names the first bad entry and whether it was not a number or a different size |
| Persistence.ReadWeights | neural/neuralNetworkManager.go:166-191 | reading succeeds exactly when enough entries exist and each needed one parses; the values are the parsed entries in order; otherwise the error names a missing entry or the first unreadable one |
| Persistence.RebuildLayer | neural/neuralNetworkManager.go:172-190 | the rebuilt layer has the original's shape, zero values, and takes its weights in order |
| Persistence.Rebuild | neural/neuralNetworkManager.go:168-191 | the rebuilt network has the original's shape, zero values, and exactly the given weights in order |
| Persistence.ShapeAndWeightsDetermineLinks | neural/neuralNetworkManager.go:168-191 | two networks of the same shape with the same weight sequence have the same weights neuron by neuron, so rebuilding inverts flattening |
| Persistence.Load | neural/neuralNetworkManager.go:136-147 | an unreadable file gives ReadFailed; a text without exactly one bar gives IncorrectFormat |
| Persistence.LoadSucceedsExactly | neural/neuralNetworkManager.go:136-195 | loading succeeds exactly when there is one bar, the layer sizes match, and enough readable weights follow |
| Persistence.LoadedNetwork | neural/neuralNetworkManager.go:166-192 | a successful load keeps every network but the last; the last is a network of the first one's shape holding zeros and the parsed weights |
| Persistence.LoadParts | neural/neuralNetworkManager.go:150-192 | a wrong layer count gives IncompatibleLayerCount; success needs matching sizes and enough readable weights, and replaces only the last network |
| Persistence.Installed | neural/neuralNetworkManager.go:168-192 | only the last network is replaced, by one shaped like the first with zero values, fitness zero and the given weights |
| Persistence.SavedTextSplits | neural/neuralNetworkManager.go:144-166 | the saved text splits back into its header and weight entries |
| Persistence.LoadSavedText | neural/neuralNetworkManager.go:103-195 | the text saved for a network with weights loads back into the last slot, with the same shape and every weight equal to what the codec reads back |
| Persistence.SaveThenLoad | neural/neuralNetworkManager.go:103-195 | saving and loading back puts a copy of the fittest network, as the codec reads it back, into the last slot |
| Persistence.SaveThenLoadExactly | neural/neuralNetworkManager.go:103-195 | with a codec that reads back what it writes, the loaded network has exactly the weights of the fittest one |
| Persistence.ReadBackExactly | neural/neuralNetworkManager.go:177-185 | weights read back exactly rebuild the links of the network written |
| Persistence.SaveWithoutWeightsCannotLoad | neural/neuralNetworkManager.go:117-147 | when the fittest network has no weights, the saved text has no bar and loading it fails with IncorrectFormat |
| Control.RowFeatures | main.go:247-254 | each cell becomes 1 when occupied and 0 when empty |
| Control.GridFeatures | main.go:246-255 | the input of a grid has one entry per cell, each 0 or 1 |
| Control.GridFeaturesAt | main.go:246-255 | cell (x, y) is read into entry x * width + y |
| Control.InputForGame | main.go:243-288 | the input has one entry per cell of the board and the three slots, each 0 or 1 |
| Control.InputLayout | main.go:243-288 | for the standard sizes the input has 175 entries: the board row by row from 0, then slots A, B and C from 100, 125 and 150; an entry is 1 exactly when its cell is occupied |
| Control.GameInputFitsNetworks | main.go:22 | the networks main.go creates, with 175 inputs, run on the input of every well-formed game |
| Control.Truncate | main.go:240 | conversion to int drops the fraction, rounding toward zero |
| Control.OutputToGameControl | main.go:224-241 | the first output picks slot A below -0.3333, B below 0.3333 and C otherwise; the others map [-1, 1] onto [0, size] and truncate |
| Control.CoordinateRange | main.go:235-240 | an output in [-1, 1] gives a coordinate in 0..size, equal to size only for output 1 |
| Control.ControlIsInRange | main.go:224-241 | outputs in [-1, 1] always pick a valid slot and coordinates in 0..10 |
| Text.Split | neural/neuralNetworkManager.go:144-150 | one more piece than separators, no piece holds the separator, and joining the pieces gives the text back |
| Text.SplitJoin | neural/neuralNetworkManager.go:144-166 | splitting a join of separator-free parts gives the parts back |
| Text.TerminatedIsJoin | neural/neuralNetworkManager.go:119-126 | appending each entry with a comma and cutting the last character gives the comma-join |
| Text.Repeat | drawer/drawer.go:115-117 | n copies of a character; a count below one gives nothing |
| Text.ByteLen | drawer/drawer.go:109 | the byte length is at least the character count, and equal to it for ASCII text |
| Text.Itoa | neural/neuralNetworkManager.go:111 | the decimal text is digits with an optional leading minus |
| Text.Atoi | neural/neuralNetworkManager.go:156-159 | a parsed value lies in the 64-bit range; a text that does not start with a digit or sign is an error |
| Text.AtoiItoa | neural/neuralNetworkManager.go:110-163 | every 64-bit integer written in decimal reads back as itself |
| Drawer.BoardLines | drawer/drawer.go:170-176 | each board is split into its lines |
| Drawer.MaxLines | drawer/drawer.go:169-176 | the maximum is at least every board's line count and is attained by one board (or 0 for none) |
| Drawer.MergedLines | drawer/drawer.go:177-188 | there is one merged line per line of the longest board |
| Drawer.MergeBoardsHorizontally | drawer/drawer.go:167-190 | with no boards the merged text is empty; otherwise, when the separator holds no newline, splitting the merged text at its newlines gives back exactly the merged lines |
| Drawer.MergedLinesAreLines | drawer/drawer.go:177-188 | no merged line holds a newline when neither the boards' lines nor the separator do |
| Drawer.MergeLines | drawer/drawer.go:167-190 | read back line by line, the merged text has as many lines as the longest board, and line i is line i of every board that has one, each followed by the separator |
| Drawer.MergedLineSkipsShortBoards | drawer/drawer.go:180-182 | a board without line i adds nothing to merged line i |
| Drawer.MergedLineIsOneLine | drawer/drawer.go:177-188 | a merged line holds no newline when the boards' lines and the separator hold none |
| Drawer.NothingPastLongestBoard | drawer/drawer.go:177-188 | past the longest board there is nothing to merge |
| Drawer.WindowWidth | drawer/drawer.go:109-112 | the inside width is the title's byte length plus five, or the content width when that is larger |
| Drawer.FrameLines | drawer/drawer.go:106-135 | the frame is a top border with the title, one padded line per content line, and a bottom border |
| Drawer.WindowAround | drawer/drawer.go:106-135 | the window is the frame's lines, each followed by a newline |
| Drawer.WindowLines | drawer/drawer.go:106-135 | read back line by line, the window is exactly the frame's lines and an empty remainder |
| Drawer.FrameLinesAreLines | drawer/drawer.go:114-132 | no frame line holds a newline when the title holds none |
| Drawer.WindowIsRectangular | drawer/drawer_test.go:28-38 | with an ASCII title and content lines of exactly the content width, every frame line has the same length |

## Left out

- File I/O: `SaveToFile` and `LoadFromFile` are modelled on the text written and read. An unreadable file is the `Nothing` case of the content.
- Float32 arithmetic and `math.Tanh`: numbers are reals. The activation is a parameter `act` of `Run`, and the float32 rounding of sums and products is not modelled.
- Weight text: `fmt.Sprintf("%f")` and `strconv.ParseFloat` are a codec parameter. The round trip is proved for any codec whose output holds no separator (`Readable`), and exactness for a codec that reads back what it writes (`Exact`). Six-digit `%f` is not exact, which is why both are stated.
- The random provider (`neural/randomProvider.go`) is an infinite stream of draws with a cursor. The range of the draws is not constrained.
- Console output: the fitness lines printed by `NextGeneration`, and all terminal drawing apart from the two pure helpers.
- The main loop of `main.go` and `nextCommand`, `play_game.go`, and the root `neural.go` are not part of this model. The same holds for `PrepareTerminal`, `DrawGames`, `DrawGame`, `drawBoard` and `boardElementToString`.
- Score, the `GameOver` flag and `calculateFitness`: the game version modelled has neither field.
- Refill: which shapes a refill draws is random in the game. The three refill pieces are a parameter, required to be non-empty 5x5 grids.
- Neural.Mutated: the documented mutation probabilities are not modelled, because the code returns the network unchanged.
- Manager.Parent: the thresholds are exact comparisons `10k < 5n`, `10k < 8n` and `10k < 9n`. The source compares `float32(k) / float32(n)` with 0.5, 0.8 and 0.9, and the float32 rounding of that quotient is not modelled.
- Control.OutputToGameControl: the thresholds ±0.3333 and the scaling are exact reals, not float32.
- Manager.SortByFitness: Go's `sort.Slice` leaves the order of equal fitnesses unspecified. The model uses a stable insertion sort, one admissible order, and the contracts state only what every admissible order satisfies, plus the permutation.
- Text.Atoi: its contract states only the 64-bit range and the rejection of texts that do not start with a digit or sign. The rest of its behaviour is stated by Text.AtoiItoa, the round trip with Itoa.
- Board.PlaceBlock, Board.CheckAndRemoveFullLanes, Board.IsGameOver and Board.Move are modelled from their tests, because their bodies are not part of this model. The order of the checks inside `Move` is the one the tests require.
- Drawer.WindowIsRectangular: stated only for an ASCII title. The source measures the title in bytes, so each multi-byte character in the title shortens the top border by one character per extra byte.
