# Grid games: board utilities and the three game controllers

This project models the game logic of a small collection of browser board games. It covers:

- the shared board utilities (`game-utils.ts`);
- the state part of the three grid-game controllers: `TicTacToeGame`, `ConnectFourGame` and `FiveInRowGame`.

A board is a sequence of rows of strings, and `""` marks an empty cell. Each controller keeps a few fields:

- `board`;
- `currentPlayer`;
- `gameState`, which is `Waiting`, `Playing` or `Finished`;
- `score`;
- for connect-four and five-in-row, also `moveHistory` (the undo stack) and `moveCount`.

Each game changes those fields with a click, a move, undo and reset.

Files and modules:

- `game_utils.dfy` (`GameUtils`) holds the board utilities:
  - board construction, fullness, dimensions, copying and cell writes;
  - positions and the eight-neighbour list;
  - `checkLine` and `checkWinCondition`, as loops proved equal to the predicates `LineOf` and `HasLine`;
  - the tic-tac-toe and five-in-row winner and draw functions;
  - the swap shuffle, with the random draws passed in;
  - `mm:ss` time formatting, with a parser that reads the text back.
- `move_history.dfy` (`MoveHistory`) holds the move log shared by connect-four and five-in-row:
  - `Replay` rebuilds the board from the log;
  - `WellPlayed` states that every entry was a legal move by the player whose turn it was, numbered in order.
- `tic_tac_toe.dfy`, `connect_four.dfy` and `five_in_row.dfy` each define:
  - a `Game` value holding the controller's fields;
  - the operations as functions of the state before them (`AfterClick`, `AfterMove`, `AfterUndo`, `AfterReset`);
  - an invariant `Inv` and lemmas proving that every operation preserves it;
  - a class with the source's fields, whose methods are proved to produce exactly the state those functions describe.

The invariants state the following:

- The board is the move log replayed.
- The player to move, and the move number, follow from the log's length.
- While a game is played, nobody has a line.
- Once a game is finished, the last mover has won, or the board is full, and the other player has no line.
- In connect-four, no coin floats. So `checkDraw`'s top-row test means the whole board is full.
- Undo is proved to restore the game exactly after any move that leaves the game in play.

The winner functions check X first, so a board on which both players have a line reports X. The model keeps that order (`GetTicTacToeWinner`, `GetFiveInRowWinner`). It also proves that such a board cannot arise in play: a move never gives the other player a line (`WinCreditsMover`, `DropSparesOther`), and the invariants of finished games say the other player has none.

## Model

| member | source | states |
|---|---|---|
| GameUtils.CreateBoard | src/shared/utils/game-utils.ts:10-12 | exactly `rows` rows of `cols` cells, every cell the initial value |
| GameUtils.IsBoardFullMeans | src/shared/utils/game-utils.ts:14-16 | the board is full iff no cell of any row holds the empty value; vacuously true without rows |
| GameUtils.CreatedBoardFull | src/shared/utils/game-utils.ts:10-16 | a created board is full iff it has no cells or its fill value is not the empty value |
| GameUtils.GetBoardDimensions | src/shared/utils/game-utils.ts:18-23 | the row count, and the first row's width (0 for a board without rows) |
| GameUtils.CreatedBoardDimensions | src/shared/utils/game-utils.ts:18-23 | a created board reports its rows and columns, and no columns when it has no rows |
| GameUtils.CopyBoard | src/shared/utils/game-utils.ts:25-27 | the copy equals the board cell for cell |
| GameUtils.SetCell | src/pages/tic-tac-toe/tic-tac-toe.ts:131 | the target cell gets the value, every other cell and every row length is unchanged |
| GameUtils.SetCellUndo | src/pages/five-in-row/five-in-row.ts:396 | writing a cell and then writing back its old value restores the board |
| GameUtils.CountSetCell | src/pages/five-in-row/five-in-row.ts:223 | one write moves exactly one cell from the old value's count to the new value's |
| GameUtils.ValidPositionIsCell | src/shared/utils/game-utils.ts:35-37 | on a board whose rows all have the first row's width, `isValidPosition` for the board's row count and width holds exactly when the position names a cell |
| GameUtils.GetNeighbors | src/shared/utils/game-utils.ts:39-55 | exactly the in-bounds cells adjacent to `pos` (never `pos` itself), each once, at most 8, in the direction table's order |
| GameUtils.CheckLine | src/shared/utils/game-utils.ts:58-77 | true iff every one of the first `length` steps from `start` is on the board and holds the target |
| GameUtils.CheckWinCondition | src/shared/utils/game-utils.ts:79-101 | true iff some start cell and one of the four directions (0,1), (1,0), (1,1), (1,-1) give a line of `winLength` target cells |
| GameUtils.LineSurvivesWrite | src/shared/utils/game-utils.ts:79-101 | writing a non-target value into one cell cannot create a line of the target |
| GameUtils.UniformBoardHasNoLine | src/shared/utils/game-utils.ts:79-101 | a freshly created board has no line of any other value |
| GameUtils.CheckTicTacToeWin | src/shared/utils/game-utils.ts:104-106 | true iff the player has three in a line in one of the four directions |
| GameUtils.GetTicTacToeWinner | src/shared/utils/game-utils.ts:108-112 | X iff X has three in a line; O iff O has and X has not; none iff neither has |
| GameUtils.IsTicTacToeDraw | src/shared/utils/game-utils.ts:114-116 | a draw iff no cell is empty and neither player has three in a line |
| GameUtils.CheckFiveInRowWin | src/shared/utils/game-utils.ts:119-121 | true iff the player has five in a line in one of the four directions |
| GameUtils.GetFiveInRowWinner | src/shared/utils/game-utils.ts:123-127 | X iff X has five in a line; O iff O has and X has not; none iff neither has |
| GameUtils.ShuffleArray | src/shared/utils/game-utils.ts:142-149 | the result is a permutation of the input; when every draw picks its own index nothing moves |
| GameUtils.FormatGameTime | src/shared/utils/game-utils.ts:177-181 | the text shows `seconds / 60` in at least two digits, ':', and `seconds % 60` in exactly two digits; minutes wider than two digits have no leading zero |
| GameUtils.FormatGameTimeRoundTrip | src/shared/utils/game-utils.ts:177-181 | reading the formatted text back gives the number of seconds it was made from |
| MoveHistory.Replay | src/pages/five-in-row/five-in-row.ts:212-223 | replaying a log gives a board of the requested shape |
| MoveHistory.AlternateFlips | src/pages/connect-four/connect-four.ts:387-389 | turns alternate: after the first player's turn comes the second player's, and the other way round |
| MoveHistory.WellPlayedEntries | src/pages/five-in-row/five-in-row.ts:212-223 | each logged move is on the board, by the player whose turn it was, numbered one more than its index |
| MoveHistory.ClearLastEntry | src/pages/five-in-row/five-in-row.ts:393-396 | clearing the last logged cell gives the board of the popped log |
| MoveHistory.ReplayHoldsMoves | src/pages/five-in-row/five-in-row.ts:212-223 | every logged cell still holds the player who played it |
| MoveHistory.ReplayCounts | src/pages/five-in-row/five-in-row.ts:212-245 | occupied cells equal the log's length; the opener holds `(n+1)/2` of them and the other player `n/2` |
| TicTacToe.Credit | src/pages/tic-tac-toe/tic-tac-toe.ts:170-178 | exactly the winner's tally goes up by one; draws are unchanged |
| TicTacToe.AfterMove | src/pages/tic-tac-toe/tic-tac-toe.ts:129-148 | the mover's mark goes into the cell; the game finishes iff it already had, there is a winner, or the board is drawn, and otherwise the other player is to move; a winner is credited, a draw adds one to draws, and otherwise the score stays |
| TicTacToe.AfterClick | src/pages/tic-tac-toe/tic-tac-toe.ts:107-113 | no change unless playing on an empty cell; otherwise the cell gets the mover's mark |
| TicTacToe.AfterReset | src/pages/tic-tac-toe/tic-tac-toe.ts:274-295 | nine empty cells, X to move, playing, score kept |
| TicTacToe.ResetEstablishesInv | src/pages/tic-tac-toe/tic-tac-toe.ts:274-277 | a reset game satisfies the invariant |
| TicTacToe.WinCreditsMover | src/pages/tic-tac-toe/tic-tac-toe.ts:137-147 | during play only the mover can complete a line: the other player has no line after the move, so the credited winner is the mover |
| TicTacToe.ClickPreservesInv | src/pages/tic-tac-toe/tic-tac-toe.ts:129-148 | a click keeps the invariant: X's marks equal O's marks when X is to move, one more when O is; a finished game was won by the last mover or is drawn |
| TicTacToe.OwnedEntryIsLine | src/pages/tic-tac-toe/tic-tac-toe.ts:188-200 | a combination that is all one player's is a line of three for that player |
| TicTacToe.LineIsOwnedEntry | src/pages/tic-tac-toe/tic-tac-toe.ts:188-200 | every line of three on the 3x3 board is one of the eight combinations |
| TicTacToe.TableMatchesLines | src/pages/tic-tac-toe/tic-tac-toe.ts:188-200 | a player has three in a line iff some combination of the table is all theirs |
| TicTacToe.TopRowWinExample | src/shared/utils/game-utils.ts:108-112 | the board with X across the top row and two O's below has winner X |
| TicTacToe.TicTacToeGame.constructor | src/pages/tic-tac-toe/tic-tac-toe.ts:43-52 | the new game is the reset of the stored (or zero) score, and satisfies the invariant |
| TicTacToe.TicTacToeGame.HandleCellClick | src/pages/tic-tac-toe/tic-tac-toe.ts:107-113 | the new state is `AfterClick` of the old one, and the invariant is kept |
| TicTacToe.TicTacToeGame.MakeMove | src/pages/tic-tac-toe/tic-tac-toe.ts:129-148 | the new state is `AfterMove` of the old one |
| TicTacToe.TicTacToeGame.SwitchPlayer | src/pages/tic-tac-toe/tic-tac-toe.ts:166-168 | only the player to move changes, X to O and otherwise to X |
| TicTacToe.TicTacToeGame.HandleWin | src/pages/tic-tac-toe/tic-tac-toe.ts:170-178 | the game finishes and only the winner's tally goes up |
| TicTacToe.TicTacToeGame.HandleDraw | src/pages/tic-tac-toe/tic-tac-toe.ts:180-185 | the game finishes and only the draw tally goes up |
| TicTacToe.TicTacToeGame.HighlightWinningCells | src/pages/tic-tac-toe/tic-tac-toe.ts:187-218 | no cells iff the current player has no line; otherwise the first combination of the table that is all theirs |
| TicTacToe.TicTacToeGame.ResetGame | src/pages/tic-tac-toe/tic-tac-toe.ts:274-295 | the new state is `AfterReset` of the old one, and the invariant holds |
| ConnectFour.Credit | src/pages/connect-four/connect-four.ts:391-399 | exactly the winner's tally goes up by one; draws are unchanged |
| ConnectFour.LowestEmptyRow | src/pages/connect-four/connect-four.ts:195-202 | the largest empty row of the column, or -1 iff the column has no empty cell |
| ConnectFour.DropKeepsGravity | src/pages/connect-four/connect-four.ts:179-193 | a coin dropped into the lowest empty row keeps every coin supported |
| ConnectFour.DroppedGravity | src/pages/connect-four/connect-four.ts:179-193 | a log of dropped coins builds a board without floating coins |
| ConnectFour.FullColumn | src/pages/connect-four/connect-four.ts:377-385 | without floating coins, a column whose top cell is taken is taken all the way down |
| ConnectFour.TopRowFullMeansFull | src/pages/connect-four/connect-four.ts:377-385 | without floating coins, the top row is full iff the whole board is |
| ConnectFour.ScanRun | src/pages/connect-four/connect-four.ts:349-356 | the run counted holds the player cell by cell, and the cell after it is off the board or not the player's |
| ConnectFour.RunsMakeLine | src/pages/connect-four/connect-four.ts:346-370 | a coin with runs on both sides adding up to four or more lies on a line of four |
| ConnectFour.CheckDirections | src/pages/connect-four/connect-four.ts:344-370 | for a cell holding the player: true only when the player has four in a line, false only when no line of four starts at that cell in any of the four directions |
| ConnectFour.CheckConnectFourWin | src/pages/connect-four/connect-four.ts:333-375 | true iff the player has four in a line horizontally, vertically or on either diagonal |
| ConnectFour.AfterMove | src/pages/connect-four/connect-four.ts:236-275 | the move is logged with the current player and move number and its cell is set; the game finishes iff the mover has four in a line or the top row is full; otherwise the other player is to move and the move number goes up; a line credits the mover, a full top row without one adds one to draws, and otherwise the score stays |
| ConnectFour.AfterClick | src/pages/connect-four/connect-four.ts:179-193 | no change unless playing and the column has room; otherwise the coin lands in an empty cell on the bottom row or on a coin |
| ConnectFour.AfterUndo | src/pages/connect-four/connect-four.ts:501-536 | refused with no moves or a finished game; otherwise pops the log, clears exactly that cell, restores the popped player and move number |
| ConnectFour.AfterReset | src/pages/connect-four/connect-four.ts:538-567 | 42 empty cells, red to move, empty log, move 1, playing, score kept |
| ConnectFour.ResetEstablishesInv | src/pages/connect-four/connect-four.ts:538-543 | a reset game satisfies the invariant |
| ConnectFour.ClickLogsDrop | src/pages/connect-four/connect-four.ts:236-247 | the coin a click drops extends the log by a legal drop, and the board remains the log replayed |
| ConnectFour.DropSparesOther | src/pages/connect-four/connect-four.ts:236-247 | the coin the mover drops never gives the other player four in a line |
| ConnectFour.ClickPreservesInv | src/pages/connect-four/connect-four.ts:236-275 | a click keeps the invariant: log and board agree, whose turn and the move number follow the log, a finished game was won by the last mover or has a full top row |
| ConnectFour.UndoPreservesInv | src/pages/connect-four/connect-four.ts:501-527 | undo keeps the invariant |
| ConnectFour.UndoInvertsMove | src/pages/connect-four/connect-four.ts:501-527 | undo after a move that left the game in play restores the game exactly; after a move that ended it, undo changes nothing |
| ConnectFour.OccupiedCells | src/pages/connect-four/connect-four.ts:236-275 | coins on the board equal the log's length; red holds `(n+1)/2` and yellow `n/2`; each logged coin is on its cell |
| ConnectFour.NoFloatingCoins | src/pages/connect-four/connect-four.ts:377-385 | no coin floats; the top row is full iff the board is; a finished game without a line for the mover has a full board |
| ConnectFour.ConnectFourGame.constructor | src/pages/connect-four/connect-four.ts:63-79 | the new game is the reset of the stored (or zero) score, and satisfies the invariant |
| ConnectFour.ConnectFourGame.HandleColumnClick | src/pages/connect-four/connect-four.ts:179-193 | the new state is `AfterClick` of the old one, and the invariant is kept |
| ConnectFour.ConnectFourGame.FindLowestRow | src/pages/connect-four/connect-four.ts:195-202 | the largest empty row of the column, -1 iff the column is full |
| ConnectFour.ConnectFourGame.MakeMove | src/pages/connect-four/connect-four.ts:236-275 | the new state is `AfterMove` of the old one |
| ConnectFour.ConnectFourGame.CheckDraw | src/pages/connect-four/connect-four.ts:377-385 | true iff no cell of the top row is empty |
| ConnectFour.ConnectFourGame.SwitchPlayer | src/pages/connect-four/connect-four.ts:387-389 | only the player to move changes, red to yellow and otherwise to red |
| ConnectFour.ConnectFourGame.HandleWin | src/pages/connect-four/connect-four.ts:391-399 | the game finishes and only the winner's tally goes up |
| ConnectFour.ConnectFourGame.HandleDraw | src/pages/connect-four/connect-four.ts:401-406 | the game finishes and only the draw tally goes up |
| ConnectFour.ConnectFourGame.UndoLastMove | src/pages/connect-four/connect-four.ts:501-536 | the new state is `AfterUndo` of the old one, and the invariant is kept |
| ConnectFour.ConnectFourGame.ResetGame | src/pages/connect-four/connect-four.ts:538-567 | the new state is `AfterReset` of the old one, and the invariant holds |
| FiveInRow.Credit | src/pages/five-in-row/five-in-row.ts:283-291 | exactly the winner's tally goes up by one; draws are unchanged |
| FiveInRow.GetCoordinateLabel | src/pages/five-in-row/five-in-row.ts:161-165 | the first character is `'A' + col`, the rest is the decimal digits of `row + 1`, without a leading zero |
| FiveInRow.CoordinateLabelRoundTrip | src/pages/five-in-row/five-in-row.ts:161-165 | a label reads back as the cell it names |
| FiveInRow.CoordinateLabelCorners | src/pages/five-in-row/five-in-row.ts:161-165 | the top-left cell is "A1" and the bottom-right cell is "O15" |
| FiveInRow.CoordinateLabelsDistinct | src/pages/five-in-row/five-in-row.ts:161-165 | no two cells share a label |
| FiveInRow.AfterMove | src/pages/five-in-row/five-in-row.ts:212-245 | the move is logged with the current player and move number and its cell is set; the game finishes iff there is a winner or the board is full; otherwise the other player is to move and the move number goes up; a winner is credited, a full board without one adds one to draws, and otherwise the score stays |
| FiveInRow.AfterClick | src/pages/five-in-row/five-in-row.ts:177-183 | no change unless playing on an empty cell; otherwise the cell gets the mover's stone and the log grows by one |
| FiveInRow.AfterUndo | src/pages/five-in-row/five-in-row.ts:388-421 | refused with no moves or a finished game; otherwise pops the log, clears exactly that cell, restores the popped player and move number |
| FiveInRow.AfterReset | src/pages/five-in-row/five-in-row.ts:423-443 | 225 empty cells, X to move, empty log, move 1, playing, score kept |
| FiveInRow.ResetEstablishesInv | src/pages/five-in-row/five-in-row.ts:423-428 | a reset game satisfies the invariant |
| FiveInRow.WinCreditsMover | src/pages/five-in-row/five-in-row.ts:229-241 | during play only the mover can complete a line: the other player has no five after the move, so the winner credited is the mover |
| FiveInRow.ClickLogsMove | src/pages/five-in-row/five-in-row.ts:212-223 | the stone a click places extends the log by a legal move, and the board remains the log replayed |
| FiveInRow.ClickPreservesInv | src/pages/five-in-row/five-in-row.ts:212-245 | a click keeps the invariant: while playing the move number is the log's length plus one, and a finished game was won by the last mover or has a full board |
| FiveInRow.UndoPreservesInv | src/pages/five-in-row/five-in-row.ts:388-409 | undo keeps the invariant |
| FiveInRow.UndoInvertsMove | src/pages/five-in-row/five-in-row.ts:388-409 | undo after a move that left the game in play restores the game exactly; after a move that ended it, undo changes nothing |
| FiveInRow.OccupiedCells | src/pages/five-in-row/five-in-row.ts:212-245 | stones on the board equal the log's length; X holds `(n+1)/2` and O `n/2`; each logged stone is on its cell |
| FiveInRow.CollectRun | src/pages/five-in-row/five-in-row.ts:315-327 | the collected cells are the first cells of the line from the start, all on the board and the player's, at most five; fewer than five only when the next cell is not the player's |
| FiveInRow.FiveInRowGame.constructor | src/pages/five-in-row/five-in-row.ts:68-84 | the new game is the reset of the stored (or zero) score, and satisfies the invariant |
| FiveInRow.FiveInRowGame.HandleCellClick | src/pages/five-in-row/five-in-row.ts:177-183 | the new state is `AfterClick` of the old one, and the invariant is kept |
| FiveInRow.FiveInRowGame.MakeMove | src/pages/five-in-row/five-in-row.ts:212-245 | the new state is `AfterMove` of the old one |
| FiveInRow.FiveInRowGame.SwitchPlayer | src/pages/five-in-row/five-in-row.ts:279-281 | only the player to move changes, X to O and otherwise to X |
| FiveInRow.FiveInRowGame.HandleWin | src/pages/five-in-row/five-in-row.ts:283-291 | the game finishes and only the winner's tally goes up |
| FiveInRow.FiveInRowGame.HandleDraw | src/pages/five-in-row/five-in-row.ts:293-298 | the game finishes and only the draw tally goes up |
| FiveInRow.FiveInRowGame.HighlightWinningCells | src/pages/five-in-row/five-in-row.ts:300-344 | no cells iff the current player has no five in a line; otherwise the five cells of the first line in the scan order (start cells row by row, then the four directions in order), all on the board and the current player's |
| FiveInRow.FiveInRowGame.UndoLastMove | src/pages/five-in-row/five-in-row.ts:388-421 | the new state is `AfterUndo` of the old one, and the invariant is kept |
| FiveInRow.FiveInRowGame.ResetGame | src/pages/five-in-row/five-in-row.ts:423-443 | the new state is `AfterReset` of the old one, and the invariant holds |

## Left out

- The DOM and all rendering are not modelled. This covers:
  - `initializeDOM`, `createBoardElements`, `createDropZone`, `updateUI` and `updateCellUI`;
  - `updateLastMoveHighlight`, `updateColumnAvailability` and `showColumnFullMessage`;
  - the CSS classes set by the highlight methods.

  They only draw the state that the model keeps.
- The keyboard handlers are left out: the model takes the column or cell index directly. `handleGlobalKeydown` and `handleCellKeydown` only map keys to clicks, undo and reset.
- localStorage is left out, because it is foreign I/O plus `JSON.parse`.
  - `loadScore` becomes the constructor's `savedScore` parameter: a stored score, when there is one, replaces the zero score.
  - `saveScore`, `loadOptions` and `saveOptions` are not modelled.
- The options objects and their toggles (`toggleColumnNumbers`, `toggleAnimations`, `toggleCoordinates`, `toggleLastMoveHighlight`) are left out. They change only the display.
- In connect-four, the drop animation of `makeMove` is left out (the `await`/`setTimeout` at src/pages/connect-four/connect-four.ts:250-254). A move is atomic in the model. Nothing that arrives during the animation is modelled: a second click, an undo or a reset. In the source these can run between the logging of the move and the win and draw checks.
- Connect-four's `highlightWinningCoins` is left out. It only marks cells on the page, and which line the game decides is already fixed by `CheckConnectFourWin`.
- The celebration effects, `debounce`, `throttle`, the language-card page and the home page are left out. They involve timers, randomness, layout and analytics.
- The `Waiting` state is not kept. The constructor runs `initializeGame`, which sets `Playing` before any click can arrive, so the invariants exclude `Waiting`.
- ShuffleArray: `Math.random` is replaced by the `picks` parameter, which holds the index each step draws.
- FormatGameTime: only whole, non-negative numbers of seconds are modelled. Negative or fractional inputs, and `Math.floor` on them, are not.
- GetCoordinateLabel: requires `65 + col < 0xD800`, because Dafny characters exclude surrogate code points. Every cell of the 15x15 board is far inside that range.
- The boards are sequence values, so a cell write builds a new board. Aliasing between rows, or between a board and its copy, is not captured. The source never shares rows between boards.
- Scores and move numbers are unbounded integers. JavaScript numbers lose precision only beyond 2^53, which no game reaches.
- GameUtils.CheckLine: requires a board with at least one row whenever the line is not empty. On a board without rows, the source's read of `board[0].length` throws a TypeError, and the model does not represent that error.
- ConnectFour.ScanRun: proved only for steps of -1, 0 or 1 in each direction, which are the only steps the direction table contains.
- ConnectFour.CheckConnectFourWin: requires a 6x7 board, because the source's loops hard-code 6 rows and 7 columns.
- TicTacToe.TicTacToeGame.HighlightWinningCells: requires a 3x3 board, because the table's fixed cells assume one.
