/**
 * The state part of ConnectFourGame: a 6x7 board of "", "red" and "yellow"
 * coins, the player to move, the page phase, the score, the move log used by
 * undo and the number of the move being played. A click on a column drops the
 * mover's coin into the lowest empty cell of that column; four in a line wins,
 * a full top row draws.
 */
module ConnectFour {
  import opened GameUtils
  import opened MoveHistory

  const Rows: nat := 6
  const Cols: nat := 7
  const Red: string := "red"
  const Yellow: string := "yellow"

  datatype Score = Score(red: nat, yellow: nat, draws: nat)

  /** The fields of ConnectFourGame that the game logic reads and writes. */
  datatype Game = Game(board: Board, currentPlayer: string, gameState: GameState, score: Score,
                       moveHistory: seq<Move>, moveCount: int)

  predicate IsBoard(board: Board)
  {
    |board| == Rows && forall r :: 0 <= r < Rows ==> |board[r]| == Cols
  }

  predicate IsPlayer(player: string)
  {
    player == Red || player == Yellow
  }

  /** switchPlayer: 'red' becomes 'yellow', anything else becomes 'red'. */
  function Other(player: string): string
  {
    if player == Red then Yellow else Red
  }

  /** `score[winner]++` for a winner 'red' or 'yellow'. */
  function Credit(score: Score, winner: string): (credited: Score)
    requires IsPlayer(winner)
    ensures credited.draws == score.draws
    ensures winner == Red ==> credited == score.(red := score.red + 1)
    ensures winner == Yellow ==> credited == score.(yellow := score.yellow + 1)
  {
    if winner == Red then score.(red := score.red + 1) else score.(yellow := score.yellow + 1)
  }

  // ---------------------------------------------------------------------------
  // Gravity
  // ---------------------------------------------------------------------------

  /** The bottom-most empty cell of column `col` at or above `row`, or -1 when there is none. */
  function LowestEmptyFrom(board: Board, col: int, row: int): (r: int)
    requires IsBoard(board) && 0 <= col < Cols && -1 <= row < Rows
    ensures -1 <= r <= row
    ensures r >= 0 ==> board[r][col] == Empty
    ensures forall k :: r < k <= row ==> board[k][col] != Empty
    decreases row + 1
  {
    if row < 0 then -1
    else if board[row][col] == Empty then row
    else LowestEmptyFrom(board, col, row - 1)
  }

  /**
   * The row a coin dropped into `col` comes to rest in: the largest empty row
   * of the column, or -1 when the column is full.
   */
  function LowestEmptyRow(board: Board, col: int): (r: int)
    requires IsBoard(board) && 0 <= col < Cols
    ensures -1 <= r < Rows
    ensures r >= 0 ==> board[r][col] == Empty
    ensures forall k :: r < k < Rows ==> board[k][col] != Empty
    ensures r == -1 <==> forall k :: 0 <= k < Rows ==> board[k][col] != Empty
  {
    LowestEmptyFrom(board, col, Rows - 1)
  }

  /** A coin at `(r, c)` lies on the bottom row or on another coin. */
  predicate Supported(board: Board, r: int, c: int)
    requires IsBoard(board) && 0 <= r < Rows && 0 <= c < Cols
  {
    board[r][c] != Empty ==> r == Rows - 1 || board[r + 1][c] != Empty
  }

  /** No floating coins. */
  predicate Gravity(board: Board)
  {
    IsBoard(board) && forall r, c :: 0 <= r < Rows && 0 <= c < Cols ==> Supported(board, r, c)
  }

  /** Dropping a coin into a column that is not full keeps every coin supported. */
  lemma DropKeepsGravity(board: Board, col: int, player: string)
    requires Gravity(board) && 0 <= col < Cols && player != Empty
    requires LowestEmptyRow(board, col) >= 0
    ensures Gravity(SetCell(board, LowestEmptyRow(board, col), col, player))
  {
    var row := LowestEmptyRow(board, col);
    var b := SetCell(board, row, col, player);
    forall r, c | 0 <= r < Rows && 0 <= c < Cols
      ensures Supported(b, r, c)
    {
      if r == row && c == col {
        if r < Rows - 1 {
          assert board[r + 1][c] != Empty;
        }
      } else if r + 1 == row && c == col {
        assert Supported(board, r, c);
      } else {
        assert Supported(board, r, c);
      }
    }
  }

  /** The top row has no empty cell: checkDraw's test. */
  predicate TopRowFull(board: Board)
    requires IsBoard(board)
  {
    forall c :: 0 <= c < Cols ==> board[0][c] != Empty
  }

  /** Under gravity, a column whose top cell is taken is taken all the way down. */
  lemma {:induction false} FullColumn(board: Board, c: int, r: int)
    requires Gravity(board) && 0 <= c < Cols && 0 <= r < Rows
    requires board[0][c] != Empty
    ensures board[r][c] != Empty
  {
    if r > 0 {
      FullColumn(board, c, r - 1);
      assert Supported(board, r - 1, c);
    }
  }

  /** Under gravity, the top-row test of checkDraw holds exactly when the whole board is full. */
  lemma TopRowFullMeansFull(board: Board)
    requires Gravity(board)
    ensures TopRowFull(board) <==> IsBoardFull(board, Empty)
  {
    IsBoardFullMeans(board, Empty);
    if TopRowFull(board) {
      forall r, c | 0 <= r < |board| && 0 <= c < |board[r]|
        ensures board[r][c] != Empty
      {
        FullColumn(board, c, r);
      }
    }
  }

  // ---------------------------------------------------------------------------
  // Four in a line
  // ---------------------------------------------------------------------------

  /** The `i`-th cell from `(row, col)` along `(dr, dc)` is on the board and holds `player`. */
  predicate RunCell(board: Board, player: string, row: int, col: int, dr: int, dc: int, i: int)
  {
    var x, y := row + i * dr, col + i * dc;
    0 <= x < |board| && 0 <= y < |board[x]| && board[x][y] == player
  }

  /**
   * One while loop of checkConnectFourWin: the number of cells that hold
   * `player` in an unbroken run from the step after `(row, col)` along
   * `(dr, dc)`, stopping at the board's edge or at another value.
   */
  method ScanRun(board: Board, row: int, col: int, dr: int, dc: int, player: string) returns (n: nat)
    requires IsBoard(board)
    requires -1 <= dr <= 1 && -1 <= dc <= 1 && (dr != 0 || dc != 0)
    ensures forall i :: 1 <= i <= n ==> RunCell(board, player, row, col, dr, dc, i)
    ensures !RunCell(board, player, row, col, dr, dc, n + 1)
  {
    n := 0;
    var newRow, newCol := row + dr, col + dc;
    while 0 <= newRow < Rows && 0 <= newCol < Cols && board[newRow][newCol] == player
      invariant newRow == row + (n + 1) * dr && newCol == col + (n + 1) * dc
      invariant forall i :: 1 <= i <= n ==> RunCell(board, player, row, col, dr, dc, i)
      decreases if dr > 0 then Rows - newRow else if dr < 0 then newRow + 1
                else if dc > 0 then Cols - newCol else newCol + 1
    {
      assert RunCell(board, player, row, col, dr, dc, n + 1);
      n := n + 1;
      newRow, newCol := newRow + dr, newCol + dc;
      assert (n + 1) * dr == n * dr + dr && (n + 1) * dc == n * dc + dc;
    }
  }

  /** A start cell that does not hold `player` starts no line of `player`. */
  lemma UnownedStartHasNoLine(board: Board, player: string, row: int, col: int)
    requires IsBoard(board) && 0 <= row < Rows && 0 <= col < Cols && board[row][col] != player
    ensures NoLineFrom(board, player, 4, row, col)
  {
    forall j | 0 <= j < 4
      ensures !LineOf(board, Position(row, col), Directions[j], 4, player)
    {
      var d := Directions[j];
      assert !CellHolds(board, row + 0 * d.row, col + 0 * d.col, player);
    }
  }

  /** A run forward of fewer than three cells means no line of four starts at `(row, col)` in that direction. */
  lemma ShortRunNoLine(board: Board, player: string, row: int, col: int, j: int, forward: nat)
    requires 0 <= j < 4 && forward < 3
    requires !RunCell(board, player, row, col, Directions[j].row, Directions[j].col, forward + 1)
    ensures !LineOf(board, Position(row, col), Directions[j], 4, player)
  {
  }

  /** Four cells a step apart along direction `j`, all holding `player`, are a line of four. */
  lemma FourInLine(board: Board, player: string, j: int, dr: int, dc: int,
                   r0: int, c0: int, r1: int, c1: int, r2: int, c2: int, r3: int, c3: int)
    requires 0 <= j < 4 && dr == Directions[j].row && dc == Directions[j].col
    requires r1 == r0 + dr && c1 == c0 + dc
    requires r2 == r1 + dr && c2 == c1 + dc
    requires r3 == r2 + dr && c3 == c2 + dc
    requires CellHolds(board, r0, c0, player) && CellHolds(board, r1, c1, player)
    requires CellHolds(board, r2, c2, player) && CellHolds(board, r3, c3, player)
    ensures HasLine(board, player, 4)
  {
    forall i | 0 <= i < 4
      ensures CellHolds(board, r0 + i * dr, c0 + i * dc, player)
    {
      if i == 0 {
        assert r0 + i * dr == r0 && c0 + i * dc == c0;
      } else if i == 1 {
        assert r0 + i * dr == r1 && c0 + i * dc == c1;
      } else if i == 2 {
        assert r0 + i * dr == r2 && c0 + i * dc == c2;
      } else {
        assert r0 + i * dr == r3 && c0 + i * dc == c3;
      }
    }
    assert LineOf(board, Position(r0, c0), Directions[j], 4, player);
  }

  /**
   * `(row, col)` holds `player`, and so do the `forward` cells after it along
   * `(dr, dc)` and the `backward` cells before it (along `(br, bc)`).
   */
  predicate Runs(board: Board, player: string, row: int, col: int, dr: int, dc: int, br: int, bc: int,
                 forward: nat, backward: nat)
  {
    && CellHolds(board, row, col, player)
    && (forall i :: 1 <= i <= forward ==> RunCell(board, player, row, col, dr, dc, i))
    && (forall i :: 1 <= i <= backward ==> RunCell(board, player, row, col, br, bc, i))
  }

  /** Three cells of `player` after `(row, col)`: the line starts at `(row, col)`. */
  lemma LineAhead(board: Board, player: string, row: int, col: int, j: int, dr: int, dc: int,
                  br: int, bc: int, forward: nat, backward: nat)
    requires 0 <= j < 4 && dr == Directions[j].row && dc == Directions[j].col
    requires IsBoard(board) && Runs(board, player, row, col, dr, dc, br, bc, forward, backward) && forward >= 3
    ensures HasLine(board, player, 4)
  {
    assert RunCell(board, player, row, col, dr, dc, 1);
    assert RunCell(board, player, row, col, dr, dc, 2);
    assert RunCell(board, player, row, col, dr, dc, 3);
    FourInLine(board, player, j, dr, dc, row, col, row + 1 * dr, col + 1 * dc,
               row + 2 * dr, col + 2 * dc, row + 3 * dr, col + 3 * dc);
  }

  /** Two cells of `player` after `(row, col)` and one before: the line starts one cell back. */
  lemma LineOneBehind(board: Board, player: string, row: int, col: int, j: int, dr: int, dc: int,
                      br: int, bc: int, forward: nat, backward: nat)
    requires 0 <= j < 4 && dr == Directions[j].row && dc == Directions[j].col && br == -dr && bc == -dc
    requires IsBoard(board) && Runs(board, player, row, col, dr, dc, br, bc, forward, backward) && forward >= 2 && backward >= 1
    ensures HasLine(board, player, 4)
  {
    assert RunCell(board, player, row, col, br, bc, 1);
    assert RunCell(board, player, row, col, dr, dc, 1);
    assert RunCell(board, player, row, col, dr, dc, 2);
    FourInLine(board, player, j, dr, dc, row + 1 * br, col + 1 * bc, row, col,
               row + 1 * dr, col + 1 * dc, row + 2 * dr, col + 2 * dc);
  }

  /** One cell of `player` after `(row, col)` and two before: the line starts two cells back. */
  lemma LineTwoBehind(board: Board, player: string, row: int, col: int, j: int, dr: int, dc: int,
                      br: int, bc: int, forward: nat, backward: nat)
    requires 0 <= j < 4 && dr == Directions[j].row && dc == Directions[j].col && br == -dr && bc == -dc
    requires IsBoard(board) && Runs(board, player, row, col, dr, dc, br, bc, forward, backward) && forward >= 1 && backward >= 2
    ensures HasLine(board, player, 4)
  {
    assert RunCell(board, player, row, col, br, bc, 2);
    assert RunCell(board, player, row, col, br, bc, 1);
    assert RunCell(board, player, row, col, dr, dc, 1);
    FourInLine(board, player, j, dr, dc, row + 2 * br, col + 2 * bc, row + 1 * br, col + 1 * bc,
               row, col, row + 1 * dr, col + 1 * dc);
  }

  /** Three cells of `player` before `(row, col)`: the line starts three cells back. */
  lemma LineThreeBehind(board: Board, player: string, row: int, col: int, j: int, dr: int, dc: int,
                        br: int, bc: int, forward: nat, backward: nat)
    requires 0 <= j < 4 && dr == Directions[j].row && dc == Directions[j].col && br == -dr && bc == -dc
    requires IsBoard(board) && Runs(board, player, row, col, dr, dc, br, bc, forward, backward) && backward >= 3
    ensures HasLine(board, player, 4)
  {
    assert RunCell(board, player, row, col, br, bc, 3);
    assert RunCell(board, player, row, col, br, bc, 2);
    assert RunCell(board, player, row, col, br, bc, 1);
    FourInLine(board, player, j, dr, dc, row + 3 * br, col + 3 * bc, row + 2 * br, col + 2 * bc,
               row + 1 * br, col + 1 * bc, row, col);
  }

  /**
   * A cell of `player` with `forward` cells of `player` after it and
   * `backward` before it, at least four in all, lies on a line of four.
   */
  lemma RunsMakeLine(board: Board, player: string, row: int, col: int, j: int, dr: int, dc: int,
                     br: int, bc: int, forward: nat, backward: nat)
    requires 0 <= j < 4 && dr == Directions[j].row && dc == Directions[j].col && br == -dr && bc == -dc
    requires IsBoard(board) && Runs(board, player, row, col, dr, dc, br, bc, forward, backward)
    requires 1 + forward + backward >= 4
    ensures HasLine(board, player, 4)
  {
    if forward >= 3 {
      LineAhead(board, player, row, col, j, dr, dc, br, bc, forward, backward);
    } else if forward == 2 {
      LineOneBehind(board, player, row, col, j, dr, dc, br, bc, forward, backward);
    } else if forward == 1 {
      LineTwoBehind(board, player, row, col, j, dr, dc, br, bc, forward, backward);
    } else {
      LineThreeBehind(board, player, row, col, j, dr, dc, br, bc, forward, backward);
    }
  }

  /**
   * The loop over the four directions for one cell holding `player`: a line
   * of four through the cell is found exactly when one starts there.
   */
  method CheckDirections(board: Board, player: string, row: int, col: int) returns (found: bool)
    requires IsBoard(board) && 0 <= row < Rows && 0 <= col < Cols && board[row][col] == player
    ensures found ==> HasLine(board, player, 4)
    ensures !found ==> NoLineFrom(board, player, 4, row, col)
  {
    for j := 0 to 4
      invariant forall j' :: 0 <= j' < j ==> !LineOf(board, Position(row, col), Directions[j'], 4, player)
    {
      var direction := Directions[j];
      var forward := ScanRun(board, row, col, direction.row, direction.col, player);
      var backward := ScanRun(board, row, col, -direction.row, -direction.col, player);
      if 1 + forward + backward >= 4 {
        assert CellHolds(board, row, col, player);
        RunsMakeLine(board, player, row, col, j, direction.row, direction.col,
                     -direction.row, -direction.col, forward, backward);
        return true;
      }
      ShortRunNoLine(board, player, row, col, j, forward);
    }
    return false;
  }

  /**
   * checkConnectFourWin: for every cell holding `player` and each of the four
   * directions, count the cell and the runs of `player` on both sides of it;
   * a count of four or more is a win.
   */
  method CheckConnectFourWin(board: Board, player: string) returns (won: bool)
    requires IsBoard(board)
    ensures won <==> HasLine(board, player, 4)
  {
    for row := 0 to Rows
      invariant forall r, c :: 0 <= r < row && 0 <= c < Cols ==> NoLineFrom(board, player, 4, r, c)
    {
      for col := 0 to Cols
        invariant forall r, c :: (0 <= r < row && 0 <= c < Cols) || (r == row && 0 <= c < col) ==>
                    NoLineFrom(board, player, 4, r, c)
      {
        if board[row][col] != player {
          UnownedStartHasNoLine(board, player, row, col);
        } else {
          var found := CheckDirections(board, player, row, col);
          if found {
            return true;
          }
        }
      }
    }
    forall r, c, j | 0 <= r < |board| && 0 <= c < GetBoardDimensions(board).cols && 0 <= j < 4
      ensures !LineOf(board, Position(r, c), Directions[j], 4, player)
    {
      assert NoLineFrom(board, player, 4, r, c);
    }
    return false;
  }

  // ---------------------------------------------------------------------------
  // Moves dropped under gravity
  // ---------------------------------------------------------------------------

  /** Every entry of the log came to rest in the lowest empty row of its column at the time it was played. */
  ghost predicate Dropped(history: seq<Move>)
    decreases |history|
  {
    |history| == 0 ||
    (var before := history[..|history| - 1];
     var m := history[|history| - 1];
     && Dropped(before)
     && 0 <= m.col < Cols
     && m.row == LowestEmptyRow(Replay(before, Rows, Cols), m.col))
  }

  /** A log of dropped coins builds a board without floating coins. */
  lemma {:induction false} DroppedGravity(history: seq<Move>)
    requires WellPlayed(history, Rows, Cols, Red, Yellow) && Dropped(history)
    ensures Gravity(Replay(history, Rows, Cols))
  {
    if |history| > 0 {
      var before := history[..|history| - 1];
      var m := history[|history| - 1];
      DroppedGravity(before);
      DropKeepsGravity(Replay(before, Rows, Cols), m.col, m.player);
    }
  }

  // ---------------------------------------------------------------------------
  // The operations on the state, as functions of the state before them
  // ---------------------------------------------------------------------------

  /**
   * makeMove: log the move with the current move number, place the coin, then
   * a line of four wins, else a full top row draws, else the other player is
   * to move and the move number goes up.
   */
  function AfterMove(g: Game, row: int, col: int): (next: Game)
    requires IsBoard(g.board) && IsPlayer(g.currentPlayer)
    ensures next.board == SetCell(g.board, row, col, g.currentPlayer)
    ensures next.moveHistory == g.moveHistory + [Move(row, col, g.currentPlayer, g.moveCount)]
    ensures next.gameState == Finished <==>
              g.gameState == Finished || HasLine(next.board, g.currentPlayer, 4) || TopRowFull(next.board)
    ensures next.gameState != Finished ==>
              next.gameState == g.gameState && next.currentPlayer == Other(g.currentPlayer) &&
              next.moveCount == g.moveCount + 1
    ensures HasLine(next.board, g.currentPlayer, 4) ==> next.score == Credit(g.score, g.currentPlayer)
    ensures !HasLine(next.board, g.currentPlayer, 4) && TopRowFull(next.board) ==>
              next.score == g.score.(draws := g.score.draws + 1)
    ensures !HasLine(next.board, g.currentPlayer, 4) && !TopRowFull(next.board) ==> next.score == g.score
  {
    var board := SetCell(g.board, row, col, g.currentPlayer);
    var history := g.moveHistory + [Move(row, col, g.currentPlayer, g.moveCount)];
    if HasLine(board, g.currentPlayer, 4) then
      g.(board := board, moveHistory := history, gameState := Finished, score := Credit(g.score, g.currentPlayer))
    else if TopRowFull(board) then
      g.(board := board, moveHistory := history, gameState := Finished, score := g.score.(draws := g.score.draws + 1))
    else
      g.(board := board, moveHistory := history, currentPlayer := Other(g.currentPlayer), moveCount := g.moveCount + 1)
  }

  /**
   * handleColumnClick: ignored unless the game is being played and the column
   * has room; otherwise the coin lands on the bottom row or on the coin below.
   */
  function AfterClick(g: Game, col: int): (next: Game)
    requires IsBoard(g.board) && IsPlayer(g.currentPlayer) && 0 <= col < Cols
    ensures g.gameState != Playing || LowestEmptyRow(g.board, col) == -1 ==> next == g
    ensures g.gameState == Playing && LowestEmptyRow(g.board, col) >= 0 ==>
              var row := LowestEmptyRow(g.board, col);
              && g.board[row][col] == Empty
              && (row == Rows - 1 || g.board[row + 1][col] != Empty)
              && next.board == SetCell(g.board, row, col, g.currentPlayer)
              && |next.moveHistory| == |g.moveHistory| + 1
  {
    if g.gameState != Playing then g
    else
      var row := LowestEmptyRow(g.board, col);
      if row == -1 then g else AfterMove(g, row, col)
  }

  /** undoLastMove: refused when nothing was played or the game is over; otherwise the last coin is taken back. */
  function AfterUndo(g: Game): (next: Game)
    ensures |g.moveHistory| == 0 || g.gameState == Finished ==> next == g
    ensures |g.moveHistory| > 0 && g.gameState != Finished ==>
              var last := g.moveHistory[|g.moveHistory| - 1];
              && next.moveHistory == g.moveHistory[..|g.moveHistory| - 1]
              && next.board == SetCell(g.board, last.row, last.col, Empty)
              && next.currentPlayer == last.player && next.moveCount == last.moveNumber
              && next.gameState == g.gameState && next.score == g.score
  {
    if |g.moveHistory| == 0 || g.gameState == Finished then g
    else
      var last := g.moveHistory[|g.moveHistory| - 1];
      g.(board := SetCell(g.board, last.row, last.col, Empty), moveHistory := g.moveHistory[..|g.moveHistory| - 1],
         currentPlayer := last.player, moveCount := last.moveNumber)
  }

  /** resetGame: empty board, red to move, empty log, move 1, playing; the score is kept. */
  function AfterReset(g: Game): (next: Game)
    ensures next.score == g.score
    ensures next.gameState == Playing && next.currentPlayer == Red && next.moveHistory == [] && next.moveCount == 1
    ensures IsBoard(next.board) && Count(next.board, Empty) == Rows * Cols
  {
    CountCreated(Rows, Cols, Empty, Empty);
    Game(CreateBoard(Rows, Cols, Empty), Red, Playing, g.score, [], 1)
  }

  // ---------------------------------------------------------------------------
  // The invariant and what the operations do to it
  // ---------------------------------------------------------------------------

  /**
   * The board is the log replayed, every logged coin was dropped by the
   * player whose turn it was. While playing, the move number is one more than
   * the log's length, the player to move is the one whose turn it is, nobody
   * has four in a line and the top row has room. Once finished, the last
   * mover is still `currentPlayer`, the move number is that move's, and that
   * player has four in a line or the top row is full, while the opponent has
   * no line.
   */
  ghost predicate Inv(g: Game)
  {
    var h := g.moveHistory;
    && WellPlayed(h, Rows, Cols, Red, Yellow)
    && Dropped(h)
    && g.board == Replay(h, Rows, Cols)
    && IsPlayer(g.currentPlayer)
    && match g.gameState
       case Waiting => false
       case Playing =>
         && g.moveCount == |h| + 1
         && g.currentPlayer == Alternate(|h|, Red, Yellow)
         && !HasLine(g.board, Red, 4) && !HasLine(g.board, Yellow, 4)
         && !TopRowFull(g.board)
       case Finished =>
         && |h| > 0
         && g.moveCount == |h|
         && g.currentPlayer == h[|h| - 1].player
         && (HasLine(g.board, g.currentPlayer, 4) || TopRowFull(g.board))
         && !HasLine(g.board, Other(g.currentPlayer), 4)
  }

  lemma ResetEstablishesInv(g: Game)
    ensures Inv(AfterReset(g))
  {
    var b := CreateBoard(Rows, Cols, Empty);
    UniformBoardHasNoLine(Rows, Cols, Empty, Red, 4);
    UniformBoardHasNoLine(Rows, Cols, Empty, Yellow, 4);
    assert b[0][0] == Empty;
  }

  /** The coin a click drops extends the log by a legal drop, and the board stays the log replayed. */
  lemma ClickLogsDrop(g: Game, col: int)
    requires Inv(g) && 0 <= col < Cols
    requires g.gameState == Playing && LowestEmptyRow(g.board, col) >= 0
    ensures var h := AfterClick(g, col).moveHistory;
            && WellPlayed(h, Rows, Cols, Red, Yellow) && Dropped(h)
            && AfterClick(g, col).board == Replay(h, Rows, Cols)
  {
    var h := g.moveHistory;
    var h' := AfterClick(g, col).moveHistory;
    assert h'[..|h'| - 1] == h;
  }

  /** A coin of the mover cannot give the other player a line: the other player had none before. */
  lemma DropSparesOther(g: Game, col: int)
    requires Inv(g) && 0 <= col < Cols
    requires g.gameState == Playing && LowestEmptyRow(g.board, col) >= 0
    ensures !HasLine(AfterClick(g, col).board, Other(g.currentPlayer), 4)
  {
    var p := g.currentPlayer;
    var row := LowestEmptyRow(g.board, col);
    if HasLine(SetCell(g.board, row, col, p), Other(p), 4) {
      LineSurvivesWrite(g.board, row, col, p, Other(p), 4);
    }
  }

  /** A move keeps the invariant: the coin is logged as a legal drop, and the outcome is decided for the mover. */
  lemma ClickPreservesInv(g: Game, col: int)
    requires Inv(g) && 0 <= col < Cols
    ensures Inv(AfterClick(g, col))
  {
    if g.gameState == Playing && LowestEmptyRow(g.board, col) >= 0 {
      ClickLogsDrop(g, col);
      DropSparesOther(g, col);
      var next := AfterClick(g, col);
      var h := g.moveHistory;
      assert |next.moveHistory| == |h| + 1 && next.moveHistory[|h|].player == g.currentPlayer;
      if next.gameState == Playing {
        assert |Red| != |Yellow|;
        AlternateFlips(|h|, Red, Yellow);
      }
    }
  }

  /** Undoing a move of a game in play keeps the invariant: the board is the shorter log replayed. */
  lemma UndoPreservesInv(g: Game)
    requires Inv(g)
    ensures Inv(AfterUndo(g))
  {
    var h := g.moveHistory;
    if |h| > 0 && g.gameState != Finished {
      var before := h[..|h| - 1];
      var last := h[|h| - 1];
      ClearLastEntry(h, Rows, Cols, Red, Yellow);
      var b := SetCell(g.board, last.row, last.col, Empty);
      if HasLine(b, Red, 4) {
        LineSurvivesWrite(g.board, last.row, last.col, Empty, Red, 4);
      }
      if HasLine(b, Yellow, 4) {
        LineSurvivesWrite(g.board, last.row, last.col, Empty, Yellow, 4);
      }
    }
  }

  /**
   * Undo takes back a move that left the game in play, restoring the game
   * exactly; after a move that ended the game, undo is refused.
   */
  lemma UndoInvertsMove(g: Game, col: int)
    requires IsBoard(g.board) && IsPlayer(g.currentPlayer) && 0 <= col < Cols
    requires g.gameState == Playing && LowestEmptyRow(g.board, col) >= 0
    ensures AfterClick(g, col).gameState == Playing ==> AfterUndo(AfterClick(g, col)) == g
    ensures AfterClick(g, col).gameState == Finished ==> AfterUndo(AfterClick(g, col)) == AfterClick(g, col)
  {
    var row := LowestEmptyRow(g.board, col);
    var next := AfterClick(g, col);
    assert next.moveHistory[..|next.moveHistory| - 1] == g.moveHistory;
    SetCellUndo(g.board, row, col, g.currentPlayer);
  }

  /**
   * The board holds as many coins as the log has entries, red (who opens)
   * holding one more than yellow after an odd number of moves and as many
   * after an even number; each logged coin is still on its cell.
   */
  lemma OccupiedCells(g: Game)
    requires Inv(g)
    ensures Count(g.board, Empty) + |g.moveHistory| == Rows * Cols
    ensures Count(g.board, Red) == (|g.moveHistory| + 1) / 2
    ensures Count(g.board, Yellow) == |g.moveHistory| / 2
    ensures forall i :: 0 <= i < |g.moveHistory| ==>
              0 <= g.moveHistory[i].row < Rows && 0 <= g.moveHistory[i].col < Cols &&
              g.board[g.moveHistory[i].row][g.moveHistory[i].col] == g.moveHistory[i].player
  {
    ReplayCounts(g.moveHistory, Rows, Cols, Red, Yellow);
    ReplayHoldsMoves(g.moveHistory, Rows, Cols, Red, Yellow);
  }

  /**
   * No coin floats, so checkDraw's top-row test is a full-board test: a game
   * that finished without a line for the mover finished on a full board.
   */
  lemma NoFloatingCoins(g: Game)
    requires Inv(g)
    ensures Gravity(g.board)
    ensures TopRowFull(g.board) <==> IsBoardFull(g.board, Empty)
    ensures g.gameState == Finished && !HasLine(g.board, g.currentPlayer, 4) ==> IsBoardFull(g.board, Empty)
  {
    DroppedGravity(g.moveHistory);
    TopRowFullMeansFull(g.board);
  }

  // ---------------------------------------------------------------------------
  // The game object
  // ---------------------------------------------------------------------------

  class ConnectFourGame {
    var board: Board
    var currentPlayer: string
    var gameState: GameState
    var score: Score
    var moveHistory: seq<Move>
    var moveCount: int

    function State(): Game
      reads this
    {
      Game(board, currentPlayer, gameState, score, moveHistory, moveCount)
    }

    ghost predicate Valid()
      reads this
    {
      Inv(State())
    }

    /**
     * The constructor, followed by loadScore (a stored score, when there is
     * one, replaces the zero score) and initializeGame (the game starts).
     */
    constructor (savedScore: Option<Score>)
      ensures Valid()
      ensures State() == AfterReset(Game([], Red, Waiting,
                                         if savedScore.Some? then savedScore.value else Score(0, 0, 0), [], 1))
    {
      board := CreateBoard(Rows, Cols, Empty);
      currentPlayer := Red;
      gameState := Waiting;
      score := Score(0, 0, 0);
      moveHistory := [];
      moveCount := 1;
      if savedScore.Some? {
        score := savedScore.value;
      }
      gameState := Playing;
      new;
      ResetEstablishesInv(State());
    }

    method HandleColumnClick(col: int)
      requires Valid() && 0 <= col < Cols
      modifies this
      ensures Valid()
      ensures State() == AfterClick(old(State()), col)
    {
      if gameState != Playing {
        return;
      }
      var targetRow := FindLowestRow(col);
      if targetRow == -1 {
        return;
      }
      MakeMove(targetRow, col);
      ClickPreservesInv(old(State()), col);
    }

    /** findLowestRow: scans the column from the bottom up for the first empty cell. */
    method FindLowestRow(col: int) returns (row: int)
      requires IsBoard(board) && 0 <= col < Cols
      ensures -1 <= row < Rows
      ensures row >= 0 ==> board[row][col] == Empty && forall k :: row < k < Rows ==> board[k][col] != Empty
      ensures row == -1 <==> forall k :: 0 <= k < Rows ==> board[k][col] != Empty
      ensures row == LowestEmptyRow(board, col)
    {
      row := Rows - 1;
      while row >= 0
        invariant -1 <= row < Rows
        invariant forall k :: row < k < Rows ==> board[k][col] != Empty
        decreases row + 1
      {
        if board[row][col] == Empty {
          return;
        }
        row := row - 1;
      }
    }

    method MakeMove(row: int, col: int)
      requires IsBoard(board) && IsPlayer(currentPlayer) && 0 <= row < Rows && 0 <= col < Cols
      modifies this
      ensures State() == AfterMove(old(State()), row, col)
    {
      var move := Move(row, col, currentPlayer, moveCount);
      moveHistory := moveHistory + [move];
      board := board[row := board[row][col := currentPlayer]];
      var winner := CheckConnectFourWin(board, currentPlayer);
      var isDraw := CheckDraw();
      if winner {
        HandleWin(currentPlayer);
      } else if isDraw {
        HandleDraw();
      } else {
        SwitchPlayer();
        moveCount := moveCount + 1;
      }
    }

    /** checkDraw: the top row has no empty cell. */
    method CheckDraw() returns (isDraw: bool)
      requires IsBoard(board)
      ensures isDraw <==> TopRowFull(board)
    {
      for col := 0 to Cols
        invariant forall c :: 0 <= c < col ==> board[0][c] != Empty
      {
        if board[0][col] == Empty {
          return false;
        }
      }
      return true;
    }

    method SwitchPlayer()
      modifies this
      ensures State() == old(State()).(currentPlayer := Other(old(currentPlayer)))
    {
      currentPlayer := if currentPlayer == Red then Yellow else Red;
    }

    method HandleWin(winner: string)
      requires IsPlayer(winner)
      modifies this
      ensures State() == old(State()).(gameState := Finished, score := Credit(old(score), winner))
    {
      gameState := Finished;
      if winner == Red {
        score := score.(red := score.red + 1);
      } else {
        score := score.(yellow := score.yellow + 1);
      }
    }

    method HandleDraw()
      modifies this
      ensures State() == old(State()).(gameState := Finished, score := old(score).(draws := old(score).draws + 1))
    {
      gameState := Finished;
      score := score.(draws := score.draws + 1);
    }

    method UndoLastMove()
      requires Valid()
      modifies this
      ensures Valid()
      ensures State() == AfterUndo(old(State()))
    {
      if |moveHistory| == 0 || gameState == Finished {
        return;
      }
      WellPlayedEntries(moveHistory, Rows, Cols, Red, Yellow);
      UndoPreservesInv(State());
      var lastMove := moveHistory[|moveHistory| - 1];
      moveHistory := moveHistory[..|moveHistory| - 1];
      board := board[lastMove.row := board[lastMove.row][lastMove.col := Empty]];
      currentPlayer := lastMove.player;
      moveCount := lastMove.moveNumber;
    }

    method ResetGame()
      modifies this
      ensures Valid()
      ensures State() == AfterReset(old(State()))
    {
      board := CreateBoard(Rows, Cols, Empty);
      currentPlayer := Red;
      gameState := Playing;
      moveHistory := [];
      moveCount := 1;
      ResetEstablishesInv(old(State()));
    }
  }
}
