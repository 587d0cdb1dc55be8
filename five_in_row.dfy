/**
 * The state part of FiveInRowGame: a 15x15 board of "", "X" and "O", the
 * player to move, the page phase, the score, the move log used by undo and
 * the number of the move being played. X opens; a click on an empty cell
 * places the mover's stone; five in a line wins, a full board draws.
 */
module FiveInRow {
  import opened GameUtils
  import opened MoveHistory

  const Size: nat := 15
  const WinLength: nat := 5

  datatype Score = Score(x: nat, o: nat, draws: nat)

  /** The fields of FiveInRowGame that the game logic reads and writes. */
  datatype Game = Game(board: Board, currentPlayer: string, gameState: GameState, score: Score,
                       moveHistory: seq<Move>, moveCount: int)

  predicate IsBoard(board: Board)
  {
    |board| == Size && forall r :: 0 <= r < Size ==> |board[r]| == Size
  }

  predicate IsPlayer(player: string)
  {
    player == PlayerX || player == PlayerO
  }

  /** switchPlayer: 'X' becomes 'O', anything else becomes 'X'. */
  function Other(player: string): string
  {
    if player == PlayerX then PlayerO else PlayerX
  }

  /** `score[winner.toLowerCase()]++` for a winner 'X' or 'O'. */
  function Credit(score: Score, winner: string): (credited: Score)
    requires IsPlayer(winner)
    ensures credited.draws == score.draws
    ensures winner == PlayerX ==> credited == score.(x := score.x + 1)
    ensures winner == PlayerO ==> credited == score.(o := score.o + 1)
  {
    if winner == PlayerX then score.(x := score.x + 1) else score.(o := score.o + 1)
  }

  // ---------------------------------------------------------------------------
  // Coordinate labels
  // ---------------------------------------------------------------------------

  /**
   * getCoordinateLabel: the column as a capital letter counted from 'A',
   * followed by the 1-based row number in decimal ("A1" for the top-left cell).
   */
  function GetCoordinateLabel(row: nat, col: nat): (coordinate: string)
    requires 65 + col < 0xD800
    ensures |coordinate| >= 2 && coordinate[0] as int == 65 + col
    ensures AllDigits(coordinate[1..]) && ParseDigits(coordinate[1..]) == row + 1
    ensures |coordinate| > 2 ==> coordinate[1] != '0'
  {
    var rowLabel := NatToString(row + 1);
    ParseNatToString(row + 1);
    var coordinate := [(65 + col) as char] + rowLabel;
    assert coordinate[1..] == rowLabel;
    coordinate
  }

  /** Reads a cell back out of a coordinate label: a letter from 'A' on, then a row number from 1 on. */
  function ParseCoordinateLabel(coordinate: string): Option<Position>
  {
    if |coordinate| >= 2 && coordinate[0] as int >= 65 && AllDigits(coordinate[1..]) && ParseDigits(coordinate[1..]) >= 1
    then Some(Position(ParseDigits(coordinate[1..]) - 1, coordinate[0] as int - 65))
    else None
  }

  /** Every coordinate label reads back as the cell it names. */
  lemma CoordinateLabelRoundTrip(row: nat, col: nat)
    requires 65 + col < 0xD800
    ensures ParseCoordinateLabel(GetCoordinateLabel(row, col)) == Some(Position(row, col))
  {
  }

  /** The corner cells of the 15x15 board. */
  lemma CoordinateLabelCorners()
    ensures GetCoordinateLabel(0, 0) == "A1"
    ensures GetCoordinateLabel(14, 14) == "O15"
  {
    assert NatToString(15) == NatToString(1) + [DigitChar(5)];
  }

  /** No two cells share a coordinate label. */
  lemma CoordinateLabelsDistinct(row: nat, col: nat, row': nat, col': nat)
    requires 65 + col < 0xD800 && 65 + col' < 0xD800
    requires GetCoordinateLabel(row, col) == GetCoordinateLabel(row', col')
    ensures row == row' && col == col'
  {
    CoordinateLabelRoundTrip(row, col);
    CoordinateLabelRoundTrip(row', col');
  }

  // ---------------------------------------------------------------------------
  // The operations on the state, as functions of the state before them
  // ---------------------------------------------------------------------------

  /**
   * makeMove: log the move with the current move number, place the stone,
   * then a winner (X checked first) is credited, else a full board draws,
   * else the other player is to move and the move number goes up.
   */
  function AfterMove(g: Game, row: int, col: int): (next: Game)
    ensures next.board == SetCell(g.board, row, col, g.currentPlayer)
    ensures next.moveHistory == g.moveHistory + [Move(row, col, g.currentPlayer, g.moveCount)]
    ensures next.gameState == Finished <==>
              g.gameState == Finished || GetFiveInRowWinner(next.board).Some? || IsBoardFull(next.board, Empty)
    ensures next.gameState != Finished ==>
              next.gameState == g.gameState && next.currentPlayer == Other(g.currentPlayer) &&
              next.moveCount == g.moveCount + 1
    ensures GetFiveInRowWinner(next.board).Some? ==>
              next.score == Credit(g.score, GetFiveInRowWinner(next.board).value)
    ensures GetFiveInRowWinner(next.board).None? && IsBoardFull(next.board, Empty) ==>
              next.score == g.score.(draws := g.score.draws + 1)
    ensures GetFiveInRowWinner(next.board).None? && !IsBoardFull(next.board, Empty) ==> next.score == g.score
  {
    var board := SetCell(g.board, row, col, g.currentPlayer);
    var history := g.moveHistory + [Move(row, col, g.currentPlayer, g.moveCount)];
    var winner := GetFiveInRowWinner(board);
    if winner.Some? then
      g.(board := board, moveHistory := history, gameState := Finished, score := Credit(g.score, winner.value))
    else if IsBoardFull(board, Empty) then
      g.(board := board, moveHistory := history, gameState := Finished, score := g.score.(draws := g.score.draws + 1))
    else
      g.(board := board, moveHistory := history, currentPlayer := Other(g.currentPlayer), moveCount := g.moveCount + 1)
  }

  /** handleCellClick: ignored unless the game is being played and the cell is empty. */
  function AfterClick(g: Game, row: int, col: int): (next: Game)
    requires 0 <= row < |g.board| && 0 <= col < |g.board[row]|
    ensures g.gameState != Playing || g.board[row][col] != Empty ==> next == g
    ensures g.gameState == Playing && g.board[row][col] == Empty ==>
              && next.board == SetCell(g.board, row, col, g.currentPlayer)
              && next.board[row][col] == g.currentPlayer
              && |next.moveHistory| == |g.moveHistory| + 1
  {
    if g.gameState != Playing || g.board[row][col] != Empty then g else AfterMove(g, row, col)
  }

  /** undoLastMove: refused when nothing was played or the game is over; otherwise the last stone is taken back. */
  function AfterUndo(g: Game): (next: Game)
    ensures |g.moveHistory| == 0 || g.gameState == Finished ==> next == g
    ensures |g.moveHistory| > 0 && g.gameState != Finished ==>
              var last := g.moveHistory[|g.moveHistory| - 1];
              && next.moveHistory == g.moveHistory[..|g.moveHistory| - 1]
              && next.board == SetCell(g.board, last.row, last.col, Empty)
              && next.currentPlayer == last.player && next.moveCount == last.moveNumber
              && next.gameState == g.gameState && next.score == g.score
  {
    if |g.moveHistory| == 0 || g.gameState == Finished then g
    else
      var last := g.moveHistory[|g.moveHistory| - 1];
      g.(board := SetCell(g.board, last.row, last.col, Empty), moveHistory := g.moveHistory[..|g.moveHistory| - 1],
         currentPlayer := last.player, moveCount := last.moveNumber)
  }

  /** resetGame: empty board, X to move, empty log, move 1, playing; the score is kept. */
  function AfterReset(g: Game): (next: Game)
    ensures next.score == g.score
    ensures next.gameState == Playing && next.currentPlayer == PlayerX && next.moveHistory == [] && next.moveCount == 1
    ensures IsBoard(next.board) && Count(next.board, Empty) == Size * Size
  {
    CountCreated(Size, Size, Empty, Empty);
    Game(CreateBoard(Size, Size, Empty), PlayerX, Playing, g.score, [], 1)
  }

  // ---------------------------------------------------------------------------
  // The invariant and what the operations do to it
  // ---------------------------------------------------------------------------

  /**
   * The board is the log replayed, and every logged stone went on an empty
   * cell by the player whose turn it was. While playing, the move number is
   * one more than the log's length, the player to move is the one whose turn
   * it is, nobody has five in a line and some cell is empty. Once finished,
   * the last mover is still `currentPlayer`, the move number is that move's,
   * and that player is the winner, or there is no winner and the board is
   * full.
   */
  ghost predicate Inv(g: Game)
  {
    var h := g.moveHistory;
    && WellPlayed(h, Size, Size, PlayerX, PlayerO)
    && g.board == Replay(h, Size, Size)
    && IsPlayer(g.currentPlayer)
    && match g.gameState
       case Waiting => false
       case Playing =>
         && g.moveCount == |h| + 1
         && g.currentPlayer == Alternate(|h|, PlayerX, PlayerO)
         && GetFiveInRowWinner(g.board) == None
         && !IsBoardFull(g.board, Empty)
       case Finished =>
         && |h| > 0
         && g.moveCount == |h|
         && g.currentPlayer == h[|h| - 1].player
         && (GetFiveInRowWinner(g.board) == Some(g.currentPlayer) ||
             (GetFiveInRowWinner(g.board) == None && IsBoardFull(g.board, Empty)))
         && !HasLine(g.board, Other(g.currentPlayer), WinLength)
  }

  lemma ResetEstablishesInv(g: Game)
    ensures Inv(AfterReset(g))
  {
    var b := CreateBoard(Size, Size, Empty);
    UniformBoardHasNoLine(Size, Size, Empty, PlayerX, WinLength);
    UniformBoardHasNoLine(Size, Size, Empty, PlayerO, WinLength);
    CreatedBoardFull(Size, Size, Empty, Empty);
  }

  /**
   * A stone placed in a game in play can only complete a line of the mover:
   * the winner getFiveInRowWinner reports, and handleWin credits, is always
   * the player who moved.
   */
  lemma WinCreditsMover(g: Game, row: int, col: int)
    requires Inv(g) && g.gameState == Playing
    requires 0 <= row < Size && 0 <= col < Size && g.board[row][col] == Empty
    ensures var b := SetCell(g.board, row, col, g.currentPlayer);
            GetFiveInRowWinner(b).Some? ==> GetFiveInRowWinner(b) == Some(g.currentPlayer)
    ensures !HasLine(SetCell(g.board, row, col, g.currentPlayer), Other(g.currentPlayer), WinLength)
    ensures var next := AfterMove(g, row, col);
            GetFiveInRowWinner(next.board).Some? ==> next.score == Credit(g.score, g.currentPlayer)
  {
    var other := Other(g.currentPlayer);
    if HasLine(SetCell(g.board, row, col, g.currentPlayer), other, WinLength) {
      LineSurvivesWrite(g.board, row, col, g.currentPlayer, other, WinLength);
    }
  }

  /** The stone a click places extends the log by a legal move, and the board stays the log replayed. */
  lemma ClickLogsMove(g: Game, row: int, col: int)
    requires Inv(g) && 0 <= row < Size && 0 <= col < Size
    requires g.gameState == Playing && g.board[row][col] == Empty
    ensures var h := AfterClick(g, row, col).moveHistory;
            && WellPlayed(h, Size, Size, PlayerX, PlayerO)
            && AfterClick(g, row, col).board == Replay(h, Size, Size)
  {
    var h := g.moveHistory;
    var h' := AfterClick(g, row, col).moveHistory;
    assert h'[..|h'| - 1] == h;
  }

  lemma ClickPreservesInv(g: Game, row: int, col: int)
    requires Inv(g) && 0 <= row < Size && 0 <= col < Size
    ensures Inv(AfterClick(g, row, col))
  {
    if g.gameState == Playing && g.board[row][col] == Empty {
      ClickLogsMove(g, row, col);
      WinCreditsMover(g, row, col);
      var next := AfterClick(g, row, col);
      var h := g.moveHistory;
      assert |next.moveHistory| == |h| + 1 && next.moveHistory[|h|].player == g.currentPlayer;
      if next.gameState == Playing {
        AlternateFlips(|h|, PlayerX, PlayerO);
      }
    }
  }

  /** Undoing a move of a game in play keeps the invariant: the board is the shorter log replayed. */
  lemma UndoPreservesInv(g: Game)
    requires Inv(g)
    ensures Inv(AfterUndo(g))
  {
    var h := g.moveHistory;
    if |h| > 0 && g.gameState != Finished {
      var last := h[|h| - 1];
      ClearLastEntry(h, Size, Size, PlayerX, PlayerO);
      var b := SetCell(g.board, last.row, last.col, Empty);
      if HasLine(b, PlayerX, WinLength) {
        LineSurvivesWrite(g.board, last.row, last.col, Empty, PlayerX, WinLength);
      }
      if HasLine(b, PlayerO, WinLength) {
        LineSurvivesWrite(g.board, last.row, last.col, Empty, PlayerO, WinLength);
      }
      IsBoardFullMeans(b, Empty);
    }
  }

  /**
   * Undo takes back a move that left the game in play, restoring the game
   * exactly; after a move that ended the game, undo is refused.
   */
  lemma UndoInvertsMove(g: Game, row: int, col: int)
    requires 0 <= row < |g.board| && 0 <= col < |g.board[row]|
    requires g.gameState == Playing && g.board[row][col] == Empty
    ensures AfterClick(g, row, col).gameState == Playing ==> AfterUndo(AfterClick(g, row, col)) == g
    ensures AfterClick(g, row, col).gameState == Finished ==>
              AfterUndo(AfterClick(g, row, col)) == AfterClick(g, row, col)
  {
    var next := AfterClick(g, row, col);
    assert next.moveHistory[..|next.moveHistory| - 1] == g.moveHistory;
    SetCellUndo(g.board, row, col, g.currentPlayer);
  }

  /**
   * The board holds as many stones as the log has entries, X (who opens)
   * holding one more than O after an odd number of moves and as many after
   * an even number; each logged stone is still on its cell.
   */
  lemma OccupiedCells(g: Game)
    requires Inv(g)
    ensures Count(g.board, Empty) + |g.moveHistory| == Size * Size
    ensures Count(g.board, PlayerX) == (|g.moveHistory| + 1) / 2
    ensures Count(g.board, PlayerO) == |g.moveHistory| / 2
    ensures forall i :: 0 <= i < |g.moveHistory| ==>
              0 <= g.moveHistory[i].row < Size && 0 <= g.moveHistory[i].col < Size &&
              g.board[g.moveHistory[i].row][g.moveHistory[i].col] == g.moveHistory[i].player
  {
    ReplayCounts(g.moveHistory, Size, Size, PlayerX, PlayerO);
    ReplayHoldsMoves(g.moveHistory, Size, Size, PlayerX, PlayerO);
  }

  // ---------------------------------------------------------------------------
  // The search of highlightWinningCells
  // ---------------------------------------------------------------------------

  /** The `length` cells from `start` along `direction`. */
  function LineCells(start: Position, direction: Position, length: nat): (cells: seq<Position>)
    ensures |cells| == length
    ensures forall i :: 0 <= i < length ==>
              cells[i] == Position(start.row + i * direction.row, start.col + i * direction.col)
  {
    seq(length, i => Position(start.row + i * direction.row, start.col + i * direction.col))
  }

  /**
   * The inner loop of highlightWinningCells: collects the cells from
   * `(row, col)` along `(dr, dc)` for as long as they stay on the board and
   * hold `player`, at most five of them.
   */
  method CollectRun(board: Board, player: string, row: int, col: int, dr: int, dc: int)
    returns (positions: seq<Position>)
    requires IsBoard(board)
    ensures |positions| <= WinLength
    ensures positions == LineCells(Position(row, col), Position(dr, dc), |positions|)
    ensures forall i :: 0 <= i < |positions| ==> CellHolds(board, row + i * dr, col + i * dc, player)
    ensures |positions| < WinLength ==>
              !CellHolds(board, row + |positions| * dr, col + |positions| * dc, player)
  {
    positions := [];
    for i := 0 to WinLength
      invariant |positions| == i
      invariant positions == LineCells(Position(row, col), Position(dr, dc), i)
      invariant forall k :: 0 <= k < i ==> CellHolds(board, row + k * dr, col + k * dc, player)
    {
      var newRow, newCol := row + i * dr, col + i * dc;
      if newRow < 0 || newRow >= Size || newCol < 0 || newCol >= Size {
        return;
      }
      if board[newRow][newCol] == player {
        positions := positions + [Position(newRow, newCol)];
      } else {
        return;
      }
    }
  }

  // ---------------------------------------------------------------------------
  // The game object
  // ---------------------------------------------------------------------------

  /**
   * A line of five for `player` starts at `(r, c)` in direction `j`, and none
   * starts earlier in the scan: at an earlier cell in row-major order, or at
   * this cell in an earlier direction.
   */
  predicate FirstLineAt(board: Board, player: string, r: int, c: int, j: int)
    requires 0 <= j < 4
  {
    && LineOf(board, Position(r, c), Directions[j], WinLength, player)
    && (forall r', c' :: 0 <= r' <= r && 0 <= c' < Size && (r' < r || c' < c) ==>
          NoLineFrom(board, player, WinLength, r', c'))
    && (forall j' :: 0 <= j' < j ==> !LineOf(board, Position(r, c), Directions[j'], WinLength, player))
  }

  class FiveInRowGame {
    var board: Board
    var currentPlayer: string
    var gameState: GameState
    var score: Score
    var moveHistory: seq<Move>
    var moveCount: int

    function State(): Game
      reads this
    {
      Game(board, currentPlayer, gameState, score, moveHistory, moveCount)
    }

    ghost predicate Valid()
      reads this
    {
      Inv(State())
    }

    /**
     * The constructor, followed by loadScore (a stored score, when there is
     * one, replaces the zero score) and initializeGame (the game starts).
     */
    constructor (savedScore: Option<Score>)
      ensures Valid()
      ensures State() == AfterReset(Game([], PlayerX, Waiting,
                                         if savedScore.Some? then savedScore.value else Score(0, 0, 0), [], 1))
    {
      board := CreateBoard(Size, Size, Empty);
      currentPlayer := PlayerX;
      gameState := Waiting;
      score := Score(0, 0, 0);
      moveHistory := [];
      moveCount := 1;
      if savedScore.Some? {
        score := savedScore.value;
      }
      gameState := Playing;
      new;
      ResetEstablishesInv(State());
    }

    method HandleCellClick(row: int, col: int)
      requires Valid() && 0 <= row < Size && 0 <= col < Size
      modifies this
      ensures Valid()
      ensures State() == AfterClick(old(State()), row, col)
    {
      if gameState != Playing || board[row][col] != Empty {
        return;
      }
      MakeMove(row, col);
      ClickPreservesInv(old(State()), row, col);
    }

    method MakeMove(row: int, col: int)
      requires 0 <= row < |board| && 0 <= col < |board[row]|
      modifies this
      ensures State() == AfterMove(old(State()), row, col)
    {
      var move := Move(row, col, currentPlayer, moveCount);
      moveHistory := moveHistory + [move];
      board := board[row := board[row][col := currentPlayer]];
      var winner := GetFiveInRowWinner(board);
      var isDraw := IsBoardFull(board, Empty);
      if winner.Some? {
        HandleWin(winner.value);
      } else if isDraw {
        HandleDraw();
      } else {
        SwitchPlayer();
        moveCount := moveCount + 1;
      }
    }

    method SwitchPlayer()
      modifies this
      ensures State() == old(State()).(currentPlayer := Other(old(currentPlayer)))
    {
      currentPlayer := if currentPlayer == PlayerX then PlayerO else PlayerX;
    }

    method HandleWin(winner: string)
      requires IsPlayer(winner)
      modifies this
      ensures State() == old(State()).(gameState := Finished, score := Credit(old(score), winner))
    {
      gameState := Finished;
      if winner == PlayerX {
        score := score.(x := score.x + 1);
      } else {
        score := score.(o := score.o + 1);
      }
    }

    method HandleDraw()
      modifies this
      ensures State() == old(State()).(gameState := Finished, score := old(score).(draws := old(score).draws + 1))
    {
      gameState := Finished;
      score := score.(draws := score.draws + 1);
    }

    /**
     * The search of highlightWinningCells: scanning start cells row by row and
     * the four directions in order, the first five cells in a line that all
     * hold `currentPlayer`, or no cells when there are none.
     */
    method HighlightWinningCells() returns (cells: seq<Position>)
      requires IsBoard(board)
      ensures cells == [] <==> !HasLine(board, currentPlayer, WinLength)
      ensures cells != [] ==>
                exists r, c, j :: 0 <= r < Size && 0 <= c < Size && 0 <= j < 4 &&
                  FirstLineAt(board, currentPlayer, r, c, j) &&
                  cells == LineCells(Position(r, c), Directions[j], WinLength)
    {
      var winner := currentPlayer;
      for row := 0 to Size
        invariant forall r, c :: 0 <= r < row && 0 <= c < Size ==> NoLineFrom(board, winner, WinLength, r, c)
      {
        for col := 0 to Size
          invariant forall r, c :: (0 <= r < row && 0 <= c < Size) || (r == row && 0 <= c < col) ==>
                      NoLineFrom(board, winner, WinLength, r, c)
        {
          for j := 0 to 4
            invariant forall j' :: 0 <= j' < j ==> !LineOf(board, Position(row, col), Directions[j'], WinLength, winner)
          {
            var direction := Directions[j];
            var winningPositions := CollectRun(board, winner, row, col, direction.row, direction.col);
            if |winningPositions| == WinLength {
              assert FirstLineAt(board, winner, row, col, j);
              return winningPositions;
            }
          }
        }
      }
      forall r, c, j | 0 <= r < |board| && 0 <= c < GetBoardDimensions(board).cols && 0 <= j < 4
        ensures !LineOf(board, Position(r, c), Directions[j], WinLength, winner)
      {
        assert NoLineFrom(board, winner, WinLength, r, c);
      }
      return [];
    }

    method UndoLastMove()
      requires Valid()
      modifies this
      ensures Valid()
      ensures State() == AfterUndo(old(State()))
    {
      if |moveHistory| == 0 || gameState == Finished {
        return;
      }
      WellPlayedEntries(moveHistory, Size, Size, PlayerX, PlayerO);
      UndoPreservesInv(State());
      var lastMove := moveHistory[|moveHistory| - 1];
      moveHistory := moveHistory[..|moveHistory| - 1];
      board := board[lastMove.row := board[lastMove.row][lastMove.col := Empty]];
      currentPlayer := lastMove.player;
      moveCount := lastMove.moveNumber;
    }

    method ResetGame()
      modifies this
      ensures Valid()
      ensures State() == AfterReset(old(State()))
    {
      board := CreateBoard(Size, Size, Empty);
      currentPlayer := PlayerX;
      gameState := Playing;
      moveHistory := [];
      moveCount := 1;
      ResetEstablishesInv(old(State()));
    }
  }
}
