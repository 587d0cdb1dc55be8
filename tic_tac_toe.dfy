/**
 * The state part of TicTacToeGame: a 3x3 board of "", "X" and "O", the player
 * to move, the page phase and the score. X opens; a move writes the mover's
 * mark, then the game is won, drawn, or passes to the other player.
 */
module TicTacToe {
  import opened GameUtils

  type Board = Grid<string>

  datatype Score = Score(x: nat, o: nat, draws: nat)

  /** The fields of TicTacToeGame that the game logic reads and writes. */
  datatype Game = Game(board: Board, currentPlayer: string, gameState: GameState, score: Score)

  predicate IsGrid3(board: Board)
  {
    |board| == 3 && forall r :: 0 <= r < 3 ==> |board[r]| == 3
  }

  /** switchPlayer: 'X' becomes 'O', anything else becomes 'X'. */
  function Other(player: string): string
  {
    if player == PlayerX then PlayerO else PlayerX
  }

  /** `score[winner.toLowerCase()]++` for a winner 'X' or 'O'. */
  function Credit(score: Score, winner: string): (credited: Score)
    requires winner == PlayerX || winner == PlayerO
    ensures credited.draws == score.draws
    ensures credited.x + credited.o == score.x + score.o + 1
    ensures winner == PlayerX ==> credited.x == score.x + 1
    ensures winner == PlayerO ==> credited.o == score.o + 1
  {
    if winner == PlayerX then score.(x := score.x + 1) else score.(o := score.o + 1)
  }

  // ---------------------------------------------------------------------------
  // The operations on the state, as functions of the state before them
  // ---------------------------------------------------------------------------

  /** makeMove: the mover's mark goes into the cell; then win, else draw, else switch player. */
  function AfterMove(g: Game, row: int, col: int): (next: Game)
    ensures next.board == SetCell(g.board, row, col, g.currentPlayer)
    ensures next.gameState == Finished <==>
              g.gameState == Finished || GetTicTacToeWinner(next.board).Some? || IsTicTacToeDraw(next.board)
    ensures next.gameState == Finished || next.currentPlayer == Other(g.currentPlayer)
    ensures GetTicTacToeWinner(next.board).Some? ==>
              next.score == Credit(g.score, GetTicTacToeWinner(next.board).value)
    ensures IsTicTacToeDraw(next.board) ==> next.score == g.score.(draws := g.score.draws + 1)
    ensures GetTicTacToeWinner(next.board).None? && !IsTicTacToeDraw(next.board) ==>
              next.score == g.score && next.gameState == g.gameState
  {
    var board := SetCell(g.board, row, col, g.currentPlayer);
    var winner := GetTicTacToeWinner(board);
    if winner.Some? then
      g.(board := board, gameState := Finished, score := Credit(g.score, winner.value))
    else if IsTicTacToeDraw(board) then
      g.(board := board, gameState := Finished, score := g.score.(draws := g.score.draws + 1))
    else
      g.(board := board, currentPlayer := Other(g.currentPlayer))
  }

  /** handleCellClick: ignored unless the game is being played and the cell is empty. */
  function AfterClick(g: Game, row: int, col: int): (next: Game)
    requires 0 <= row < |g.board| && 0 <= col < |g.board[row]|
    ensures g.gameState != Playing || g.board[row][col] != Empty ==> next == g
    ensures g.gameState == Playing && g.board[row][col] == Empty ==> next.board == SetCell(g.board, row, col, g.currentPlayer)
  {
    if g.gameState != Playing || g.board[row][col] != Empty then g else AfterMove(g, row, col)
  }

  /** resetGame: empty board, X to move, playing; the score is kept. */
  function AfterReset(g: Game): (next: Game)
    ensures next.score == g.score
    ensures next.gameState == Playing && next.currentPlayer == PlayerX
    ensures IsGrid3(next.board) && Count(next.board, Empty) == 9
  {
    CountCreated(3, 3, Empty, Empty);
    Game(CreateBoard(3, 3, Empty), PlayerX, Playing, g.score)
  }

  // ---------------------------------------------------------------------------
  // The invariant and what the operations do to it
  // ---------------------------------------------------------------------------

  /**
   * While playing, X (who opens) has as many marks as O when X is to move and
   * one more when O is to move, and nobody has won or filled the board. Once
   * finished, the player who made the last move is still `currentPlayer`, and
   * that player has won or the board is drawn.
   */
  ghost predicate Inv(g: Game)
  {
    && IsGrid3(g.board)
    && (g.currentPlayer == PlayerX || g.currentPlayer == PlayerO)
    && match g.gameState
       case Waiting => false
       case Playing =>
         && Count(g.board, PlayerX) == Count(g.board, PlayerO) + (if g.currentPlayer == PlayerX then 0 else 1)
         && GetTicTacToeWinner(g.board) == None
         && !IsBoardFull(g.board, Empty)
       case Finished =>
         && Count(g.board, PlayerX) == Count(g.board, PlayerO) + (if g.currentPlayer == PlayerX then 1 else 0)
         && (GetTicTacToeWinner(g.board) == Some(g.currentPlayer) || IsTicTacToeDraw(g.board))
         && !HasLine(g.board, Other(g.currentPlayer), 3)
  }

  lemma ResetEstablishesInv(g: Game)
    ensures Inv(AfterReset(g))
  {
    var b := CreateBoard(3, 3, Empty);
    CountCreated(3, 3, Empty, PlayerX);
    CountCreated(3, 3, Empty, PlayerO);
    UniformBoardHasNoLine(3, 3, Empty, PlayerX, 3);
    UniformBoardHasNoLine(3, 3, Empty, PlayerO, 3);
    CreatedBoardFull(3, 3, Empty, Empty);
  }

  /**
   * A move on a game in play can only complete a line of the mover: the
   * winner credited is always the player who moved.
   */
  lemma WinCreditsMover(g: Game, row: int, col: int)
    requires Inv(g) && g.gameState == Playing
    requires 0 <= row < 3 && 0 <= col < 3 && g.board[row][col] == Empty
    ensures var b := SetCell(g.board, row, col, g.currentPlayer);
            GetTicTacToeWinner(b).Some? ==> GetTicTacToeWinner(b) == Some(g.currentPlayer)
    ensures !HasLine(SetCell(g.board, row, col, g.currentPlayer), Other(g.currentPlayer), 3)
    ensures var next := AfterMove(g, row, col);
            GetTicTacToeWinner(next.board).Some? ==> next.score == Credit(g.score, g.currentPlayer)
  {
    var other := Other(g.currentPlayer);
    if HasLine(SetCell(g.board, row, col, g.currentPlayer), other, 3) {
      LineSurvivesWrite(g.board, row, col, g.currentPlayer, other, 3);
    }
  }

  lemma ClickPreservesInv(g: Game, row: int, col: int)
    requires Inv(g) && 0 <= row < 3 && 0 <= col < 3
    ensures Inv(AfterClick(g, row, col))
  {
    if g.gameState == Playing && g.board[row][col] == Empty {
      var p := g.currentPlayer;
      var b := SetCell(g.board, row, col, p);
      CountSetCell(g.board, row, col, p, PlayerX);
      CountSetCell(g.board, row, col, p, PlayerO);
      WinCreditsMover(g, row, col);
      IsBoardFullMeans(b, Empty);
    }
  }

  // ---------------------------------------------------------------------------
  // The winning-combination table of highlightWinningCells
  // ---------------------------------------------------------------------------

  /** The eight winning triples: three rows, three columns, two diagonals. */
  const WinningCombinations: seq<seq<Position>> := [
    [Position(0, 0), Position(0, 1), Position(0, 2)],
    [Position(1, 0), Position(1, 1), Position(1, 2)],
    [Position(2, 0), Position(2, 1), Position(2, 2)],
    [Position(0, 0), Position(1, 0), Position(2, 0)],
    [Position(0, 1), Position(1, 1), Position(2, 1)],
    [Position(0, 2), Position(1, 2), Position(2, 2)],
    [Position(0, 0), Position(1, 1), Position(2, 2)],
    [Position(0, 2), Position(1, 1), Position(2, 0)]
  ]

  /** Every cell of `cells` holds `player`. */
  predicate Owns(board: Board, cells: seq<Position>, player: string)
  {
    forall k :: 0 <= k < |cells| ==> CellHolds(board, cells[k].row, cells[k].col, player)
  }

  /** Three cells a step apart along `direction` that all hold `player` form a line of length 3. */
  lemma ThreeCellsMakeLine(board: Board, start: Position, direction: Position, player: string)
    requires CellHolds(board, start.row, start.col, player)
    requires CellHolds(board, start.row + direction.row, start.col + direction.col, player)
    requires CellHolds(board, start.row + 2 * direction.row, start.col + 2 * direction.col, player)
    ensures LineOf(board, start, direction, 3, player)
  {
    forall i | 0 <= i < 3
      ensures CellHolds(board, start.row + i * direction.row, start.col + i * direction.col, player)
    {
      // One case per cell, so that each product `i * direction` is by a literal.
      if i == 0 {
        assert i * direction.row == 0 && i * direction.col == 0;
      } else if i == 1 {
        assert i * direction.row == direction.row && i * direction.col == direction.col;
      } else {
        assert i * direction.row == 2 * direction.row && i * direction.col == 2 * direction.col;
      }
    }
  }

  /** A table entry that is all `player`'s is a line of three for `player`. */
  lemma OwnedEntryIsLine(board: Board, player: string, k: int)
    requires IsGrid3(board) && 0 <= k < 8 && Owns(board, WinningCombinations[k], player)
    ensures HasLine(board, player, 3)
  {
    var cells := WinningCombinations[k];
    assert CellHolds(board, cells[0].row, cells[0].col, player);
    assert CellHolds(board, cells[1].row, cells[1].col, player);
    assert CellHolds(board, cells[2].row, cells[2].col, player);
    var r, c, j;
    if k < 3 {
      r, c, j := k, 0, 0;
    } else if k < 6 {
      r, c, j := 0, k - 3, 1;
    } else if k == 6 {
      r, c, j := 0, 0, 2;
    } else {
      r, c, j := 0, 2, 3;
    }
    ThreeCellsMakeLine(board, Position(r, c), Directions[j], player);
  }

  /** A line of three for `player` on the 3x3 board is a table entry that is all `player`'s. */
  lemma LineIsOwnedEntry(board: Board, player: string, r: int, c: int, j: int)
    requires IsGrid3(board) && 0 <= j < 4 && LineOf(board, Position(r, c), Directions[j], 3, player)
    ensures exists k :: 0 <= k < 8 && Owns(board, WinningCombinations[k], player)
  {
    var d := Directions[j];
    assert CellHolds(board, r + 0 * d.row, c + 0 * d.col, player);
    assert CellHolds(board, r + 1 * d.row, c + 1 * d.col, player);
    assert CellHolds(board, r + 2 * d.row, c + 2 * d.col, player);
    var k: int;
    if j == 0 {
      k := r;
    } else if j == 1 {
      k := 3 + c;
    } else if j == 2 {
      k := 6;
    } else {
      k := 7;
    }
    assert Owns(board, WinningCombinations[k], player);
  }

  /** On a 3x3 board, `player` has three in a line iff some entry of the table is all theirs. */
  lemma TableMatchesLines(board: Board, player: string)
    requires IsGrid3(board)
    ensures HasLine(board, player, 3) <==> exists k :: 0 <= k < 8 && Owns(board, WinningCombinations[k], player)
  {
    if HasLine(board, player, 3) {
      var r, c, j :| 0 <= r < |board| && 0 <= c < GetBoardDimensions(board).cols && 0 <= j < 4 &&
        LineOf(board, Position(r, c), Directions[j], 3, player);
      LineIsOwnedEntry(board, player, r, c, j);
    }
    if exists k :: 0 <= k < 8 && Owns(board, WinningCombinations[k], player) {
      var k :| 0 <= k < 8 && Owns(board, WinningCombinations[k], player);
      OwnedEntryIsLine(board, player, k);
    }
  }

  /** A full top row of X is a win for X, whatever else is on the board. */
  lemma TopRowWinExample()
    ensures GetTicTacToeWinner([[PlayerX, PlayerX, PlayerX], [PlayerO, PlayerO, Empty], [Empty, Empty, Empty]]) == Some(PlayerX)
  {
    var board := [[PlayerX, PlayerX, PlayerX], [PlayerO, PlayerO, Empty], [Empty, Empty, Empty]];
    assert Owns(board, WinningCombinations[0], PlayerX);
    OwnedEntryIsLine(board, PlayerX, 0);
  }

  // ---------------------------------------------------------------------------
  // The game object
  // ---------------------------------------------------------------------------

  class TicTacToeGame {
    var board: Board
    var currentPlayer: string
    var gameState: GameState
    var score: Score

    function State(): Game
      reads this
    {
      Game(board, currentPlayer, gameState, score)
    }

    ghost predicate Valid()
      reads this
    {
      Inv(State())
    }

    /**
     * The constructor, followed by loadScore (a stored score, when there is
     * one, replaces the zero score) and initializeGame (the game starts).
     */
    constructor (savedScore: Option<Score>)
      ensures Valid()
      ensures State() == AfterReset(Game([], PlayerX, Waiting,
                                         if savedScore.Some? then savedScore.value else Score(0, 0, 0)))
    {
      board := CreateBoard(3, 3, Empty);
      currentPlayer := PlayerX;
      gameState := Waiting;
      score := Score(0, 0, 0);
      if savedScore.Some? {
        score := savedScore.value;
      }
      gameState := Playing;
      new;
      ResetEstablishesInv(State());
    }

    method HandleCellClick(row: int, col: int)
      requires Valid() && 0 <= row < 3 && 0 <= col < 3
      modifies this
      ensures Valid()
      ensures State() == AfterClick(old(State()), row, col)
    {
      if gameState != Playing || board[row][col] != Empty {
        return;
      }
      MakeMove(row, col);
      ClickPreservesInv(old(State()), row, col);
    }

    method MakeMove(row: int, col: int)
      requires 0 <= row < |board| && 0 <= col < |board[row]|
      modifies this
      ensures State() == AfterMove(old(State()), row, col)
    {
      board := board[row := board[row][col := currentPlayer]];
      var winner := GetTicTacToeWinner(board);
      var isDraw := IsTicTacToeDraw(board);
      if winner.Some? {
        HandleWin(winner.value);
      } else if isDraw {
        HandleDraw();
      } else {
        SwitchPlayer();
      }
    }

    method SwitchPlayer()
      modifies this
      ensures State() == old(State()).(currentPlayer := Other(old(currentPlayer)))
    {
      currentPlayer := if currentPlayer == PlayerX then PlayerO else PlayerX;
    }

    method HandleWin(winner: string)
      requires winner == PlayerX || winner == PlayerO
      modifies this
      ensures State() == old(State()).(gameState := Finished, score := Credit(old(score), winner))
    {
      gameState := Finished;
      if winner == PlayerX {
        score := score.(x := score.x + 1);
      } else {
        score := score.(o := score.o + 1);
      }
    }

    method HandleDraw()
      modifies this
      ensures State() == old(State()).(gameState := Finished, score := old(score).(draws := old(score).draws + 1))
    {
      gameState := Finished;
      score := score.(draws := score.draws + 1);
    }

    /**
     * The search of highlightWinningCells: the first table entry whose three
     * cells all hold `currentPlayer`, or no cells when there is none.
     */
    method HighlightWinningCells() returns (cells: seq<Position>)
      requires IsGrid3(board)
      ensures cells == [] <==> !HasLine(board, currentPlayer, 3)
      ensures cells != [] ==> exists k :: 0 <= k < 8 && cells == WinningCombinations[k] &&
                                Owns(board, cells, currentPlayer) &&
                                forall k' :: 0 <= k' < k ==> !Owns(board, WinningCombinations[k'], currentPlayer)
    {
      TableMatchesLines(board, currentPlayer);
      cells := [];
      for k := 0 to 8
        invariant forall k' :: 0 <= k' < k ==> !Owns(board, WinningCombinations[k'], currentPlayer)
      {
        var combination := WinningCombinations[k];
        var pos1, pos2, pos3 := combination[0], combination[1], combination[2];
        if board[pos1.row][pos1.col] == currentPlayer &&
           board[pos2.row][pos2.col] == currentPlayer &&
           board[pos3.row][pos3.col] == currentPlayer
        {
          assert Owns(board, combination, currentPlayer);
          return combination;
        }
      }
    }

    method ResetGame()
      modifies this
      ensures Valid()
      ensures State() == AfterReset(old(State()))
    {
      board := CreateBoard(3, 3, Empty);
      currentPlayer := PlayerX;
      gameState := Playing;
      ResetEstablishesInv(old(State()));
    }
  }
}
