/**
 * Shared grid-game utilities: board construction and inspection, positions,
 * the k-in-a-line scanner, the tic-tac-toe and five-in-row winner and draw
 * functions, mm:ss time formatting and the swap-based shuffle.
 *
 * A board is a sequence of rows; the games store single-character strings in
 * the cells, with "" for an empty cell.
 */
module GameUtils {

  datatype Option<T> = None | Some(value: T)

  /** The three phases of a game page. */
  datatype GameState = Waiting | Playing | Finished

  datatype Position = Position(row: int, col: int)

  datatype Dimensions = Dimensions(rows: nat, cols: nat)

  type Grid<T> = seq<seq<T>>

  const Empty: string := ""

  // ---------------------------------------------------------------------------
  // Board construction and inspection
  // ---------------------------------------------------------------------------

  /** A `rows` by `cols` board with every cell set to `initialValue`. */
  function CreateBoard<T>(rows: nat, cols: nat, initialValue: T): (board: Grid<T>)
    ensures |board| == rows
    ensures forall r :: 0 <= r < rows ==> |board[r]| == cols
    ensures forall r, c :: 0 <= r < rows && 0 <= c < cols ==> board[r][c] == initialValue
  {
    seq(rows, _ => seq(cols, _ => initialValue))
  }

  /** `row.every(cell => cell !== emptyValue)`, evaluated left to right. */
  predicate RowFull<T(==)>(row: seq<T>, emptyValue: T)
  {
    |row| == 0 || (row[0] != emptyValue && RowFull(row[1..], emptyValue))
  }

  /** `board.every(row => row.every(cell => cell !== emptyValue))`. */
  predicate IsBoardFull<T(==)>(board: Grid<T>, emptyValue: T)
  {
    |board| == 0 || (RowFull(board[0], emptyValue) && IsBoardFull(board[1..], emptyValue))
  }

  lemma {:induction false} RowFullMeans<T>(row: seq<T>, emptyValue: T)
    ensures RowFull(row, emptyValue) <==> forall c :: 0 <= c < |row| ==> row[c] != emptyValue
  {
    if |row| > 0 {
      RowFullMeans(row[1..], emptyValue);
      assert forall c :: 1 <= c < |row| ==> row[c] == row[1..][c - 1];
    }
  }

  /** The board is full exactly when no cell of any row holds the empty value
      (vacuously so for a board without rows). */
  lemma {:induction false} IsBoardFullMeans<T>(board: Grid<T>, emptyValue: T)
    ensures IsBoardFull(board, emptyValue) <==>
            forall r, c :: 0 <= r < |board| && 0 <= c < |board[r]| ==> board[r][c] != emptyValue
  {
    if |board| > 0 {
      IsBoardFullMeans(board[1..], emptyValue);
      RowFullMeans(board[0], emptyValue);
      assert forall r :: 1 <= r < |board| ==> board[r] == board[1..][r - 1];
    }
  }

  /** A freshly created board is full iff it has no cells or its fill value is
      not the empty value. */
  lemma CreatedBoardFull<T>(rows: nat, cols: nat, v: T, emptyValue: T)
    ensures IsBoardFull(CreateBoard(rows, cols, v), emptyValue) <==> (rows == 0 || cols == 0 || v != emptyValue)
  {
    var b := CreateBoard(rows, cols, v);
    IsBoardFullMeans(b, emptyValue);
    if rows > 0 && cols > 0 && v == emptyValue {
      assert b[0][0] == emptyValue;
    }
  }

  /** Row count, and the width of the first row (0 for a board without rows). */
  function GetBoardDimensions<T>(board: Grid<T>): (d: Dimensions)
    ensures d.rows == |board|
    ensures |board| > 0 ==> d.cols == |board[0]|
    ensures |board| == 0 ==> d.cols == 0
  {
    Dimensions(|board|, if |board| > 0 then |board[0]| else 0)
  }

  /** The dimensions of a created board; a board with no rows reports no columns. */
  lemma CreatedBoardDimensions<T>(rows: nat, cols: nat, v: T)
    ensures GetBoardDimensions(CreateBoard(rows, cols, v)) == Dimensions(rows, if rows == 0 then 0 else cols)
  {
  }

  /** Row-by-row copy: equal contents, cell for cell. */
  function CopyBoard<T>(board: Grid<T>): (copy: Grid<T>)
    ensures copy == board
  {
    var copy := seq(|board|, r requires 0 <= r < |board| => seq(|board[r]|, c requires 0 <= c < |board[r]| => board[r][c]));
    assert forall r :: 0 <= r < |board| ==> copy[r] == board[r];
    copy
  }

  /** `board[r][c] = v` on an in-bounds cell; the board is unchanged otherwise. */
  function SetCell<T>(board: Grid<T>, r: int, c: int, v: T): (b: Grid<T>)
    ensures |b| == |board|
    ensures forall i :: 0 <= i < |b| ==> |b[i]| == |board[i]|
    ensures 0 <= r < |board| && 0 <= c < |board[r]| ==> b[r][c] == v
    ensures forall i, j :: 0 <= i < |b| && 0 <= j < |b[i]| && (i != r || j != c) ==> b[i][j] == board[i][j]
  {
    if 0 <= r < |board| && 0 <= c < |board[r]| then board[r := board[r][c := v]] else board
  }

  /** Writing a cell and then writing back its old value restores the board. */
  lemma SetCellUndo<T>(board: Grid<T>, r: int, c: int, v: T)
    requires 0 <= r < |board| && 0 <= c < |board[r]|
    ensures SetCell(SetCell(board, r, c, v), r, c, board[r][c]) == board
  {
    var b := SetCell(SetCell(board, r, c, v), r, c, board[r][c]);
    assert forall i :: 0 <= i < |board| ==> b[i] == board[i];
  }

  // ---------------------------------------------------------------------------
  // Counting cells (used to relate boards, histories and move counters)
  // ---------------------------------------------------------------------------

  function CountRow<T(==)>(row: seq<T>, v: T): nat
  {
    if |row| == 0 then 0 else (if row[0] == v then 1 else 0) + CountRow(row[1..], v)
  }

  /** The number of cells of the board that hold `v`. */
  function Count<T(==)>(board: Grid<T>, v: T): nat
  {
    if |board| == 0 then 0 else CountRow(board[0], v) + Count(board[1..], v)
  }

  lemma {:induction false} CountRowUpdate<T>(row: seq<T>, c: int, v: T, w: T)
    requires 0 <= c < |row|
    ensures CountRow(row[c := v], w) ==
            CountRow(row, w) - (if row[c] == w then 1 else 0) + (if v == w then 1 else 0)
  {
    if c > 0 {
      CountRowUpdate(row[1..], c - 1, v, w);
      assert row[c := v][1..] == row[1..][c - 1 := v];
    } else {
      assert row[c := v][1..] == row[1..];
    }
  }

  /** Writing `v` into one cell moves that cell from its old value's count to
      `v`'s count and leaves every other value's count alone. */
  lemma {:induction false} CountSetCell<T>(board: Grid<T>, r: int, c: int, v: T, w: T)
    requires 0 <= r < |board| && 0 <= c < |board[r]|
    ensures Count(SetCell(board, r, c, v), w) ==
            Count(board, w) - (if board[r][c] == w then 1 else 0) + (if v == w then 1 else 0)
  {
    var b := SetCell(board, r, c, v);
    if r > 0 {
      CountSetCell(board[1..], r - 1, c, v, w);
      assert b[1..] == SetCell(board[1..], r - 1, c, v);
      assert b[0] == board[0];
    } else {
      CountRowUpdate(board[0], c, v, w);
      assert b[1..] == board[1..];
    }
  }

  lemma {:induction false} CountRowUniform<T>(n: nat, v: T, w: T)
    ensures CountRow(seq(n, _ => v), w) == if v == w then n else 0
  {
    if n > 0 {
      CountRowUniform(n - 1, v, w);
      assert seq(n, _ => v)[1..] == seq(n - 1, _ => v);
    }
  }

  /** A freshly created board holds its fill value in all `rows * cols` cells. */
  lemma {:induction false} CountCreated<T>(rows: nat, cols: nat, v: T, w: T)
    ensures Count(CreateBoard(rows, cols, v), w) == if v == w then rows * cols else 0
  {
    if rows > 0 {
      CountCreated(rows - 1, cols, v, w);
      assert CreateBoard(rows, cols, v)[1..] == CreateBoard(rows - 1, cols, v);
      CountRowUniform(cols, v, w);
    }
  }

  // ---------------------------------------------------------------------------
  // Positions
  // ---------------------------------------------------------------------------

  predicate IsValidPosition(pos: Position, rows: int, cols: int)
  {
    pos.row >= 0 && pos.row < rows && pos.col >= 0 && pos.col < cols
  }

  /**
   * On a board whose rows all have the first row's width, a position is valid
   * for the board's row count and that width exactly when it names a cell.
   */
  lemma ValidPositionIsCell<T>(board: Grid<T>, pos: Position)
    requires forall r :: 0 <= r < |board| ==> |board[r]| == GetBoardDimensions(board).cols
    ensures IsValidPosition(pos, |board|, GetBoardDimensions(board).cols) <==>
              0 <= pos.row < |board| && 0 <= pos.col < |board[pos.row]|
  {
  }

  /** The eight neighbour offsets, in the order getNeighbors visits them. */
  const NeighborDirections: seq<Position> := [
    Position(-1, -1), Position(-1, 0), Position(-1, 1),
    Position(0, -1),                   Position(0, 1),
    Position(1, -1),  Position(1, 0),  Position(1, 1)
  ]

  function Offset(pos: Position, d: Position): Position
  {
    Position(pos.row + d.row, pos.col + d.col)
  }

  /** `q` is one of the eight cells around `p`. */
  predicate Adjacent(p: Position, q: Position)
  {
    q != p && -1 <= q.row - p.row <= 1 && -1 <= q.col - p.col <= 1
  }

  /** Row-major order on positions. */
  predicate Before(p: Position, q: Position)
  {
    p.row < q.row || (p.row == q.row && p.col < q.col)
  }

  lemma NeighborDirectionFacts(pos: Position, k: int)
    requires 0 <= k < 8
    ensures Adjacent(pos, Offset(pos, NeighborDirections[k]))
    ensures k > 0 ==> Before(Offset(pos, NeighborDirections[k - 1]), Offset(pos, NeighborDirections[k]))
  {
    if k == 0 {} else if k == 1 {} else if k == 2 {} else if k == 3 {}
    else if k == 4 {} else if k == 5 {} else if k == 6 {} else {}
  }

  lemma AdjacentIsListed(p: Position, q: Position)
    requires Adjacent(p, q)
    ensures exists k :: 0 <= k < 8 && q == Offset(p, NeighborDirections[k])
  {
    var dr, dc := q.row - p.row, q.col - p.col;
    var k := if dr == -1 then 1 + dc else if dr == 0 then (if dc == -1 then 3 else 4) else 6 + dc;
    assert q == Offset(p, NeighborDirections[k]);
  }

  /** Every position of `s` comes before `p` in row-major order. */
  predicate AllBefore(s: seq<Position>, p: Position)
  {
    forall i :: 0 <= i < |s| ==> Before(s[i], p)
  }

  /** Positions listed in strictly increasing row-major order. */
  predicate Ascending(s: seq<Position>)
  {
    forall i, j :: 0 <= i < j < |s| ==> Before(s[i], s[j])
  }

  /** Order is transitive: `p` and what comes before it come before anything after `p`. */
  lemma AllBeforeLater(s: seq<Position>, p: Position, q: Position)
    requires AllBefore(s, p) && Before(p, q)
    ensures AllBefore(s, q) && AllBefore(s + [p], q)
  {
  }

  /** Appending a position that follows all listed ones keeps the list ascending. */
  lemma AppendAscending(s: seq<Position>, p: Position)
    requires Ascending(s) && AllBefore(s, p)
    ensures Ascending(s + [p])
  {
  }

  /**
   * The in-bounds neighbours of `pos`: exactly the valid positions adjacent to
   * `pos`, each once, in the row-major order of the direction table.
   */
  method GetNeighbors(pos: Position, rows: int, cols: int) returns (neighbors: seq<Position>)
    ensures |neighbors| <= 8
    ensures forall i :: 0 <= i < |neighbors| ==>
              IsValidPosition(neighbors[i], rows, cols) && Adjacent(pos, neighbors[i])
    ensures forall q :: IsValidPosition(q, rows, cols) && Adjacent(pos, q) ==> q in neighbors
    ensures forall i, j :: 0 <= i < j < |neighbors| ==> Before(neighbors[i], neighbors[j])
  {
    neighbors := [];
    for k := 0 to 8
      invariant |neighbors| <= k
      invariant forall i :: 0 <= i < |neighbors| ==>
                  IsValidPosition(neighbors[i], rows, cols) && Adjacent(pos, neighbors[i])
      invariant forall m :: 0 <= m < k && IsValidPosition(Offset(pos, NeighborDirections[m]), rows, cols) ==>
                  Offset(pos, NeighborDirections[m]) in neighbors
      invariant Ascending(neighbors)
      invariant k < 8 ==> AllBefore(neighbors, Offset(pos, NeighborDirections[k]))
    {
      NeighborDirectionFacts(pos, k);
      var newPos := Position(pos.row + NeighborDirections[k].row, pos.col + NeighborDirections[k].col);
      assert newPos == Offset(pos, NeighborDirections[k]);
      if k + 1 < 8 {
        NeighborDirectionFacts(pos, k + 1);
        AllBeforeLater(neighbors, newPos, Offset(pos, NeighborDirections[k + 1]));
      }
      if IsValidPosition(newPos, rows, cols) {
        AppendAscending(neighbors, newPos);
        neighbors := neighbors + [newPos];
      }
    }
    forall q | IsValidPosition(q, rows, cols) && Adjacent(pos, q)
      ensures q in neighbors
    {
      AdjacentIsListed(pos, q);
    }
  }

  // ---------------------------------------------------------------------------
  // Lines of k equal cells
  // ---------------------------------------------------------------------------

  /** The four scan directions: horizontal, vertical, diagonal \ and diagonal /. */
  const Directions: seq<Position> := [Position(0, 1), Position(1, 0), Position(1, 1), Position(1, -1)]

  /**
   * The cell at row `row`, column `col` is inside the board (rows bounded by the
   * row count, columns by the width of the first row) and holds `target`. A
   * column past the end of a shorter row reads as a cell that does not hold
   * `target`.
   */
  predicate CellHolds<T(==)>(board: Grid<T>, row: int, col: int, target: T)
  {
    IsValidPosition(Position(row, col), |board|, GetBoardDimensions(board).cols) && col < |board[row]| &&
    board[row][col] == target
  }

  /** The `length` cells `start + i * direction`, for `0 <= i < length`, all hold `target`. */
  predicate LineOf<T(==)>(board: Grid<T>, start: Position, direction: Position, length: nat, target: T)
  {
    forall i :: 0 <= i < length ==>
      CellHolds(board, start.row + i * direction.row, start.col + i * direction.col, target)
  }

  /** Some start cell and one of the four directions give a line of `length` cells of `target`. */
  predicate HasLine<T(==)>(board: Grid<T>, target: T, length: nat)
  {
    exists r, c, j :: 0 <= r < |board| && 0 <= c < GetBoardDimensions(board).cols && 0 <= j < 4 &&
      LineOf(board, Position(r, c), Directions[j], length, target)
  }

  /**
   * checkLine: true iff each of the first `length` steps from `start` stays on
   * the board and lands on `target`. Reading the board's width fails on a board
   * without rows, so such a board may only be asked about the empty line.
   */
  method CheckLine<T(==)>(board: Grid<T>, start: Position, direction: Position, length: nat, target: T)
    returns (found: bool)
    requires length > 0 ==> |board| > 0
    ensures found <==> LineOf(board, start, direction, length, target)
  {
    for i := 0 to length
      invariant forall k :: 0 <= k < i ==>
                  CellHolds(board, start.row + k * direction.row, start.col + k * direction.col, target)
    {
      var pos := Position(start.row + i * direction.row, start.col + i * direction.col);
      if !IsValidPosition(pos, |board|, |board[0]|) || pos.col >= |board[pos.row]| ||
         board[pos.row][pos.col] != target {
        return false;
      }
    }
    return true;
  }

  /** All four directions from one start cell have been ruled out. */
  predicate NoLineFrom<T(==)>(board: Grid<T>, target: T, length: nat, r: int, c: int)
  {
    forall j :: 0 <= j < 4 ==> !LineOf(board, Position(r, c), Directions[j], length, target)
  }

  /** checkWinCondition: true iff `target` has a line of `winLength` cells somewhere. */
  method CheckWinCondition<T(==)>(board: Grid<T>, target: T, winLength: nat) returns (won: bool)
    ensures won <==> HasLine(board, target, winLength)
  {
    var cols := GetBoardDimensions(board).cols;
    for row := 0 to |board|
      invariant forall r, c :: 0 <= r < row && 0 <= c < cols ==> NoLineFrom(board, target, winLength, r, c)
    {
      for col := 0 to |board[0]|
        invariant forall r, c :: (0 <= r < row && 0 <= c < cols) || (r == row && 0 <= c < col) ==>
                    NoLineFrom(board, target, winLength, r, c)
      {
        for j := 0 to 4
          invariant forall j' :: 0 <= j' < j ==> !LineOf(board, Position(row, col), Directions[j'], winLength, target)
        {
          var found := CheckLine(board, Position(row, col), Directions[j], winLength, target);
          if found {
            return true;
          }
        }
      }
    }
    forall r, c, j | 0 <= r < |board| && 0 <= c < cols && 0 <= j < 4
      ensures !LineOf(board, Position(r, c), Directions[j], winLength, target)
    {
      assert NoLineFrom(board, target, winLength, r, c);
    }
    return false;
  }

  /** A cell holding `target` after a write of another value held `target` before it. */
  lemma CellSurvivesWrite<T>(board: Grid<T>, r: int, c: int, v: T, target: T, x: int, y: int)
    requires v != target
    requires CellHolds(SetCell(board, r, c, v), x, y, target)
    ensures CellHolds(board, x, y, target)
  {
    var b := SetCell(board, r, c, v);
    assert |b| == |board| && |b[x]| == |board[x]|;
    assert GetBoardDimensions(b) == GetBoardDimensions(board);
    assert b[x][y] == board[x][y];
  }

  /** A line of `target` after a write of another value was a line of `target` before it. */
  lemma LineOfSurvivesWrite<T>(board: Grid<T>, r: int, c: int, v: T, target: T,
                               start: Position, direction: Position, length: nat)
    requires v != target
    requires LineOf(SetCell(board, r, c, v), start, direction, length, target)
    ensures LineOf(board, start, direction, length, target)
  {
    forall i | 0 <= i < length
      ensures CellHolds(board, start.row + i * direction.row, start.col + i * direction.col, target)
    {
      CellSurvivesWrite(board, r, c, v, target, start.row + i * direction.row, start.col + i * direction.col);
    }
  }

  /** Overwriting one cell with a value other than `target` cannot create a line of `target`. */
  lemma LineSurvivesWrite<T>(board: Grid<T>, r: int, c: int, v: T, target: T, length: nat)
    requires 0 <= r < |board| && 0 <= c < |board[r]|
    requires v != target
    requires HasLine(SetCell(board, r, c, v), target, length)
    ensures HasLine(board, target, length)
  {
    var b := SetCell(board, r, c, v);
    var r0, c0, j :| 0 <= r0 < |b| && 0 <= c0 < GetBoardDimensions(b).cols && 0 <= j < 4 &&
      LineOf(b, Position(r0, c0), Directions[j], length, target);
    assert GetBoardDimensions(b) == GetBoardDimensions(board);
    LineOfSurvivesWrite(board, r, c, v, target, Position(r0, c0), Directions[j], length);
  }

  /** A board filled with a single value has no non-empty line of any other value. */
  lemma UniformBoardHasNoLine<T>(rows: nat, cols: nat, v: T, target: T, length: nat)
    requires length > 0 && v != target
    ensures !HasLine(CreateBoard(rows, cols, v), target, length)
  {
    var b := CreateBoard(rows, cols, v);
    forall r, c, j | 0 <= r < |b| && 0 <= c < GetBoardDimensions(b).cols && 0 <= j < 4
      ensures !LineOf(b, Position(r, c), Directions[j], length, target)
    {
      var d := Directions[j];
      assert !CellHolds(b, r + 0 * d.row, c + 0 * d.col, target);
    }
  }

  // ---------------------------------------------------------------------------
  // Tic-tac-toe and five-in-row winners and draws
  // ---------------------------------------------------------------------------

  const PlayerX: string := "X"
  const PlayerO: string := "O"

  /** checkTicTacToeWin: the scan of checkWinCondition for lines of three. */
  method CheckTicTacToeWin(board: Grid<string>, player: string) returns (won: bool)
    ensures won <==> HasLine(board, player, 3)
  {
    won := CheckWinCondition(board, player, 3);
  }

  /**
   * 'X' if X has three in a line (even when O has one too), else 'O' if O has,
   * else none: the two checks of CheckTicTacToeWin, X first.
   */
  function GetTicTacToeWinner(board: Grid<string>): (winner: Option<string>)
    ensures winner == Some(PlayerX) <==> HasLine(board, PlayerX, 3)
    ensures winner == Some(PlayerO) <==> !HasLine(board, PlayerX, 3) && HasLine(board, PlayerO, 3)
    ensures winner == None <==> !HasLine(board, PlayerX, 3) && !HasLine(board, PlayerO, 3)
  {
    if HasLine(board, PlayerX, 3) then Some(PlayerX)
    else if HasLine(board, PlayerO, 3) then Some(PlayerO)
    else None
  }

  /** A draw: no cell is empty and nobody has three in a line. */
  function IsTicTacToeDraw(board: Grid<string>): (draw: bool)
    ensures draw <==> (forall r, c :: 0 <= r < |board| && 0 <= c < |board[r]| ==> board[r][c] != Empty) &&
                      !HasLine(board, PlayerX, 3) && !HasLine(board, PlayerO, 3)
  {
    IsBoardFullMeans(board, Empty);
    IsBoardFull(board, Empty) && GetTicTacToeWinner(board).None?
  }

  /** checkFiveInRowWin: the scan of checkWinCondition for lines of five. */
  method CheckFiveInRowWin(board: Grid<string>, player: string) returns (won: bool)
    ensures won <==> HasLine(board, player, 5)
  {
    won := CheckWinCondition(board, player, 5);
  }

  /**
   * 'X' if X has five in a line (even when O has one too), else 'O' if O has,
   * else none: the two checks of CheckFiveInRowWin, X first.
   */
  function GetFiveInRowWinner(board: Grid<string>): (winner: Option<string>)
    ensures winner == Some(PlayerX) <==> HasLine(board, PlayerX, 5)
    ensures winner == Some(PlayerO) <==> !HasLine(board, PlayerX, 5) && HasLine(board, PlayerO, 5)
    ensures winner == None <==> !HasLine(board, PlayerX, 5) && !HasLine(board, PlayerO, 5)
  {
    if HasLine(board, PlayerX, 5) then Some(PlayerX)
    else if HasLine(board, PlayerO, 5) then Some(PlayerO)
    else None
  }

  // ---------------------------------------------------------------------------
  // Shuffling with the random choices supplied by the caller
  // ---------------------------------------------------------------------------

  /** Exchanging an element with itself changes nothing. */
  lemma SwapSelf<T>(s: seq<T>, i: int)
    requires 0 <= i < |s|
    ensures s[i := s[i]][i := s[i]] == s
  {
  }

  /** Exchanging two elements keeps the same elements. */
  lemma SwapPermutes<T>(s: seq<T>, i: int, j: int)
    requires 0 <= i < |s| && 0 <= j < |s|
    ensures multiset(s[i := s[j]][j := s[i]]) == multiset(s)
  {
    var t := s[i := s[j]];
    assert multiset(t) == multiset(s) - multiset{s[i]} + multiset{s[j]};
    assert multiset(t[j := s[i]]) == multiset(t) - multiset{t[j]} + multiset{s[i]};
  }

  /**
   * shuffleArray: walks `i` from the last index down to 1 and swaps element `i`
   * with element `picks[i]`, the index the random draw chose in `0..i`. The
   * result is a permutation of the input; when every draw picks `i` itself,
   * nothing moves.
   */
  method ShuffleArray<T>(items: seq<T>, picks: seq<int>) returns (shuffled: seq<T>)
    requires |picks| == |items|
    requires forall i :: 0 < i < |items| ==> 0 <= picks[i] <= i
    ensures |shuffled| == |items|
    ensures multiset(shuffled) == multiset(items)
    ensures (forall i :: 0 < i < |items| ==> picks[i] == i) ==> shuffled == items
  {
    if |items| == 0 {
      return [];
    }
    var a := new T[|items|](k requires 0 <= k < |items| => items[k]);
    assert a[..] == items;
    var i := a.Length - 1;
    while i > 0
      invariant 0 <= i < a.Length
      invariant multiset(a[..]) == multiset(items)
      invariant (forall k :: 0 < k < |items| ==> picks[k] == k) ==> a[..] == items
    {
      var j := picks[i];
      ghost var before := a[..];
      a[i], a[j] := a[j], a[i];
      assert a[..] == before[i := before[j]][j := before[i]];
      SwapPermutes(before, i, j);
      if j == i {
        SwapSelf(before, i);
      }
      i := i - 1;
    }
    shuffled := a[..];
  }

  // ---------------------------------------------------------------------------
  // Decimal strings and mm:ss
  // ---------------------------------------------------------------------------

  predicate IsDigit(ch: char)
  {
    '0' <= ch <= '9'
  }

  predicate AllDigits(s: string)
  {
    forall i :: 0 <= i < |s| ==> IsDigit(s[i])
  }

  function DigitChar(d: nat): (ch: char)
    requires d < 10
    ensures IsDigit(ch) && ch as int - '0' as int == d
  {
    (48 + d) as char
  }

  /** `n.toString()`: decimal digits, no leading zero except for 0 itself. */
  function NatToString(n: nat): (s: string)
    ensures 1 <= |s| && AllDigits(s)
    ensures |s| > 1 ==> s[0] != '0'
    ensures n < 10 <==> |s| == 1
    ensures n < 100 ==> |s| <= 2
  {
    if n < 10 then [DigitChar(n)] else NatToString(n / 10) + [DigitChar(n % 10)]
  }

  /** The value of a string of decimal digits. */
  function ParseDigits(s: string): nat
    requires AllDigits(s)
  {
    if |s| == 0 then 0 else 10 * ParseDigits(s[..|s| - 1]) + (s[|s| - 1] as int - '0' as int)
  }

  lemma {:induction false} ParseNatToString(n: nat)
    ensures ParseDigits(NatToString(n)) == n
  {
    if n >= 10 {
      ParseNatToString(n / 10);
      var s := NatToString(n);
      assert s[..|s| - 1] == NatToString(n / 10);
    }
  }

  lemma {:induction false} ParseLeadingZeros(z: nat, s: string)
    requires AllDigits(s)
    ensures AllDigits(seq(z, _ => '0') + s)
    ensures ParseDigits(seq(z, _ => '0') + s) == ParseDigits(s)
    decreases |s|, z
  {
    var t := seq(z, _ => '0') + s;
    if |s| > 0 {
      ParseLeadingZeros(z, s[..|s| - 1]);
      assert t[..|t| - 1] == seq(z, _ => '0') + s[..|s| - 1];
    } else if z > 0 {
      ParseLeadingZeros(z - 1, s);
      assert t[..|t| - 1] == seq(z - 1, _ => '0') + s;
    }
  }

  /** `s.padStart(width, '0')`: `s` preceded by as many '0's as bring it to `width`. */
  function PadStartZero(s: string, width: nat): (padded: string)
    ensures |padded| == if |s| >= width then |s| else width
    ensures padded == seq(|padded| - |s|, _ => '0') + s
  {
    if |s| >= width then s else seq(width - |s|, _ => '0') + s
  }

  /** `text` is minutes and seconds, as decimal digits, separated by ':', the
      seconds part exactly two digits and the minutes part at least two. */
  predicate ShowsTime(text: string, mins: nat, secs: nat)
  {
    && |text| >= 5 && text[|text| - 3] == ':'
    && AllDigits(text[..|text| - 3]) && AllDigits(text[|text| - 2..])
    && ParseDigits(text[..|text| - 3]) == mins
    && ParseDigits(text[|text| - 2..]) == secs
  }

  /** The two parts of `mm:ss` are the slices before and after the separator. */
  lemma TimeParts(mm: string, ss: string)
    requires |ss| == 2
    ensures var text := mm + ":" + ss;
            |text| == |mm| + 3 && text[|text| - 3] == ':' && text[..|text| - 3] == mm && text[|text| - 2..] == ss
  {
    var text := mm + ":" + ss;
    assert text[..|mm|] == mm;
    assert text[|mm| + 1..] == ss;
  }

  lemma TimeLayout(mm: string, ss: string)
    requires |mm| >= 2 && |ss| == 2 && AllDigits(mm) && AllDigits(ss)
    ensures ShowsTime(mm + ":" + ss, ParseDigits(mm), ParseDigits(ss))
  {
    TimeParts(mm, ss);
  }

  /** The digits of `n.toString().padStart(2, '0')` read back as `n`. */
  lemma PaddedDecimal(n: nat)
    ensures var p := PadStartZero(NatToString(n), 2);
            |p| >= 2 && (n < 100 ==> |p| == 2) && AllDigits(p) && ParseDigits(p) == n
    ensures var p := PadStartZero(NatToString(n), 2);
            |p| > 2 ==> p[0] != '0'
  {
    var s := NatToString(n);
    ParseNatToString(n);
    ParseLeadingZeros(|PadStartZero(s, 2)| - |s|, s);
  }

  /** formatGameTime: whole minutes, then ':', then the remaining seconds (below 60). */
  function FormatGameTime(seconds: nat): (text: string)
    ensures ShowsTime(text, seconds / 60, seconds % 60)
    ensures |text| > 5 ==> text[0] != '0'
  {
    var mm := PadStartZero(NatToString(seconds / 60), 2);
    var ss := PadStartZero(NatToString(seconds % 60), 2);
    PaddedDecimal(seconds / 60);
    PaddedDecimal(seconds % 60);
    TimeLayout(mm, ss);
    mm + ":" + ss
  }

  /** Reads minutes and seconds back out of an "mm:ss" string. */
  function ParseGameTime(text: string): Option<nat>
  {
    if |text| >= 5 && text[|text| - 3] == ':' && AllDigits(text[..|text| - 3]) && AllDigits(text[|text| - 2..])
    then
      var mins := ParseDigits(text[..|text| - 3]);
      var secs := ParseDigits(text[|text| - 2..]);
      if secs < 60 then Some(60 * mins + secs) else None
    else None
  }

  /** Any text that shows the minutes and seconds of `seconds` reads back as `seconds`. */
  lemma ParseShownTime(text: string, seconds: nat)
    requires ShowsTime(text, seconds / 60, seconds % 60)
    ensures ParseGameTime(text) == Some(seconds)
  {
    assert 60 * (seconds / 60) + seconds % 60 == seconds;
  }

  /** The formatted time reads back as the number of seconds it was made from. */
  lemma FormatGameTimeRoundTrip(seconds: nat)
    ensures ParseGameTime(FormatGameTime(seconds)) == Some(seconds)
  {
    ParseShownTime(FormatGameTime(seconds), seconds);
  }
}
