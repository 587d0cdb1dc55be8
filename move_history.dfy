/**
 * The move log that connect-four and five-in-row keep for undo: each entry
 * records the cell played, the player who played it and the move number it
 * was played as. Replaying the log onto an empty board rebuilds the board.
 */
module MoveHistory {
  import opened GameUtils

  /** One entry of `moveHistory`. */
  datatype Move = Move(row: int, col: int, player: string, moveNumber: int)

  type Board = Grid<string>

  /** The board obtained by playing `history` in order on an empty `rows` by `cols` board. */
  function Replay(history: seq<Move>, rows: nat, cols: nat): (board: Board)
    ensures |board| == rows && forall r :: 0 <= r < rows ==> |board[r]| == cols
    decreases |history|
  {
    if |history| == 0 then CreateBoard(rows, cols, Empty)
    else
      var m := history[|history| - 1];
      SetCell(Replay(history[..|history| - 1], rows, cols), m.row, m.col, m.player)
  }

  /** Whose turn the `i`-th move (counting from 0) is, when `first` opens and turns alternate. */
  function Alternate(i: nat, first: string, second: string): string
  {
    if i % 2 == 0 then first else second
  }

  /** Turns alternate: the player after `first`'s turn is `second`, and the other way round. */
  lemma AlternateFlips(i: nat, first: string, second: string)
    requires first != second
    ensures Alternate(i + 1, first, second) == (if Alternate(i, first, second) == first then second else first)
  {
    if i % 2 == 0 {
      assert (i + 1) % 2 == 1;
    } else {
      assert (i + 1) % 2 == 0;
    }
  }

  /**
   * Every entry was a legal placement when it was made: on the board, on an
   * empty cell, by the player whose turn it was, numbered one more than the
   * number of moves before it.
   */
  ghost predicate WellPlayed(history: seq<Move>, rows: nat, cols: nat, first: string, second: string)
    decreases |history|
  {
    |history| == 0 ||
    (var before := history[..|history| - 1];
     var m := history[|history| - 1];
     && WellPlayed(before, rows, cols, first, second)
     && 0 <= m.row < rows && 0 <= m.col < cols
     && Replay(before, rows, cols)[m.row][m.col] == Empty
     && m.player == Alternate(|before|, first, second)
     && m.moveNumber == |before| + 1)
  }

  /** Each entry of a well-played history is on the board, carries the player whose turn it was and its 1-based move number. */
  lemma {:induction false} WellPlayedEntries(history: seq<Move>, rows: nat, cols: nat, first: string, second: string)
    requires WellPlayed(history, rows, cols, first, second)
    ensures forall i :: 0 <= i < |history| ==>
              && 0 <= history[i].row < rows && 0 <= history[i].col < cols
              && history[i].player == Alternate(i, first, second)
              && history[i].moveNumber == i + 1
  {
    if |history| > 0 {
      var before := history[..|history| - 1];
      WellPlayedEntries(before, rows, cols, first, second);
      assert forall i :: 0 <= i < |before| ==> history[i] == before[i];
    }
  }

  /** Clearing the cell of the last entry gives back the board of the shorter history. */
  lemma ClearLastEntry(history: seq<Move>, rows: nat, cols: nat, first: string, second: string)
    requires |history| > 0 && WellPlayed(history, rows, cols, first, second)
    ensures var m := history[|history| - 1];
            SetCell(Replay(history, rows, cols), m.row, m.col, Empty) == Replay(history[..|history| - 1], rows, cols)
  {
    var m := history[|history| - 1];
    SetCellUndo(Replay(history[..|history| - 1], rows, cols), m.row, m.col, m.player);
  }

  /** Every entry's cell still holds that entry's player: a later move never overwrites an earlier one. */
  lemma {:induction false} ReplayHoldsMoves(history: seq<Move>, rows: nat, cols: nat, first: string, second: string)
    requires WellPlayed(history, rows, cols, first, second)
    requires first != Empty && second != Empty
    ensures forall i :: 0 <= i < |history| ==>
              && 0 <= history[i].row < rows && 0 <= history[i].col < cols
              && Replay(history, rows, cols)[history[i].row][history[i].col] == history[i].player
  {
    if |history| > 0 {
      var before := history[..|history| - 1];
      var m := history[|history| - 1];
      ReplayHoldsMoves(before, rows, cols, first, second);
      WellPlayedEntries(history, rows, cols, first, second);
      var b := Replay(before, rows, cols);
      forall i | 0 <= i < |history|
        ensures Replay(history, rows, cols)[history[i].row][history[i].col] == history[i].player
      {
        if i < |before| {
          assert history[i] == before[i];
          assert b[history[i].row][history[i].col] == history[i].player != Empty;
        }
      }
    }
  }

  /**
   * A board built by a well-played history has exactly `|history|` occupied
   * cells, the opening player holding one more than the other after an odd
   * number of moves and as many after an even number.
   */
  lemma {:induction false} ReplayCounts(history: seq<Move>, rows: nat, cols: nat, first: string, second: string)
    requires WellPlayed(history, rows, cols, first, second)
    requires first != Empty && second != Empty && first != second
    ensures Count(Replay(history, rows, cols), Empty) + |history| == rows * cols
    ensures Count(Replay(history, rows, cols), first) == (|history| + 1) / 2
    ensures Count(Replay(history, rows, cols), second) == |history| / 2
  {
    if |history| == 0 {
      CountCreated(rows, cols, Empty, Empty);
      CountCreated(rows, cols, Empty, first);
      CountCreated(rows, cols, Empty, second);
    } else {
      var before := history[..|history| - 1];
      var m := history[|history| - 1];
      ReplayCounts(before, rows, cols, first, second);
      var b := Replay(before, rows, cols);
      CountSetCell(b, m.row, m.col, m.player, Empty);
      CountSetCell(b, m.row, m.col, m.player, first);
      CountSetCell(b, m.row, m.col, m.player, second);
    }
  }
}
