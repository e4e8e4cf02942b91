/**
 * The standalone rule engine `GameLogic`: a 3x3 grid of rows and columns,
 * the mark to move, the winner and a game-over flag, updated in place.  The
 * grid is read row by row as the nine-cell board of the `Board` module, so
 * both engines are judged by the same lines.
 */
module Logic {
  import opened Wrappers
  import opened Board

  /** `{ success: true }` or `{ success: false, message }`. */
  datatype MoveResult = Success | Failure(message: string)

  /**
   * The engine's invariant on values: the winner is the mark of the first
   * complete line in scan order, the game is over exactly when there is a
   * winner or the grid is full, the winner's opponent holds no line, and
   * moves alternate starting with X.
   */
  ghost predicate Consistent(cells: seq<Cell>, current: Mark, winner: Option<Mark>, over: bool)
  {
    && |cells| == 9
    && winner == FirstWinMark(cells)
    && over == (winner.Some? || IsFull(cells))
    && (winner.Some? ==> !Wins(cells, Other(winner.value)))
    && TurnParity(cells, current, over)
  }

  /**
   * A move on an unfinished grid keeps the invariant: if it completes a line,
   * that line is the mover's and the mover keeps the turn; otherwise the game
   * is over exactly when the grid is full, and the turn passes if it is not.
   */
  lemma PlaceKeepsConsistent(cells: seq<Cell>, i: int, mover: Mark)
    requires Consistent(cells, mover, None, false) && 0 <= i < 9 && cells[i] == Empty
    ensures var after := cells[i := Marked(mover)];
      var winner := FirstWinMark(after);
      var over := winner.Some? || IsFull(after);
      && (winner.Some? ==> winner == Some(mover))
      && Consistent(after, if over then mover else Other(mover), winner, over)
  {
    var after := cells[i := Marked(mover)];
    MoveDecides(cells, i, mover);
    ParityAfterMove(cells, i, mover, FirstWinMark(after).Some? || IsFull(after));
  }

  /** The state after `reset` satisfies the invariant. */
  lemma ResetConsistent()
    ensures Consistent(EmptyBoard, X, None, false)
  {
    EmptyBoardParity();
  }

  /** A scan whose first complete pattern is number `k` reports that pattern's mark. */
  lemma ScanHit(cells: seq<Cell>, k: int)
    requires |cells| == 9 && 0 <= k < |WinPatterns| && Complete(cells, WinPatterns[k])
    requires forall j | 0 <= j < k :: !Complete(cells, WinPatterns[j])
    ensures FirstWinMark(cells) == Some(cells[WinPatterns[k].0].mark)
  {
    FirstCompleteAt(cells, WinPatterns, k);
  }

  class GameLogic {
    var board: array2<Cell>
    var currentPlayer: Mark
    var winner: Option<Mark>
    var gameOver: bool
    /** The grid read row by row: cell (r, c) is at `Index(r, c)`. */
    ghost var cells: seq<Cell>

    /** `cells` is the 3x3 grid read row by row. */
    ghost predicate Mirrors()
      reads this, board
    {
      && board.Length0 == 3 && board.Length1 == 3 && |cells| == 9
      && forall r, c | 0 <= r < 3 && 0 <= c < 3 :: cells[Index(r, c)] == board[r, c]
    }

    ghost predicate Valid()
      reads this, board
    {
      Mirrors() && Consistent(cells, currentPlayer, winner, gameOver)
    }

    /** A new engine starts from `reset`. */
    constructor ()
      ensures Valid() && fresh(board)
      ensures cells == EmptyBoard && currentPlayer == X && winner == None && !gameOver
    {
      board := new Cell[3, 3]((r, c) => Empty);
      currentPlayer := X;
      winner := None;
      gameOver := false;
      cells := EmptyBoard;
      new;
      forall r, c | 0 <= r < 3 && 0 <= c < 3
        ensures cells[Index(r, c)] == board[r, c]
      {
        assert cells[Index(r, c)] == Empty;
      }
      ResetConsistent();
    }

    /** A fresh empty grid, X to move, no winner, not over, whatever the state before. */
    method Reset()
      modifies this
      ensures Valid() && fresh(board)
      ensures cells == EmptyBoard && currentPlayer == X && winner == None && !gameOver
    {
      board := new Cell[3, 3]((r, c) => Empty);
      currentPlayer := X;
      winner := None;
      gameOver := false;
      cells := EmptyBoard;
      forall r, c | 0 <= r < 3 && 0 <= c < 3
        ensures cells[Index(r, c)] == board[r, c]
      {
        assert cells[Index(r, c)] == Empty;
      }
      ResetConsistent();
    }

    /** The grid as rows of cells. */
    function GetBoard(): (rows: seq<seq<Cell>>)
      reads this, board
      requires Mirrors()
      ensures |rows| == 3
      ensures forall r | 0 <= r < 3 :: |rows[r]| == 3
      ensures forall r, c | 0 <= r < 3 && 0 <= c < 3 :: rows[r][c] == cells[Index(r, c)]
    {
      [[board[0, 0], board[0, 1], board[0, 2]],
       [board[1, 0], board[1, 1], board[1, 2]],
       [board[2, 0], board[2, 1], board[2, 2]]]
    }

    /** The mark to move: X exactly when both marks have been placed equally often, while the game is on. */
    function GetCurrentPlayer(): (m: Mark)
      reads this, board
      requires Valid()
      ensures !gameOver ==> (m == X <==> Count(cells, X) == Count(cells, O))
    {
      currentPlayer
    }

    /** The winner, present exactly when some line is complete; it holds a line and its opponent does not. */
    function GetWinner(): (w: Option<Mark>)
      reads this, board
      requires Valid()
      ensures w.Some? <==> ThreeInARow(cells)
      ensures w.Some? ==> Wins(cells, w.value) && !Wins(cells, Other(w.value))
    {
      winner
    }

    /** A draw is a full grid without a complete line. */
    function IsDraw(): (draw: bool)
      reads this, board
      requires Valid()
      ensures draw <==> IsFull(cells) && !ThreeInARow(cells)
    {
      gameOver && winner.None?
    }

    /** The game is over exactly when some line is complete or the grid is full. */
    function IsGameOver(): (over: bool)
      reads this, board
      requires Valid()
      ensures over <==> ThreeInARow(cells) || IsFull(cells)
    {
      gameOver
    }

    /**
     * The move of the mark to play at (row, col).  Refused, with nothing
     * changed, for a position off the grid, after the game is over and on an
     * occupied cell, checked in that order.  Otherwise exactly that cell takes
     * the mover's mark; the mover wins if that completes a line, the game is
     * over on a line or a full grid, and the turn passes only if it is not.
     */
    method MakeMove(row: int, col: int) returns (result: MoveResult)
      requires Valid()
      modifies this, board
      ensures Valid() && board == old(board)
      ensures !(0 <= row < 3 && 0 <= col < 3) ==> result == Failure("Invalid position")
      ensures 0 <= row < 3 && 0 <= col < 3 && old(gameOver) ==> result == Failure("Game is already over")
      ensures 0 <= row < 3 && 0 <= col < 3 && !old(gameOver) && old(board[row, col]) != Empty ==>
                result == Failure("Cell is already occupied")
      ensures result.Success? <==> 0 <= row < 3 && 0 <= col < 3 && !old(gameOver) && old(board[row, col]) == Empty
      ensures result.Failure? ==> unchanged(this, board)
      ensures result.Success? ==>
                && cells == old(cells)[Index(row, col) := Marked(old(currentPlayer))]
                && winner == (if ThreeInARow(cells) then Some(old(currentPlayer)) else None)
                && gameOver == (ThreeInARow(cells) || IsFull(cells))
                && currentPlayer == (if gameOver then old(currentPlayer) else Other(old(currentPlayer)))
    {
      if row < 0 || row > 2 || col < 0 || col > 2 {
        return Failure("Invalid position");
      }
      if gameOver {
        return Failure("Game is already over");
      }
      if board[row, col] != Empty {
        return Failure("Cell is already occupied");
      }
      Place(row, col);
      result := Success;
    }

    /** A legal move: the mark to play goes into (row, col) and the outcome is recorded. */
    method Place(row: int, col: int)
      requires Valid() && 0 <= row < 3 && 0 <= col < 3 && !gameOver && board[row, col] == Empty
      modifies this, board
      ensures Valid() && board == old(board)
      ensures cells == old(cells)[Index(row, col) := Marked(old(currentPlayer))]
      ensures winner == (if ThreeInARow(cells) then Some(old(currentPlayer)) else None)
      ensures gameOver == (ThreeInARow(cells) || IsFull(cells))
      ensures currentPlayer == (if gameOver then old(currentPlayer) else Other(old(currentPlayer)))
    {
      PlaceKeepsConsistent(cells, Index(row, col), currentPlayer);
      board[row, col] := Marked(currentPlayer);
      cells := cells[Index(row, col) := Marked(currentPlayer)];
      forall r, c | 0 <= r < 3 && 0 <= c < 3
        ensures cells[Index(r, c)] == board[r, c]
      {
        if r != row || c != col {
          assert Index(r, c) != Index(row, col);
        }
      }

      CheckWinner();

      if winner.None? {
        var full := IsBoardFull();
        if full {
          gameOver := true;
        }
      }

      if !gameOver {
        currentPlayer := Other(currentPlayer);
      }
    }

    /**
     * The winner scan: rows, then columns, then the main diagonal, then the
     * anti-diagonal.  The first complete line sets the winner to its mark and
     * ends the game; if there is none, nothing changes.
     */
    method CheckWinner()
      requires Mirrors()
      modifies this`winner, this`gameOver
      ensures var first := FirstWinMark(cells);
        && (first.Some? ==> winner == first && gameOver)
        && (first.None? ==> winner == old(winner) && gameOver == old(gameOver))
    {
      PatternShapes();
      for row := 0 to 3
        invariant forall k | 0 <= k < row :: !Complete(cells, WinPatterns[k])
      {
        if board[row, 0] != Empty && board[row, 0] == board[row, 1] && board[row, 1] == board[row, 2] {
          ScanHit(cells, row);
          winner := Some(board[row, 0].mark);
          gameOver := true;
          return;
        }
      }

      for col := 0 to 3
        invariant forall k | 0 <= k < 3 + col :: !Complete(cells, WinPatterns[k])
      {
        if board[0, col] != Empty && board[0, col] == board[1, col] && board[1, col] == board[2, col] {
          ScanHit(cells, 3 + col);
          winner := Some(board[0, col].mark);
          gameOver := true;
          return;
        }
      }

      if board[0, 0] != Empty && board[0, 0] == board[1, 1] && board[1, 1] == board[2, 2] {
        ScanHit(cells, 6);
        winner := Some(board[0, 0].mark);
        gameOver := true;
        return;
      }

      if board[0, 2] != Empty && board[0, 2] == board[1, 1] && board[1, 1] == board[2, 0] {
        ScanHit(cells, 7);
        winner := Some(board[0, 2].mark);
        gameOver := true;
        return;
      }
    }

    /** The grid is full exactly when no cell is empty. */
    method IsBoardFull() returns (full: bool)
      requires Mirrors()
      ensures full <==> IsFull(cells)
    {
      for row := 0 to 3
        invariant forall r, c | 0 <= r < row && 0 <= c < 3 :: board[r, c] != Empty
      {
        for col := 0 to 3
          invariant forall c | 0 <= c < col :: board[row, c] != Empty
        {
          if board[row, col] == Empty {
            assert cells[Index(row, col)] == Empty;
            return false;
          }
        }
      }
      forall i | 0 <= i < 9
        ensures cells[i] != Empty
      {
        assert i == Index(i / 3, i % 3);
      }
      return true;
    }
  }
}
