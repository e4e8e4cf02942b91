/**
 * The 3x3 board shared by both rule engines: marks, cells, the eight winning
 * lines and the move-parity bookkeeping.  A board is a row-major sequence of
 * nine cells; the cell at (row, col) is at index 3 * row + col.
 */
module Board {
  import opened Wrappers

  /** A player's symbol, 'X' or 'O'. */
  datatype Mark = X | O

  /** The symbol that moves after `m`. */
  function Other(m: Mark): (r: Mark)
    ensures r != m
  {
    if m == X then O else X
  }

  /** A cell is empty (null on the server, '' in the standalone engine) or holds a mark. */
  datatype Cell = Empty | Marked(mark: Mark)

  const EmptyBoard: seq<Cell> := [Empty, Empty, Empty, Empty, Empty, Empty, Empty, Empty, Empty]

  /** Position of the cell at `row`, `col` in the row-major board. */
  function Index(row: int, col: int): (i: int)
    requires 0 <= row < 3 && 0 <= col < 3
    ensures 0 <= i < 9
  {
    3 * row + col
  }

  // ---------------------------------------------------------------------
  // Reference definition of a win, by geometry
  // ---------------------------------------------------------------------

  predicate RowOf(b: seq<Cell>, row: int, m: Mark)
    requires |b| == 9 && 0 <= row < 3
  {
    forall col | 0 <= col < 3 :: b[Index(row, col)] == Marked(m)
  }

  predicate ColumnOf(b: seq<Cell>, col: int, m: Mark)
    requires |b| == 9 && 0 <= col < 3
  {
    forall row | 0 <= row < 3 :: b[Index(row, col)] == Marked(m)
  }

  predicate DiagonalOf(b: seq<Cell>, m: Mark)
    requires |b| == 9
  {
    b[Index(0, 0)] == b[Index(1, 1)] == b[Index(2, 2)] == Marked(m)
  }

  predicate AntiDiagonalOf(b: seq<Cell>, m: Mark)
    requires |b| == 9
  {
    b[Index(0, 2)] == b[Index(1, 1)] == b[Index(2, 0)] == Marked(m)
  }

  /** `m` holds a full row, a full column or a full diagonal. */
  predicate Wins(b: seq<Cell>, m: Mark)
    requires |b| == 9
  {
    || (exists row | 0 <= row < 3 :: RowOf(b, row, m))
    || (exists col | 0 <= col < 3 :: ColumnOf(b, col, m))
    || DiagonalOf(b, m)
    || AntiDiagonalOf(b, m)
  }

  predicate ThreeInARow(b: seq<Cell>)
    requires |b| == 9
  {
    Wins(b, X) || Wins(b, O)
  }

  /** No cell is empty. */
  predicate IsFull(b: seq<Cell>)
  {
    forall i | 0 <= i < |b| :: b[i] != Empty
  }

  // ---------------------------------------------------------------------
  // The pattern table both engines scan, in their order
  // ---------------------------------------------------------------------

  type Pattern = (int, int, int)

  function RowPattern(row: int): Pattern { (3 * row, 3 * row + 1, 3 * row + 2) }
  function ColumnPattern(col: int): Pattern { (col, col + 3, col + 6) }

  /** Rows, then columns, then the main diagonal, then the anti-diagonal. */
  const WinPatterns: seq<Pattern> :=
    [RowPattern(0), RowPattern(1), RowPattern(2),
     ColumnPattern(0), ColumnPattern(1), ColumnPattern(2),
     (0, 4, 8), (2, 4, 6)]

  /** The three cells of `p` hold the same mark. */
  predicate Complete(b: seq<Cell>, p: Pattern)
  {
    && 0 <= p.0 < |b| && 0 <= p.1 < |b| && 0 <= p.2 < |b|
    && b[p.0] != Empty && b[p.0] == b[p.1] && b[p.0] == b[p.2]
  }

  /** `patterns.some(complete)`: true as soon as one pattern is complete. */
  function AnyComplete(b: seq<Cell>, patterns: seq<Pattern>): (r: bool)
    ensures r <==> exists k | 0 <= k < |patterns| :: Complete(b, patterns[k])
  {
    if patterns == [] then false
    else if Complete(b, patterns[0]) then true
    else
      var rest := AnyComplete(b, patterns[1..]);
      assert forall k | 1 <= k < |patterns| :: patterns[k] == patterns[1..][k - 1];
      rest
  }

  /** The mark on the first complete pattern, scanning in order. */
  function FirstComplete(b: seq<Cell>, patterns: seq<Pattern>): (r: Option<Mark>)
    ensures r.None? <==> forall k | 0 <= k < |patterns| :: !Complete(b, patterns[k])
    ensures r.Some? ==> exists k | 0 <= k < |patterns| ::
      && Complete(b, patterns[k]) && b[patterns[k].0] == Marked(r.value)
      && forall j | 0 <= j < k :: !Complete(b, patterns[j])
  {
    if patterns == [] then None
    else if Complete(b, patterns[0]) then Some(b[patterns[0].0].mark)
    else
      var rest := FirstComplete(b, patterns[1..]);
      assert forall k | 1 <= k < |patterns| :: patterns[k] == patterns[1..][k - 1];
      if rest.Some? then
        var k :| 0 <= k < |patterns| - 1 && Complete(b, patterns[1..][k]) && b[patterns[1..][k].0] == Marked(rest.value)
                 && forall j | 0 <= j < k :: !Complete(b, patterns[1..][j]);
        assert Complete(b, patterns[k + 1]);
        rest
      else rest
  }

  /** The first complete pattern determines the result of a first-match scan. */
  lemma FirstCompleteAt(b: seq<Cell>, patterns: seq<Pattern>, k: int)
    requires 0 <= k < |patterns| && Complete(b, patterns[k])
    requires forall j | 0 <= j < k :: !Complete(b, patterns[j])
    ensures FirstComplete(b, patterns) == Some(b[patterns[k].0].mark)
  {
    var r := FirstComplete(b, patterns);
    var k' :| 0 <= k' < |patterns| && Complete(b, patterns[k']) && b[patterns[k'].0] == Marked(r.value)
              && forall j | 0 <= j < k' :: !Complete(b, patterns[j]);
    assert k' == k;
  }

  lemma PatternShapes()
    ensures forall row | 0 <= row < 3 :: WinPatterns[row] == RowPattern(row)
    ensures forall col | 0 <= col < 3 :: WinPatterns[3 + col] == ColumnPattern(col)
    ensures WinPatterns[6] == (0, 4, 8) && WinPatterns[7] == (2, 4, 6) && |WinPatterns| == 8
  {
  }

  /** A complete pattern is a geometric line of its mark. */
  lemma CompleteWins(b: seq<Cell>, k: int)
    requires |b| == 9 && 0 <= k < 8 && Complete(b, WinPatterns[k])
    ensures Wins(b, b[WinPatterns[k].0].mark)
  {
    PatternShapes();
    var m := b[WinPatterns[k].0].mark;
    if k < 3 {
      assert RowOf(b, k, m);
    } else if k < 6 {
      assert ColumnOf(b, k - 3, m);
    } else if k == 6 {
      assert DiagonalOf(b, m);
    } else {
      assert AntiDiagonalOf(b, m);
    }
  }

  /** A geometric line of `m` is a complete pattern holding `m`. */
  lemma WinsComplete(b: seq<Cell>, m: Mark)
    requires |b| == 9 && Wins(b, m)
    ensures exists k | 0 <= k < 8 :: Complete(b, WinPatterns[k]) && b[WinPatterns[k].0] == Marked(m)
  {
    PatternShapes();
    if row :| 0 <= row < 3 && RowOf(b, row, m) {
      assert b[Index(row, 0)] == b[Index(row, 1)] == b[Index(row, 2)] == Marked(m);
      assert Complete(b, WinPatterns[row]);
    } else if col :| 0 <= col < 3 && ColumnOf(b, col, m) {
      assert b[Index(0, col)] == b[Index(1, col)] == b[Index(2, col)] == Marked(m);
      assert Complete(b, WinPatterns[3 + col]);
    } else if DiagonalOf(b, m) {
      assert b[Index(0, 0)] == b[Index(1, 1)] == b[Index(2, 2)] == Marked(m);
      assert Complete(b, WinPatterns[6]);
    } else {
      assert b[Index(0, 2)] == b[Index(1, 1)] == b[Index(2, 0)] == Marked(m);
      assert Complete(b, WinPatterns[7]);
    }
  }

  /** The pattern table finds a complete pattern exactly when the geometry has a line. */
  lemma PatternsAgree(b: seq<Cell>)
    requires |b| == 9
    ensures (exists k | 0 <= k < |WinPatterns| :: Complete(b, WinPatterns[k])) <==> ThreeInARow(b)
    ensures forall k | 0 <= k < |WinPatterns| && Complete(b, WinPatterns[k]) :: Wins(b, b[WinPatterns[k].0].mark)
  {
    forall k | 0 <= k < |WinPatterns| && Complete(b, WinPatterns[k])
      ensures Wins(b, b[WinPatterns[k].0].mark) && ThreeInARow(b)
    {
      CompleteWins(b, k);
      var m := b[WinPatterns[k].0].mark;
      assert m == X || m == O;
    }
    PatternShapes();
    if Wins(b, X) { WinsComplete(b, X); }
    if Wins(b, O) { WinsComplete(b, O); }
  }

  /**
   * The server's `checkWinner`: some pattern of the table is complete.  It
   * agrees with the geometric definition of three in a row.
   */
  function CheckWinner(b: seq<Cell>): (r: bool)
    requires |b| == 9
    ensures r <==> ThreeInARow(b)
  {
    PatternsAgree(b);
    AnyComplete(b, WinPatterns)
  }

  /**
   * The mark of the first complete line in scan order (rows, columns, main
   * diagonal, anti-diagonal), as the standalone engine reports it.
   */
  function FirstWinMark(b: seq<Cell>): (r: Option<Mark>)
    requires |b| == 9
    ensures r.Some? <==> ThreeInARow(b)
    ensures r.Some? ==> Wins(b, r.value)
  {
    PatternsAgree(b);
    FirstComplete(b, WinPatterns)
  }

  /** A line of `o` after `m` was placed on cell `i` was already there before. */
  lemma LineSurvives(b: seq<Cell>, i: int, m: Mark, o: Mark)
    requires |b| == 9 && 0 <= i < 9 && o != m && Wins(b[i := Marked(m)], o)
    ensures Wins(b, o)
  {
    var b' := b[i := Marked(m)];
    assert forall j | 0 <= j < 9 && b'[j] == Marked(o) :: b[j] == Marked(o);
    if row :| 0 <= row < 3 && RowOf(b', row, o) {
      assert RowOf(b, row, o);
    } else if col :| 0 <= col < 3 && ColumnOf(b', col, o) {
      assert ColumnOf(b, col, o);
    } else if DiagonalOf(b', o) {
      assert DiagonalOf(b, o);
    } else {
      assert AntiDiagonalOf(b, o);
    }
  }

  /**
   * Placing `m` on an empty cell of a board without a line cannot give the
   * opponent a line; if the board now has a line, it is `m`'s, and the scan
   * reports `m`.
   */
  lemma MoveDecides(b: seq<Cell>, i: int, m: Mark)
    requires |b| == 9 && 0 <= i < 9 && b[i] == Empty && !ThreeInARow(b)
    ensures var b' := b[i := Marked(m)];
      && !Wins(b', Other(m))
      && (ThreeInARow(b') <==> Wins(b', m))
      && (ThreeInARow(b') ==> FirstWinMark(b') == Some(m))
  {
    var b' := b[i := Marked(m)];
    var o := Other(m);
    if Wins(b', o) {
      LineSurvives(b, i, m, o);
      assert false;
    }
    if ThreeInARow(b') {
      var v := FirstWinMark(b').value;
      assert v == m || v == o;
    }
  }

  // ---------------------------------------------------------------------
  // Move parity
  // ---------------------------------------------------------------------

  /** Number of cells holding `m`. */
  function Count(b: seq<Cell>, m: Mark): (n: nat)
    ensures n <= |b|
  {
    if b == [] then 0 else (if b[0] == Marked(m) then 1 else 0) + Count(b[1..], m)
  }

  /** Filling an empty cell with `m'` adds one to the count of `m'` and nothing else. */
  lemma {:induction false} CountFill(b: seq<Cell>, i: int, m: Mark, m': Mark)
    requires 0 <= i < |b| && b[i] == Empty
    ensures Count(b[i := Marked(m')], m) == Count(b, m) + (if m == m' then 1 else 0)
  {
    if i == 0 {
      assert b[i := Marked(m')][1..] == b[1..];
    } else {
      assert b[i := Marked(m')][1..] == b[1..][i - 1 := Marked(m')];
      CountFill(b[1..], i - 1, m, m');
    }
  }

  lemma {:induction false} CountEmpty(n: nat, m: Mark)
    ensures Count(seq(n, _ => Empty), m) == 0
  {
    if n > 0 {
      assert seq(n, _ => Empty)[1..] == seq(n - 1, _ => Empty);
      CountEmpty(n - 1, m);
    }
  }

  /**
   * Strict alternation, X first, read off the board: X has as many marks as O
   * or one more.  While the game goes on it is X's turn exactly when the
   * counts are equal; once a move has ended it, the turn still names the
   * player who made that last move.
   */
  predicate TurnParity(b: seq<Cell>, current: Mark, over: bool)
  {
    && (Count(b, X) == Count(b, O) || Count(b, X) == Count(b, O) + 1)
    && (current == X <==> (Count(b, X) == Count(b, O)) != over)
  }

  lemma EmptyBoardParity()
    ensures |EmptyBoard| == 9 && !ThreeInARow(EmptyBoard) && !IsFull(EmptyBoard)
    ensures TurnParity(EmptyBoard, X, false)
  {
    assert EmptyBoard == seq(9, _ => Empty);
    CountEmpty(9, X);
    CountEmpty(9, O);
    assert EmptyBoard[0] == Empty;
    if Wins(EmptyBoard, X) { WinsComplete(EmptyBoard, X); }
    if Wins(EmptyBoard, O) { WinsComplete(EmptyBoard, O); }
  }

  /**
   * The player whose turn it is fills an empty cell: the parity holds again,
   * with the turn passed on if the game continues and kept if it ended.
   */
  lemma ParityAfterMove(b: seq<Cell>, i: int, current: Mark, over: bool)
    requires 0 <= i < |b| && b[i] == Empty && TurnParity(b, current, false)
    ensures TurnParity(b[i := Marked(current)], if over then current else Other(current), over)
  {
    CountFill(b, i, X, current);
    CountFill(b, i, O, current);
  }
}
