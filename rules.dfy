/** The win rule: a marker wins when all three cells of some row, some column or
    either diagonal hold it; and the Score object that checks it on a live board. */
module Rules {
  import opened Players
  import opened Board

  predicate RowFilled(g: Grid, row: int, m: Marker)
    requires IsGrid(g) && 0 <= row < Rows
  {
    g[row][0] == Marked(m) && g[row][1] == Marked(m) && g[row][2] == Marked(m)
  }

  predicate ColumnFilled(g: Grid, column: int, m: Marker)
    requires IsGrid(g) && 0 <= column < Columns
  {
    g[0][column] == Marked(m) && g[1][column] == Marked(m) && g[2][column] == Marked(m)
  }

  /** The diagonal from the top-left corner to the bottom-right one. */
  predicate DiagonalFilled(g: Grid, m: Marker)
    requires IsGrid(g)
  {
    g[0][0] == Marked(m) && g[1][1] == Marked(m) && g[2][2] == Marked(m)
  }

  /** The diagonal from the top-right corner to the bottom-left one. */
  predicate AntiDiagonalFilled(g: Grid, m: Marker)
    requires IsGrid(g)
  {
    g[0][2] == Marked(m) && g[1][1] == Marked(m) && g[2][0] == Marked(m)
  }

  /** m wins on g: some row, some column or either diagonal is all m. */
  predicate Wins(g: Grid, m: Marker)
    requires IsGrid(g)
  {
    (exists row :: 0 <= row < Rows && RowFilled(g, row, m)) ||
    (exists column :: 0 <= column < Columns && ColumnFilled(g, column, m)) ||
    DiagonalFilled(g, m) || AntiDiagonalFilled(g, m)
  }

  /** The eight lines of the board, each as its three (row, column) coordinates. */
  const Lines: seq<seq<(int, int)>> := [
    [(0, 0), (0, 1), (0, 2)], [(1, 0), (1, 1), (1, 2)], [(2, 0), (2, 1), (2, 2)],
    [(0, 0), (1, 0), (2, 0)], [(0, 1), (1, 1), (2, 1)], [(0, 2), (1, 2), (2, 2)],
    [(0, 0), (1, 1), (2, 2)], [(0, 2), (1, 1), (2, 0)]
  ]

  /** Every cell of the line holds m. */
  predicate LineHeld(g: Grid, line: seq<(int, int)>, m: Marker)
    requires IsGrid(g)
  {
    forall k :: 0 <= k < |line| ==> InBounds(line[k].0, line[k].1) && g[line[k].0][line[k].1] == Marked(m)
  }

  /** The win rule agrees with the list of the eight lines, in both directions. */
  lemma WinsIffSomeLine(g: Grid, m: Marker)
    requires IsGrid(g)
    ensures Wins(g, m) <==> exists k :: 0 <= k < |Lines| && LineHeld(g, Lines[k], m)
  {
    if Wins(g, m) {
      var k: int;
      if exists row :: 0 <= row < Rows && RowFilled(g, row, m) {
        var row :| 0 <= row < Rows && RowFilled(g, row, m);
        k := row;
      } else if exists column :: 0 <= column < Columns && ColumnFilled(g, column, m) {
        var column :| 0 <= column < Columns && ColumnFilled(g, column, m);
        k := 3 + column;
      } else if DiagonalFilled(g, m) {
        k := 6;
      } else {
        k := 7;
      }
      assert LineHeld(g, Lines[k], m);
    }
    if k :| 0 <= k < |Lines| && LineHeld(g, Lines[k], m) {
      var line := Lines[k];
      assert g[line[0].0][line[0].1] == Marked(m);
      assert g[line[1].0][line[1].1] == Marked(m);
      assert g[line[2].0][line[2].1] == Marked(m);
      if k == 0 {
        assert RowFilled(g, 0, m);
      } else if k == 1 {
        assert RowFilled(g, 1, m);
      } else if k == 2 {
        assert RowFilled(g, 2, m);
      } else if k == 3 {
        assert ColumnFilled(g, 0, m);
      } else if k == 4 {
        assert ColumnFilled(g, 1, m);
      } else if k == 5 {
        assert ColumnFilled(g, 2, m);
      }
    }
  }

  /** Nobody has won on a freshly built board. */
  lemma EmptyGridHasNoWinner(m: Marker)
    ensures !Wins(EmptyGrid(), m)
  {
  }

  /** A winning line stays winning after any placement: its cells are occupied,
      and occupied cells never change. */
  lemma PlacePreservesWin(g: Grid, m: Marker, mover: Marker, row: int, column: int)
    requires IsGrid(g) && Wins(g, m)
    ensures Wins(Place(g, mover, row, column), m)
  {
    var r := Place(g, mover, row, column);
    if exists i :: 0 <= i < Rows && RowFilled(g, i, m) {
      var i :| 0 <= i < Rows && RowFilled(g, i, m);
      assert InBounds(i, 0) && InBounds(i, 1) && InBounds(i, 2);
      assert RowFilled(r, i, m);
    } else if exists j :: 0 <= j < Columns && ColumnFilled(g, j, m) {
      var j :| 0 <= j < Columns && ColumnFilled(g, j, m);
      assert InBounds(0, j) && InBounds(1, j) && InBounds(2, j);
      assert ColumnFilled(r, j, m);
    } else if DiagonalFilled(g, m) {
      assert InBounds(0, 0) && InBounds(1, 1) && InBounds(2, 2);
      assert DiagonalFilled(r, m);
    } else {
      assert InBounds(0, 2) && InBounds(1, 1) && InBounds(2, 0);
      assert AntiDiagonalFilled(r, m);
    }
  }

  /** A win, once reached, survives every later sequence of moves. */
  lemma {:induction false} PlaceAllPreservesWin(g: Grid, m: Marker, moves: seq<Move>)
    requires IsGrid(g) && Wins(g, m)
    ensures Wins(PlaceAll(g, moves), m)
    decreases |moves|
  {
    if moves != [] {
      PlacePreservesWin(g, m, moves[0].marker, moves[0].row, moves[0].column);
      PlaceAllPreservesWin(Place(g, moves[0].marker, moves[0].row, moves[0].column), m, moves[1..]);
    }
  }

  /** Only the player who just moved can have newly won. */
  lemma OnlyMoverCanNewlyWin(g: Grid, m: Marker, mover: Marker, row: int, column: int)
    requires IsGrid(g) && !Wins(g, m) && mover != m
    ensures !Wins(Place(g, mover, row, column), m)
  {
    var r := Place(g, mover, row, column);
    // every cell of r that holds m held m already in g
    forall i, j | InBounds(i, j) && r[i][j] == Marked(m) ensures g[i][j] == Marked(m) {
    }
    if exists i :: 0 <= i < Rows && RowFilled(r, i, m) {
      var i :| 0 <= i < Rows && RowFilled(r, i, m);
      assert InBounds(i, 0) && InBounds(i, 1) && InBounds(i, 2);
      assert RowFilled(g, i, m);
      assert false;
    }
    if exists j :: 0 <= j < Columns && ColumnFilled(r, j, m) {
      var j :| 0 <= j < Columns && ColumnFilled(r, j, m);
      assert InBounds(0, j) && InBounds(1, j) && InBounds(2, j);
      assert ColumnFilled(g, j, m);
      assert false;
    }
    assert InBounds(0, 0) && InBounds(1, 1) && InBounds(2, 2) && InBounds(0, 2) && InBounds(2, 0);
  }

  /** The game in which X takes the whole top row while O answers in the centre
      and a corner: X wins along row 0 and O has not won. */
  lemma TopRowGame()
    ensures var g := PlaceAll(EmptyGrid(), [Move(X, 0, 0), Move(O, 1, 1), Move(X, 0, 1),
                                            Move(O, 2, 2), Move(X, 0, 2)]);
            RowFilled(g, 0, X) && Wins(g, X) && !Wins(g, O)
  {
    var e, x, o := Empty, Marked(X), Marked(O);
    var g0 := EmptyGrid();
    var g1 := Place(g0, X, 0, 0);
    GridsEqual(g1, [[x, e, e], [e, e, e], [e, e, e]]);
    var g2 := Place(g1, O, 1, 1);
    GridsEqual(g2, [[x, e, e], [e, o, e], [e, e, e]]);
    var g3 := Place(g2, X, 0, 1);
    GridsEqual(g3, [[x, x, e], [e, o, e], [e, e, e]]);
    var g4 := Place(g3, O, 2, 2);
    GridsEqual(g4, [[x, x, e], [e, o, e], [e, e, o]]);
    var g5 := Place(g4, X, 0, 2);
    GridsEqual(g5, [[x, x, x], [e, o, e], [e, e, o]]);
    var ms := [Move(X, 0, 0), Move(O, 1, 1), Move(X, 0, 1), Move(O, 2, 2), Move(X, 0, 2)];
    assert PlaceAll(g4, ms[4..]) == g5;
    assert PlaceAll(g3, ms[3..]) == g5;
    assert PlaceAll(g2, ms[2..]) == g5;
    assert PlaceAll(g1, ms[1..]) == g5;
    assert PlaceAll(g0, ms) == g5;
    assert !RowFilled(g5, 0, O) && !RowFilled(g5, 1, O) && !RowFilled(g5, 2, O);
    assert !ColumnFilled(g5, 0, O) && !ColumnFilled(g5, 1, O) && !ColumnFilled(g5, 2, O);
    assert !DiagonalFilled(g5, O) && !AntiDiagonalFilled(g5, O);
    assert RowFilled(g5, 0, X);
  }

  /** The score object for one marker over the live board: isWinner is set by the
      checks and never cleared, score counts the rounds reported as won. */
  class Score {
    const board: array2<Cell>
    const marker: Marker
    var score: nat
    var isWinner: bool

    ghost predicate Valid()
      reads this
    {
      board.Length0 == Rows && board.Length1 == Columns
    }

    constructor (board: array2<Cell>, marker: Marker)
      requires board.Length0 == Rows && board.Length1 == Columns
      ensures Valid() && this.board == board && this.marker == marker
      ensures score == 0 && !isWinner
    {
      this.board := board;
      this.marker := marker;
      score := 0;
      isWinner := false;
    }

    /** Sets isWinner when some row holds the marker in all three cells. */
    method CheckRows()
      requires Valid()
      modifies this`isWinner
      ensures isWinner == (old(isWinner) || exists r :: 0 <= r < Rows && RowFilled(Snapshot(board), r, marker))
    {
      ghost var g := Snapshot(board);
      for row := 0 to Rows
        invariant isWinner == (old(isWinner) || exists r :: 0 <= r < row && RowFilled(g, r, marker))
      {
        var filled := true;
        for column := 0 to Columns
          invariant filled == forall c :: 0 <= c < column ==> board[row, c] == Marked(marker)
        {
          if board[row, column] != Marked(marker) {
            filled := false;
          }
        }
        assert filled == RowFilled(g, row, marker) by {
          assert InBounds(row, 0) && InBounds(row, 1) && InBounds(row, 2);
        }
        if filled {
          isWinner := true;
        }
      }
      assert g == Snapshot(board);
    }

    /** Sets isWinner when the given column holds the marker in all three cells. */
    method CheckColumns(column: int)
      requires Valid() && 0 <= column < Columns
      modifies this`isWinner
      ensures isWinner == (old(isWinner) || ColumnFilled(Snapshot(board), column, marker))
    {
      var filled := true;
      for row := 0 to Rows
        invariant filled == forall r :: 0 <= r < row ==> board[r, column] == Marked(marker)
      {
        if board[row, column] != Marked(marker) {
          filled := false;
        }
      }
      if filled {
        isWinner := true;
      }
    }

    /** Sets isWinner when either diagonal, on its own, holds the marker throughout. */
    method CheckDiagonals()
      requires Valid()
      modifies this`isWinner
      ensures isWinner == (old(isWinner) || DiagonalFilled(Snapshot(board), marker)
                                         || AntiDiagonalFilled(Snapshot(board), marker))
    {
      if board[0, 0] == Marked(marker) && board[1, 1] == Marked(marker) && board[2, 2] == Marked(marker) {
        isWinner := true;
      }
      if board[0, 2] == Marked(marker) && board[1, 1] == Marked(marker) && board[2, 0] == Marked(marker) {
        isWinner := true;
      }
    }

    /** Runs the row, diagonal and column checks and reports isWinner: true exactly
        when it was already set or the marker now wins on the board. */
    method CheckWin() returns (won: bool)
      requires Valid()
      modifies this`isWinner
      ensures isWinner == (old(isWinner) || Wins(Snapshot(board), marker))
      ensures won == isWinner
    {
      CheckRows();
      CheckDiagonals();
      for column := 0 to Columns
        invariant isWinner == (old(isWinner)
          || (exists r :: 0 <= r < Rows && RowFilled(Snapshot(board), r, marker))
          || DiagonalFilled(Snapshot(board), marker) || AntiDiagonalFilled(Snapshot(board), marker)
          || exists c :: 0 <= c < column && ColumnFilled(Snapshot(board), c, marker))
      {
        CheckColumns(column);
      }
      won := isWinner;
    }

    /** Adds one to the score when told the player won, and nothing otherwise. */
    method UpdateScore(won: bool)
      modifies this`score
      ensures score == old(score) + (if won then 1 else 0)
    {
      if won {
        score := score + 1;
      }
    }
  }
}
