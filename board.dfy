/** The 3 x 3 game board: the value-level rules of placement and the mutable board object. */
module Board {
  import opened Players

  const Rows: nat := 3
  const Columns: nat := 3

  /** A cell is empty (the source's 0) or holds a marker. */
  datatype Cell = Empty | Marked(marker: Marker)

  /** A snapshot of the board, row by row. */
  type Grid = seq<seq<Cell>>

  /** One request to place a marker at (row, column). */
  datatype Move = Move(marker: Marker, row: int, column: int)

  predicate IsGrid(g: Grid) {
    |g| == Rows && forall i :: 0 <= i < |g| ==> |g[i]| == Columns
  }

  predicate InBounds(row: int, column: int) {
    0 <= row < Rows && 0 <= column < Columns
  }

  /** The board as it is built: every cell empty. */
  function EmptyGrid(): (g: Grid)
    ensures IsGrid(g)
    ensures forall i, j :: InBounds(i, j) ==> g[i][j] == Empty
  {
    [[Empty, Empty, Empty], [Empty, Empty, Empty], [Empty, Empty, Empty]]
  }

  /** A move is legal when it names a cell of the board that is still empty. */
  predicate CanPlace(g: Grid, row: int, column: int)
    requires IsGrid(g)
  {
    InBounds(row, column) && g[row][column] == Empty
  }

  /** The board after a placement: the named cell gets the marker if the move is
      legal, and nothing changes otherwise. */
  function Place(g: Grid, m: Marker, row: int, column: int): (r: Grid)
    requires IsGrid(g)
    ensures IsGrid(r)
    ensures CanPlace(g, row, column) ==> r[row][column] == Marked(m)
    ensures forall i, j :: InBounds(i, j) && (i != row || j != column) ==> r[i][j] == g[i][j]
    ensures !CanPlace(g, row, column) ==> r == g
    ensures forall i, j :: InBounds(i, j) && g[i][j] != Empty ==> r[i][j] == g[i][j]
  {
    if CanPlace(g, row, column) then g[row := g[row][column := Marked(m)]] else g
  }

  /** The board after a sequence of moves, each applied as Place does. */
  function PlaceAll(g: Grid, moves: seq<Move>): (r: Grid)
    requires IsGrid(g)
    ensures IsGrid(r)
    decreases |moves|
  {
    if moves == [] then g
    else PlaceAll(Place(g, moves[0].marker, moves[0].row, moves[0].column), moves[1..])
  }

  /** Once a cell holds a marker, no later move changes it. */
  lemma {:induction false} PlaceAllKeepsOccupied(g: Grid, moves: seq<Move>, i: int, j: int)
    requires IsGrid(g) && InBounds(i, j) && g[i][j] != Empty
    ensures PlaceAll(g, moves)[i][j] == g[i][j]
    decreases |moves|
  {
    if moves != [] {
      var g' := Place(g, moves[0].marker, moves[0].row, moves[0].column);
      PlaceAllKeepsOccupied(g', moves[1..], i, j);
    }
  }

  /** Two boards that agree on every cell are the same board. */
  lemma GridsEqual(a: Grid, b: Grid)
    requires IsGrid(a) && IsGrid(b)
    requires forall i, j :: InBounds(i, j) ==> a[i][j] == b[i][j]
    ensures a == b
  {
    forall i | 0 <= i < Rows ensures a[i] == b[i] {
      assert forall j :: 0 <= j < Columns ==> a[i][j] == b[i][j] by {
        forall j | 0 <= j < Columns ensures a[i][j] == b[i][j] {
          assert InBounds(i, j);
        }
      }
    }
  }

  /** The current contents of a 3 x 3 array, as a grid. */
  function Snapshot(a: array2<Cell>): (g: Grid)
    reads a
    requires a.Length0 == Rows && a.Length1 == Columns
    ensures IsGrid(g)
    ensures forall i, j :: InBounds(i, j) ==> g[i][j] == a[i, j]
  {
    [[a[0, 0], a[0, 1], a[0, 2]],
     [a[1, 0], a[1, 1], a[1, 2]],
     [a[2, 0], a[2, 1], a[2, 2]]]
  }

  /** The board object: a fixed 3 x 3 array of cells, changed only by PlaceMarker. */
  class Gameboard {
    const board: array2<Cell>

    ghost predicate Valid()
      reads this
    {
      board.Length0 == Rows && board.Length1 == Columns
    }

    /** Builds the board with nested loops, every cell empty. */
    constructor ()
      ensures Valid() && fresh(board)
      ensures Snapshot(board) == EmptyGrid()
    {
      var b := new Cell[Rows, Columns];
      for i := 0 to Rows
        invariant forall i', j :: 0 <= i' < i && 0 <= j < Columns ==> b[i', j] == Empty
      {
        for j := 0 to Columns
          invariant forall i', j' :: 0 <= i' < i && 0 <= j' < Columns ==> b[i', j'] == Empty
          invariant forall j' :: 0 <= j' < j ==> b[i, j'] == Empty
        {
          b[i, j] := Empty;
        }
      }
      board := b;
      GridsEqual(Snapshot(b), EmptyGrid());
    }

    /** Gives the live board itself (an alias, not a copy). */
    method GetBoard() returns (b: array2<Cell>)
      requires Valid()
      ensures b == board
      ensures b.Length0 == Rows && b.Length1 == Columns
    {
      b := board;
    }

    /** Writes the player's marker into (row, column) only if that cell is on the
        board and still empty; placed says whether the write happened. */
    method PlaceMarker(player: Player, row: int, column: int) returns (placed: bool)
      requires Valid()
      modifies board
      ensures placed == CanPlace(old(Snapshot(board)), row, column)
      ensures Snapshot(board) == Place(old(Snapshot(board)), player.marker, row, column)
    {
      ghost var before := Snapshot(board);
      placed := InBounds(row, column) && board[row, column] == Empty;
      if placed {
        board[row, column] := Marked(player.marker);
      }
      GridsEqual(Snapshot(board), Place(before, player.marker, row, column));
    }
  }
}
