/** The parts of the win check and of the turn switch as the source writes them,
    with the inputs on which they differ from the rule its comments state. */
module AsWritten {
  import opened Players
  import opened Board
  import opened Rules

  /** checkRows as written: the inner loop's guard reads the length of the row
      numbered by the column counter, so when the counter reaches 3 it reads a row
      that does not exist and throws. Before that, one matching cell of row 0 is
      enough to set isWinner. */
  method CheckRows(board: Grid, marker: Marker, isWinner0: bool) returns (threw: bool, isWinner: bool)
    requires IsGrid(board)
    ensures threw
    ensures isWinner == (isWinner0 || Marked(marker) in board[0])
  {
    isWinner := isWinner0;
    threw := false;
    var row := 0;
    while row < |board| && !threw
      invariant 0 <= row <= 1 && (threw <==> row == 1)
      invariant isWinner == (isWinner0 || (row == 1 && Marked(marker) in board[0]))
    {
      var column := 0;
      while !threw
        invariant 0 <= column <= |board| && (threw ==> column == |board|)
        invariant isWinner == (isWinner0 || Marked(marker) in board[row][..column])
        decreases |board| - column, !threw
      {
        if column >= |board| {
          // the guard reads board[column].length with no such row
          threw := true;
        } else if column < |board[column]| {
          if board[row][column] == Marked(marker) {
            isWinner := true;
          }
          column := column + 1;
        } else {
          break;
        }
      }
      assert board[row][..Columns] == board[row];
      row := row + 1;
    }
  }

  /** What checkColumns leaves in isWinner: set as soon as any one cell of the
      column holds the marker. */
  predicate CheckColumns(g: Grid, m: Marker, column: int, isWinner: bool)
    requires IsGrid(g) && 0 <= column < Columns
  {
    isWinner || exists row :: 0 <= row < Rows && g[row][column] == Marked(m)
  }

  /** The board whose only marker is X in the top-left corner. */
  function CornerOnly(): (g: Grid)
    ensures IsGrid(g)
  {
    Place(EmptyGrid(), X, 0, 0)
  }

  /** A single X reports a win for X in column 0 (and in row 0), though X has won nothing. */
  lemma SingleCellCounterexample()
    ensures CheckColumns(CornerOnly(), X, 0, false)
    ensures Marked(X) in CornerOnly()[0]
    ensures !Wins(CornerOnly(), X)
  {
  }

  /** What checkDiagonals leaves in isWinner: each of its checks only returns, so
      the flag is never set. */
  function CheckDiagonals(g: Grid, m: Marker, isWinner: bool): (r: bool)
    requires IsGrid(g)
  {
    isWinner
  }

  /** The board whose main diagonal is all X. */
  function DiagonalOnly(): (g: Grid)
    ensures IsGrid(g)
  {
    Place(Place(Place(EmptyGrid(), X, 0, 0), X, 1, 1), X, 2, 2)
  }

  /** X holds the whole main diagonal and so has won, but checkDiagonals reports nothing. */
  lemma DiagonalCounterexample()
    ensures Wins(DiagonalOnly(), X)
    ensures !CheckDiagonals(DiagonalOnly(), X, false)
  {
  }

  /** What currentPlayer can hold in the source: a player object, or the bare
      number that switchPlayer assigns. */
  datatype Current = PlayerObject(player: Player) | Number(n: int)

  /** switchPlayer as written: it stores the number 2 or 1 rather than a player,
      and a bare number has no player number, so it always yields 1 from there. */
  function SwitchPlayer(current: Current): (r: Current)
    ensures r.Number? && (r.n == 1 || r.n == 2)
    ensures current.PlayerObject? ==> r == Number(if current.player.number == 1 then 2 else 1)
    ensures current.Number? ==> r == Number(1)
  {
    match current
    case PlayerObject(p) => Number(if p.number == 1 then 2 else 1)
    case Number(_) => Number(1)
  }

  /** What a cell of the source's board can hold: 0, a marker, or undefined (what
      reading .marker of a bare number gives). */
  datatype SourceCell = Zero | Holds(marker: Marker) | Undefined

  /** The value placeMarker writes for the current value: its marker, or undefined
      for a bare number. */
  function WrittenValue(current: Current): (v: SourceCell)
    ensures v.Holds? <==> current.PlayerObject?
    ensures v == Undefined <==> current.Number?
    ensures current.PlayerObject? ==> v == Holds(current.player.marker)
  {
    match current
    case PlayerObject(p) => Holds(p.marker)
    case Number(_) => Undefined
  }

  /** placeMarker on one cell as written: it writes only where the cell is 0. */
  function PlaceCell(cell: SourceCell, current: Current): (r: SourceCell)
    ensures cell == Zero ==> r == WrittenValue(current)
    ensures cell != Zero ==> r == cell
  {
    if cell == Zero then WrittenValue(current) else cell
  }

  /** The cell after placements attempted by each current value in turn. A cell
      that starts occupied keeps its value: in particular a cell holding undefined
      is never 0 again, so it refuses every later placement, by either player. */
  function PlaceCells(cell: SourceCell, currents: seq<Current>): (r: SourceCell)
    ensures cell != Zero ==> r == cell
    decreases |currents|
  {
    if currents == [] then cell else PlaceCells(PlaceCell(cell, currents[0]), currents[1..])
  }

  /** Starting from player 1, one switch stores the number 2, so the next round
      writes undefined into the empty cell it names; two switches do not give back
      player 1. */
  lemma SwitchPlayerCounterexample()
    ensures var p1 := PlayerObject(NewPlayer("Player 1", 1));
            SwitchPlayer(p1) == Number(2) &&
            PlaceCell(Zero, SwitchPlayer(p1)) == Undefined &&
            SwitchPlayer(SwitchPlayer(p1)) == Number(1) &&
            SwitchPlayer(SwitchPlayer(p1)) != p1
  {
  }
}
