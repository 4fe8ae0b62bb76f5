# Tic-tac-toe core in Dafny

A model of the game logic in `scripts/tic-tac-toe.js`: the 3 × 3 `Gameboard`, the
`Player` record, the `Score` win check with its win counter, and the turn
sequencing in `GameController`. Each source part becomes one module:

- `Players` (`players.dfy`): the markers `X` and `O`, and the `Player` record built by
  `NewPlayer`. Only player number 1 gets `X`.
- `Board` (`board.dfy`): a cell is `Empty` or `Marked(marker)`. `Empty` stands for the
  source's `0`. `Place` and `PlaceAll` are the placement rule on board values
  (`Grid`, row by row). The class `Gameboard` holds the board as a fixed `array2`
  that its constructor fills with nested loops. `PlaceMarker` changes it in place and
  is proved to do exactly what `Place` does.
- `Rules` (`rules.dfy`): `Wins(g, m)` is the rule the doc comment states: all three
  cells of some row, some column or either diagonal hold `m`. Lemmas relate it to
  the list of the eight lines and to placements. The class `Score` holds
  `isWinner` and `score` over the live board array, the way the source's closure
  does. Its loop-based checks are proved against `Wins`.
- `Controller` (`controller.dfy`): the class `GameController` holds the two players
  and `currentPlayer`. A round places, then hands the turn over.
- `AsWritten` (`as_written.dfy`): the parts of the win check and the turn switch
  that behave differently from their comments, modelled as written, with the inputs
  that show it (see Findings).

Modelling choices:
- Coordinates: any `(row, column)` outside the board is a no-op. `PlaceMarker`
  returns `placed == false` for it, as it does for an occupied cell. `placed` is an
  extra out-parameter that says whether the write happened; the source returns
  nothing.
- `currentPlayer` is a `Player` value, always `player1` or `player2`. The comments
  at lines 38-40 say the turn changes between the two players and that player 1 is
  X and player 2 is O. The source's number-valued switch is in `AsWritten`.
- `Score.CheckWin` keeps the source's flag: `isWinner` is set and never cleared.
  A fresh `Score` starts with it false, so its first `CheckWin` reports `Wins`
  exactly. `PlaceAllPreservesWin` shows that a win, once true, stays true under
  placements. So a flag set earlier is still right as long as the board is changed
  only through `PlaceMarker`. Nothing in the model enforces that. `GetBoard` hands
  out the live array, as the source does, and a holder of it can clear cells under
  a set flag. `CheckWin` returns the
  flag, because the source's `checkWin` returns nothing and never exposes it.
- `UpdateScore` follows the source: it takes the win as a parameter. In the source
  that parameter shadows the closure's `isWinner`.
- `PlayRound` hands the turn over even when the placement is refused because the
  cell is occupied or the column is off the board, as the code does. An off-board
  row is different: see `Controller.GameController.PlayRound` under "## Left out".
- Move input: the two `prompt` answers become the `row` and `column` parameters
  of `PlayRound`.

## Model

| member | source | states |
|---|---|---|
| `Players.NewPlayer` | scripts/tic-tac-toe.js:43-46 | The player keeps the given name and number. Its marker is X exactly when the number is 1, and O for every other number. |
| `Players.DistinctMarkers` | scripts/tic-tac-toe.js:40 | Player 1 plays X and player 2 plays O, so two such players are never equal. |
| `Board.EmptyGrid` | scripts/tic-tac-toe.js:13-22 | The initial board has 3 rows of 3 cells, and every cell is empty. |
| `Board.Place` | scripts/tic-tac-toe.js:26-30 | Placing on an empty on-board cell puts the marker there; every other cell is unchanged. An occupied or off-board target leaves the whole board unchanged. An occupied cell never changes. The board stays 3 × 3. |
| `Board.PlaceAll` | scripts/tic-tac-toe.js:13-30 | Any sequence of placements keeps the board at 3 rows of 3 cells. |
| `Board.PlaceAllKeepsOccupied` | scripts/tic-tac-toe.js:26-30 | Once a cell holds a marker, no later sequence of placements changes it. |
| `Board.Snapshot` | scripts/tic-tac-toe.js:15-22 | The board array read row by row is a 3 × 3 grid whose cells are the array's cells. |
| `Board.Gameboard.constructor` | scripts/tic-tac-toe.js:12-22 | A new board is a fresh 3 × 3 array whose every cell is empty. |
| `Board.Gameboard.GetBoard` | scripts/tic-tac-toe.js:24 | Returns the live board array itself, not a copy, and it is 3 × 3. |
| `Board.Gameboard.PlaceMarker` | scripts/tic-tac-toe.js:26-30 | The new board is `Place` of the old board with the player's marker. `placed` is true exactly when the target was on the board and empty. |
| `Rules.Wins` | scripts/tic-tac-toe.js:48-49 | A marker wins when all three cells of some row, of some column, or of either diagonal hold it. |
| `Rules.WinsIffSomeLine` | scripts/tic-tac-toe.js:48-49 | A marker wins exactly when all three cells of one of the eight lines (3 rows, 3 columns, 2 diagonals) hold it. Both directions are proved. |
| `Rules.EmptyGridHasNoWinner` | scripts/tic-tac-toe.js:17-22 | Neither marker has won on the initial board. |
| `Rules.PlacePreservesWin` | scripts/tic-tac-toe.js:26-30 | If a marker has won, it still has after any placement. |
| `Rules.PlaceAllPreservesWin` | scripts/tic-tac-toe.js:26-30 | If a marker has won, it still has after any later sequence of placements. |
| `Rules.OnlyMoverCanNewlyWin` | scripts/tic-tac-toe.js:48-49 | A placement with one marker never makes a different marker win. |
| `Rules.TopRowGame` | scripts/tic-tac-toe.js:48-49 | Moves X(0,0), O(1,1), X(0,1), O(2,2), X(0,2) on the initial board: X fills row 0 and wins, and O has not won. |
| `Rules.Score.constructor` | scripts/tic-tac-toe.js:51-53 | A new score object is over the given board and marker, with score 0 and the win flag clear. |
| `Rules.Score.CheckRows` | scripts/tic-tac-toe.js:55-62 | The flag becomes set when some row holds the marker in all three cells; otherwise it keeps its value. |
| `Rules.Score.CheckColumns` | scripts/tic-tac-toe.js:64-69 | The flag becomes set when the given column holds the marker in all three cells; otherwise it keeps its value. |
| `Rules.Score.CheckDiagonals` | scripts/tic-tac-toe.js:71-79 | The flag becomes set when either diagonal on its own holds the marker throughout; otherwise it keeps its value. |
| `Rules.Score.CheckWin` | scripts/tic-tac-toe.js:81-87 | After the checks, the flag is its old value or `Wins` of the board for the marker, and that flag is returned. |
| `Rules.Score.UpdateScore` | scripts/tic-tac-toe.js:89-91 | The score rises by exactly 1 when told the player won, and is unchanged otherwise. |
| `Controller.GameController.constructor` | scripts/tic-tac-toe.js:104-106 | The players are "Player 1" with X and "Player 2" with O, and player 1 moves first. |
| `Controller.GameController.OpponentAlternates` | scripts/tic-tac-toe.js:108-110 | Player 1's opponent is player 2 and vice versa. A player is never their own opponent, and taking the opponent twice gives back the player. |
| `Controller.GameController.SwitchPlayer` | scripts/tic-tac-toe.js:108-110 | The current player becomes the opponent of the given player, which is the other of the two players. |
| `Controller.GameController.PlayRound` | scripts/tic-tac-toe.js:112-118 | The board becomes `Place` of the old board with the old current player's marker. The turn passes to the other player. |
| `AsWritten.CheckRows` | scripts/tic-tac-toe.js:55-62 | As written, on every 3 × 3 board the row check throws. Before throwing it has set the flag if any single cell of row 0 holds the marker. |
| `AsWritten.CheckColumns` | scripts/tic-tac-toe.js:64-69 | As written, the column check's flag ends up set when it was already set or any single cell of the column holds the marker. |
| `AsWritten.SingleCellCounterexample` | scripts/tic-tac-toe.js:64-69 | On the board whose only marker is X at (0,0), the as-written column check reports X for column 0, and row 0 contains X. Yet X has not won. |
| `AsWritten.CheckDiagonals` | scripts/tic-tac-toe.js:71-79 | As written, the diagonal check leaves the flag as it was on every board. |
| `AsWritten.DiagonalCounterexample` | scripts/tic-tac-toe.js:71-79 | X holding the main diagonal has won, yet the as-written diagonal check leaves the flag clear. |
| `AsWritten.SwitchPlayer` | scripts/tic-tac-toe.js:108-110 | As written, the switch always stores a bare number and never a player object. From a player object it stores 2 when that player's number is 1, and 1 otherwise. From a bare number it always stores 1. |
| `AsWritten.WrittenValue` | scripts/tic-tac-toe.js:28 | The value written holds a marker exactly when the current value is a player object, and then it is that player's own marker. It is undefined exactly when the current value is a bare number. |
| `AsWritten.PlaceCell` | scripts/tic-tac-toe.js:27-28 | As written, a cell that holds 0 receives the written value, and any other cell, undefined included, is unchanged. |
| `AsWritten.PlaceCells` | scripts/tic-tac-toe.js:27-28 | A cell that is not 0 (a marker, or undefined) keeps its value through any sequence of later placements, so a cell holding undefined refuses every one of them. |
| `AsWritten.SwitchPlayerCounterexample` | scripts/tic-tac-toe.js:108-110 | From player 1, the as-written switch stores the number 2, so the next placement writes undefined into an empty cell. A second switch gives the number 1, not player 1. |

## Left out

- Reading the row and column with `prompt` (lines 113-114) is user input. They are parameters of `PlayRound`. `Number` conversion of text that is not an integer (`NaN`, fractions) is not modelled.
- `printBoard`, `printNewRound` and the driver calls at the end of the file (lines 32-34, 120-129) only write to the console.
- The module singletons (immediately invoked functions) become ordinary classes. The controller receives its board as a constructor parameter.
- The commented-out `Score.updateScore()` call (line 116) is dead code. So no round in the source ever runs the win check or the score.
- Tie detection, board reset, round outcomes and renaming players do not exist in the code, so they are not modelled.
- `Board.Gameboard.PlaceMarker`: an off-board row makes the source throw (it reads a missing row), while an off-board column is silently ignored. The model treats both as a refused move.
- `Controller.GameController.PlayRound`: an off-board row throws in the source before the switch, so the turn stays; the model refuses the move and passes the turn. The thrown error is also uncaught in the source, so the driver stops. The model also keeps `currentPlayer` a player object, as the comments at lines 38-40 describe. What the code actually does with a bare number is the `AsWritten` finding below.

## Findings

| source | as written | input that shows it | evidently intended | confidence | as-written member | corrected member |
|---|---|---|---|---|---|---|
| scripts/tic-tac-toe.js:57 | The inner loop's guard is `column < board[column].length`. When the counter reaches 3 it reads a row that does not exist, so `checkRows`, and with it `checkWin`, throws on every board. Before that, one matching cell sets `isWinner`. | any board, e.g. the empty one | loop over the current row's columns and require all three cells to hold the marker | not executed; high | `AsWritten.CheckRows` | `Rules.Score.CheckRows` |
| scripts/tic-tac-toe.js:66-67 | `checkColumns` sets `isWinner` as soon as any one cell of the column holds the marker. Rows do the same at lines 58-59. | only X, at (0,0): column 0 reports a win for X | require all three cells of the column | not executed; high | `AsWritten.CheckColumns`, `AsWritten.SingleCellCounterexample` | `Rules.Score.CheckColumns` |
| scripts/tic-tac-toe.js:71-79 | `checkDiagonals` only ever returns and never sets `isWinner`. Taken together, its six tests would also demand both diagonals at once. | X at (0,0), (1,1), (2,2) | set `isWinner` when either diagonal on its own is complete | not executed; high | `AsWritten.CheckDiagonals`, `AsWritten.DiagonalCounterexample` | `Rules.Score.CheckDiagonals` |
| scripts/tic-tac-toe.js:109 | `switchPlayer` stores the number 2 or 1 in `currentPlayer` instead of a player. The next `placeMarker` then writes `undefined` into the empty cell it names. That cell is no longer 0, so it refuses every later placement. The number after that is always 1. | one round starting from player 1 | alternate between `player1` and `player2` | not executed; high | `AsWritten.SwitchPlayer`, `AsWritten.SwitchPlayerCounterexample`, `AsWritten.PlaceCells` | `Controller.GameController.SwitchPlayer` |
