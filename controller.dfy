/** Turn sequencing: the controller holds both players and whose turn it is, and a
    round places the current player's marker and then hands the turn over. */
module Controller {
  import opened Players
  import opened Board

  class GameController {
    const gameboard: Gameboard
    const player1: Player
    const player2: Player
    var currentPlayer: Player

    ghost predicate Valid()
      reads this, gameboard
    {
      gameboard.Valid() &&
      player1 == NewPlayer("Player 1", 1) && player2 == NewPlayer("Player 2", 2) &&
      (currentPlayer == player1 || currentPlayer == player2)
    }

    /** Sets up "Player 1" and "Player 2"; player 1 moves first. */
    constructor (gameboard: Gameboard)
      requires gameboard.Valid()
      ensures Valid() && this.gameboard == gameboard
      ensures player1.marker == X && player2.marker == O
      ensures currentPlayer == player1
    {
      this.gameboard := gameboard;
      player1 := NewPlayer("Player 1", 1);
      player2 := NewPlayer("Player 2", 2);
      currentPlayer := NewPlayer("Player 1", 1);
    }

    /** The player whose turn follows that of p. */
    function Opponent(p: Player): (q: Player)
    {
      if p.number == 1 then player2 else player1
    }

    /** The turn alternates: each player's opponent is the other one, and handing
        the turn over twice gives it back. */
    lemma OpponentAlternates(p: Player)
      requires Valid() && (p == player1 || p == player2)
      ensures p == player1 ==> Opponent(p) == player2
      ensures p == player2 ==> Opponent(p) == player1
      ensures Opponent(p) != p && Opponent(Opponent(p)) == p
    {
    }

    /** Hands the turn to the opponent of the given player. */
    method SwitchPlayer(player: Player)
      requires Valid() && (player == player1 || player == player2)
      modifies this`currentPlayer
      ensures Valid()
      ensures currentPlayer == Opponent(player) && currentPlayer != player
    {
      currentPlayer := if player.number == 1 then player2 else player1;
    }

    /** One round: the current player's marker goes to (row, column) if that cell is
        on the board and empty, and the turn passes to the other player either way. */
    method PlayRound(row: int, column: int)
      requires Valid()
      modifies gameboard.board, this`currentPlayer
      ensures Valid()
      ensures Snapshot(gameboard.board) == Place(old(Snapshot(gameboard.board)), old(currentPlayer).marker, row, column)
      ensures currentPlayer == Opponent(old(currentPlayer)) && currentPlayer != old(currentPlayer)
    {
      var _ := gameboard.PlaceMarker(currentPlayer, row, column);
      SwitchPlayer(currentPlayer);
    }
  }
}
