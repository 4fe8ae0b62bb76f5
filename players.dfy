/** Players of the game: a name, a player number and the marker that number earns. */
module Players {

  /** The two markers a player can place: player 1 plays X, every other player O. */
  datatype Marker = X | O

  datatype Player = Player(name: string, number: int, marker: Marker)

  /** Builds a player record; only the number 1 earns the marker X. */
  function NewPlayer(name: string, number: int): (p: Player)
    ensures p.name == name && p.number == number
    ensures p.marker == X <==> number == 1
    ensures p.marker == O <==> number != 1
  {
    Player(name, number, if number == 1 then X else O)
  }

  /** Players 1 and 2 never share a marker, whatever their names. */
  lemma DistinctMarkers(name1: string, name2: string)
    ensures NewPlayer(name1, 1).marker == X
    ensures NewPlayer(name2, 2).marker == O
    ensures NewPlayer(name1, 1) != NewPlayer(name2, 2)
  {
  }
}
