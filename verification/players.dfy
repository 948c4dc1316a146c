/** A seat's occupant: a display name, the token it drops, and its seat number. */
module Players {

  /** The token a player drops on the grid, a one-letter string such as "C". */
  type Token = string

  datatype Player = Player(name: string, token: Token, number: nat)

  /** `insert_token`: the player takes a new token and keeps name and seat. */
  function InsertToken(p: Player, t: Token): (q: Player)
    ensures q.token == t
    ensures q.name == p.name && q.number == p.number
  {
    p.(token := t)
  }
}
