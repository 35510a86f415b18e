/** The game-protocol messages the turn routine reads and writes, as plain
    values. Only the fields the routine touches are kept. */
module Messages {
  import opened Board

  /** A visible lighthouse: where it is, its owner's player number and the
      positions it is already connected to. */
  datatype Lighthouse = Lighthouse(position: Pos, owner: int, connections: seq<Pos>)

  /** A visible cell and the energy lying on it. */
  datatype Cell = Cell(position: Pos, energy: int)

  /** One turn as the server sends it. */
  datatype Turn = Turn(position: Pos, haveKey: bool, lighthouses: seq<Lighthouse>, cells: seq<Cell>)

  /** The action kinds of the protocol. The routine only ever produces
      `Move` and `Connect`. */
  datatype ActionKind = Pass | Move | Attack | Connect

  datatype Action = Action(kind: ActionKind, destination: Pos)

  /** The start-of-game message a `BotGame` may hold; the turn routine never reads it. */
  datatype InitialState = InitialState(lighthouses: seq<Lighthouse>)
}
