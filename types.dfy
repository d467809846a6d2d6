/** The records the rules engine works on: colours, pieces, players and log entries. */
module Types {

  datatype Option<+T> = None | Some(value: T)

  /** The four colours, in the fixed clockwise turn order RED, GREEN, YELLOW, BLUE. */
  datatype Color = RED | GREEN | YELLOW | BLUE

  datatype Difficulty = EASY | MEDIUM | HARD

  datatype GameStatus = LOBBY | PLAYING | FINISHED

  /** A square of the 15 x 15 board: x is the column, y the row. */
  datatype Coordinate = Coordinate(x: int, y: int)

  /**
   * A piece. `position` is local to its colour: -1 in the base, 0..50 on the
   * shared track, 51..55 in the home lane, 99 finished (56 is promoted to 99
   * as soon as it is reached).
   */
  datatype Piece = Piece(id: int, color: Color, position: int)

  /** A seat at the table; `rank` is 0 until the player finishes. */
  datatype Player = Player(id: string, color: Color, isBot: bool, pieces: seq<Piece>, hasWon: bool, rank: int)

  /** The game log, with each message reduced to the facts it reports. */
  datatype LogEntry =
    | GameStarted
    | Rolled(player: Color, value: int)
    | ThreeSixes(player: Color)
    | NoValidMoves(player: Color)
    | Deployed(player: Color)
    | Captured(capturer: Color, victim: Color)
    | PieceHome(player: Color)
    | PlayerFinished(player: Color, rank: int)

  /** The turn order: seat i plays colour TurnOrder[i]. */
  const TurnOrder: seq<Color> := [RED, GREEN, YELLOW, BLUE]
}
