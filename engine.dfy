/**
 * The app's game state as an object: the fields of the state, updated in
 * place by the roll request, the landing of the die, the move of a piece
 * and the hand-over to the next seat. Each method is proved against the
 * state function of the same event.
 */
module Engine {
  import opened Types
  import opened Seqs
  import opened GameLogic
  import opened Game
  import opened Moves

  /** The ids of the pieces canMovePiece approves, collected in order as the roll updater does. */
  method ValidPieceIds(pieces: seq<Piece>, value: int, players: seq<Player>) returns (valid: seq<int>)
    ensures valid == Ids(MovablePieces(pieces, value, players))
  {
    valid := [];
    var j := 0;
    while j < |pieces|
      invariant 0 <= j <= |pieces|
      invariant valid == Ids(MovablePieces(pieces[..j], value, players))
    {
      var ok := CanMovePiece(pieces[j], value, players);
      FilterPrefixStep(pieces, j, Movable(value, players));
      IdsSnoc(MovablePieces(pieces[..j], value, players), pieces[j]);
      if ok {
        valid := valid + [pieces[j].id];
      }
      j := j + 1;
    }
    assert pieces[..j] == pieces;
  }

  /** The roll updater of handleRollDice, step by step, on the previous state. */
  method RollUpdater(prev: GameState, value: int) returns (r: GameState)
    requires 0 <= prev.currentTurnIndex < |prev.players|
    ensures r == RollResult(prev, value)
  {
    var currentPlayer := prev.players[prev.currentTurnIndex];
    var logs := prev.logs + [Rolled(currentPlayer.color, value)];
    var newConsecutiveSixes := prev.consecutiveSixes;
    if value == 6 {
      newConsecutiveSixes := newConsecutiveSixes + 1;
    } else {
      newConsecutiveSixes := 0;
    }
    if newConsecutiveSixes == 3 {
      logs := logs + [ThreeSixes(currentPlayer.color)];
      return prev.(diceValue := value, isDiceRolling := false, waitingForMove := false, canRoll := false,
                   validMoves := [], logs := logs, consecutiveSixes := 0);
    }
    var validPieceIds := ValidPieceIds(currentPlayer.pieces, value, prev.players);
    if validPieceIds == [] {
      logs := logs + [NoValidMoves(currentPlayer.color)];
      return prev.(diceValue := value, isDiceRolling := false, waitingForMove := false, canRoll := value == 6,
                   logs := logs, validMoves := [], consecutiveSixes := newConsecutiveSixes);
    }
    r := prev.(diceValue := value, isDiceRolling := false, canRoll := false, waitingForMove := true,
               validMoves := validPieceIds, logs := logs, consecutiveSixes := newConsecutiveSixes);
  }

  /** The handlePieceClick updater, step by step, on the previous state (reached only while a move is awaited). */
  method MoveUpdater(prev: GameState, pieceId: int) returns (r: GameState)
    requires ValidState(prev) && prev.waitingForMove
    ensures r == MoveResult(prev, pieceId)
  {
    if pieceId !in prev.validMoves {
      return prev;
    }
    ChosenPiece(prev, pieceId);
    var pieceToUpdate := Find(prev.players[prev.currentTurnIndex].pieces, HasPieceId(pieceId)).value;
    r := PlayMove(prev, pieceToUpdate);
  }

  /** Steps 1 to 6 of the handlePieceClick updater for the piece found. */
  method PlayMove(prev: GameState, pieceToUpdate: Piece) returns (r: GameState)
    requires 0 <= prev.currentTurnIndex < |prev.players|
    ensures pieceToUpdate.position == -1 && prev.diceValue != 6 ==> r == prev
    ensures !(pieceToUpdate.position == -1 && prev.diceValue != 6) ==> r == ApplyMove(prev, pieceToUpdate)
  {
    var currentPlayerIndex := prev.currentTurnIndex;
    var currentPlayer := prev.players[currentPlayerIndex];
    var piece := pieceToUpdate;
    var moveDistance := prev.diceValue;
    var newLogs := prev.logs;
    if piece.position == -1 {
      if moveDistance == 6 {
        piece := piece.(position := 0);
        newLogs := newLogs + [Deployed(currentPlayer.color)];
      } else {
        return prev;
      }
    } else {
      piece := piece.(position := piece.position + moveDistance);
    }
    var newPlayers, killed, killLogs := CheckForKill(piece, prev.players, currentPlayer.id);
    r := SettleMove(prev, piece, newPlayers, killed, newLogs + killLogs);
  }

  /** Steps 4 to 6 of the handlePieceClick updater, after checkForKill. */
  method SettleMove(prev: GameState, moved: Piece, newPlayers: seq<Player>, killed: bool, logs: seq<LogEntry>)
    returns (r: GameState)
    requires 0 <= prev.currentTurnIndex < |prev.players| && |newPlayers| == |prev.players|
    ensures r == Settle(prev, moved, newPlayers, killed, logs)
  {
    var currentPlayerIndex := prev.currentTurnIndex;
    var currentPlayer := prev.players[currentPlayerIndex];
    var piece := moved;
    var newLogs := logs;
    var pieceFinished := false;
    if piece.position == 99 || piece.position == 56 {
      if piece.position == 56 {
        piece := piece.(position := 99);
      }
      pieceFinished := true;
      newLogs := newLogs + [PieceHome(currentPlayer.color)];
    }
    var playerToUpdate := currentPlayer.(pieces := ReplacePiece(currentPlayer.pieces, piece));
    var allHome := AllHome(playerToUpdate.pieces);
    var winners := prev.winners;
    if allHome && !playerToUpdate.hasWon {
      playerToUpdate := playerToUpdate.(hasWon := true, rank := |winners| + 1);
      winners := winners + [playerToUpdate.color];
      newLogs := newLogs + [PlayerFinished(playerToUpdate.color, playerToUpdate.rank)];
    }
    var extraTurn := prev.diceValue == 6 || killed || (pieceFinished && !allHome);
    r := prev.(players := newPlayers[currentPlayerIndex := playerToUpdate], waitingForMove := false,
               canRoll := extraTurn, winners := winners, logs := newLogs, validMoves := []);
  }

  /** The nextTurn updater, step by step, on the previous state. */
  method NextTurnUpdater(prev: GameState) returns (r: GameState)
    requires |prev.players| == 4 && 0 <= prev.currentTurnIndex < 4
    ensures r == NextTurnResult(prev)
  {
    if |prev.winners| >= 3 {
      return prev.(status := FINISHED);
    }
    var nextIndex := (prev.currentTurnIndex + 1) % 4;
    ghost var d := 1;
    while prev.players[nextIndex].hasWon
      invariant 1 <= d <= 3 && nextIndex == Clockwise(prev.currentTurnIndex, d)
      invariant forall k :: 1 <= k < d ==> prev.players[Clockwise(prev.currentTurnIndex, k)].hasWon
      decreases 4 - d
    {
      nextIndex := (nextIndex + 1) % 4;
      d := d + 1;
      if nextIndex == prev.currentTurnIndex {
        FirstOpenSeat(prev.players, prev.currentTurnIndex, d);
        break;
      }
    }
    if d < 4 {
      FirstOpenSeat(prev.players, prev.currentTurnIndex, d);
    }
    r := prev.(currentTurnIndex := nextIndex, canRoll := true, waitingForMove := false,
               diceValue := 1, consecutiveSixes := 0);
  }

  class GameEngine {
    var status: GameStatus
    var players: seq<Player>
    var currentTurnIndex: int
    var diceValue: int
    var isDiceRolling: bool
    var canRoll: bool
    var winners: seq<Color>
    var logs: seq<LogEntry>
    var waitingForMove: bool
    var validMoves: seq<int>
    var consecutiveSixes: int

    function State(): GameState
      reads this
    {
      GameState(status, players, currentTurnIndex, diceValue, isDiceRolling, canRoll,
                winners, logs, waitingForMove, validMoves, consecutiveSixes)
    }

    ghost predicate Valid()
      reads this
    {
      ValidState(State())
    }

    /** initGame: four seats with distinct ids, in the turn order. */
    constructor (seats: seq<Seat>)
      requires |seats| == 4
      requires forall i, k :: 0 <= i < k < 4 ==> seats[i].id != seats[k].id
      ensures State() == InitialState(seats) && Valid()
    {
      status := PLAYING;
      players := seq(4, i requires 0 <= i < 4 =>
        Player(seats[i].id, TurnOrder[i], seats[i].isBot, InitialPieces(TurnOrder[i]), false, 0));
      currentTurnIndex := 0;
      diceValue := 1;
      isDiceRolling := false;
      canRoll := true;
      winners := [];
      logs := [GameStarted];
      waitingForMove := false;
      validMoves := [];
      consecutiveSixes := 0;
      new;
      InitialStateValid(seats);
    }

    /** handleRollDice up to the timer: ignored unless a roll is due and none is running. */
    method RequestRoll()
      requires Valid()
      modifies this
      ensures State() == StartRollResult(old(State())) && Valid()
    {
      StartRollBehaviour(State());
      if !canRoll || isDiceRolling {
        return;
      }
      isDiceRolling := true;
      canRoll := false;
    }

    /** setGameState: the updater's result replaces the whole state. */
    method SetState(r: GameState)
      modifies this
      ensures State() == r
    {
      status, players, currentTurnIndex, diceValue, isDiceRolling, canRoll :=
        r.status, r.players, r.currentTurnIndex, r.diceValue, r.isDiceRolling, r.canRoll;
      winners, logs, waitingForMove, validMoves, consecutiveSixes :=
        r.winners, r.logs, r.waitingForMove, r.validMoves, r.consecutiveSixes;
    }

    /** The die lands on `value`. */
    method Roll(value: int)
      requires Valid() && 1 <= value <= 6
      modifies this
      ensures State() == RollResult(old(State()), value) && Valid()
    {
      RollBehaviour(State(), value);
      var r := RollUpdater(State(), value);
      SetState(r);
    }

    /** A click on piece `pieceId`. */
    method Move(pieceId: int)
      requires Valid()
      modifies this
      ensures State() == MoveResult(old(State()), pieceId) && Valid()
    {
      MovePreservesValid(State(), pieceId);
      if !waitingForMove {
        return;
      }
      var r := MoveUpdater(State(), pieceId);
      SetState(r);
    }

    /** The hand-over to the next seat, made only when no move is awaited. */
    method NextTurn()
      requires Valid() && !waitingForMove
      modifies this
      ensures State() == NextTurnResult(old(State())) && Valid()
    {
      NextTurnValid(State());
      var r := NextTurnUpdater(State());
      SetState(r);
    }
  }
}
