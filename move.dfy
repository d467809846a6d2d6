/**
 * The move updater of the app: the chosen piece advances, captures are
 * resolved, a piece reaching 56 is brought home, a seat whose pieces are all
 * home is ranked, and the extra-roll rule decides whether the mover rolls again.
 */
module Moves {
  import opened Types
  import opened Board
  import opened Seqs
  import opened GameLogic
  import opened Game

  function HasPieceId(id: int): Piece -> bool {
    (p: Piece) => p.id == id
  }

  /** The piece after the move: out of the base onto local 0, otherwise `dice` cells on. */
  function Advance(piece: Piece, dice: int): (r: Piece)
    ensures r.(position := piece.position) == piece
    ensures Promote(r).position == Destination(piece.position, dice)
  {
    if piece.position == -1 then piece.(position := 0) else piece.(position := piece.position + dice)
  }

  /** A piece that has reached 56 is recorded as finished (99). */
  function Promote(piece: Piece): (r: Piece)
    ensures r.(position := piece.position) == piece
    ensures r.position != 56 && (r != piece <==> piece.position == 56)
  {
    if piece.position == 56 then piece.(position := 99) else piece
  }

  /** `pieces.map(p => p.id === moved.id ? moved : p)` */
  function ReplacePiece(pieces: seq<Piece>, moved: Piece): (r: seq<Piece>)
    ensures |r| == |pieces| && Ids(r) == Ids(pieces)
    ensures forall j :: 0 <= j < |pieces| && pieces[j].id != moved.id ==> r[j] == pieces[j]
    ensures moved in r <==> moved.id in Ids(pieces)
  {
    seq(|pieces|, j requires 0 <= j < |pieces| => if pieces[j].id == moved.id then moved else pieces[j])
  }

  /** The chosen id names piece `pieceId` of the mover, which canMovePiece approves. */
  lemma ChosenPiece(s: GameState, pieceId: int)
    requires ValidState(s) && s.waitingForMove && pieceId in s.validMoves
    ensures 0 <= pieceId < 4
    ensures Find(s.players[s.currentTurnIndex].pieces, HasPieceId(pieceId)) == Some(s.players[s.currentTurnIndex].pieces[pieceId])
    ensures CanMove(s.players[s.currentTurnIndex].pieces[pieceId], s.diceValue, s.players)
  {
    var me := s.players[s.currentTurnIndex];
    assert SeatValid(me, s.currentTurnIndex);
    IdsOfMovable(me.pieces, s.diceValue, s.players, pieceId);
    var j :| 0 <= j < |me.pieces| && me.pieces[j].id == pieceId && CanMove(me.pieces[j], s.diceValue, s.players);
    assert j == pieceId;
    FindFirst(me.pieces, HasPieceId(pieceId), pieceId);
  }

  /**
   * The state after moving `piece` of the current seat by the die shown:
   * the piece leaves the base or advances, and the capture is resolved on
   * the players as they were.
   */
  function ApplyMove(s: GameState, piece: Piece): (r: GameState)
    requires 0 <= s.currentTurnIndex < |s.players|
    ensures |r.players| == |s.players| && r.currentTurnIndex == s.currentTurnIndex && r.diceValue == s.diceValue
    ensures !r.waitingForMove && r.validMoves == [] && |r.logs| >= |s.logs| && r.logs[..|s.logs|] == s.logs
  {
    var me := s.players[s.currentTurnIndex];
    var moved := Advance(piece, s.diceValue);
    var logs := if piece.position == -1 then s.logs + [Deployed(me.color)] else s.logs;
    var kill := KillOutcome(moved, s.players, me.id);
    Settle(s, moved, kill.players, kill.killed, logs + kill.logs)
  }

  /**
   * The rest of the move, once the captures are resolved: the moved piece
   * replaces the old one in the mover's seat, 56 is promoted to 99, a seat
   * whose four pieces are home is ranked, and the extra-roll rule is applied.
   */
  function Settle(s: GameState, moved: Piece, players: seq<Player>, killed: bool, logs: seq<LogEntry>): (r: GameState)
    requires 0 <= s.currentTurnIndex < |s.players| && |players| == |s.players|
    ensures |r.players| == |s.players| && r.currentTurnIndex == s.currentTurnIndex && r.diceValue == s.diceValue
    ensures r.status == s.status && r.consecutiveSixes == s.consecutiveSixes
    ensures forall i :: 0 <= i < |players| && i != s.currentTurnIndex ==> r.players[i] == players[i]
    ensures !r.waitingForMove && r.validMoves == [] && (s.diceValue == 6 || killed ==> r.canRoll)
    ensures |r.logs| >= |logs| && r.logs[..|logs|] == logs
    ensures r.winners == s.winners || r.winners == s.winners + [s.players[s.currentTurnIndex].color]
  {
    var cur := s.currentTurnIndex;
    var me := s.players[cur];
    var finished := moved.position == 99 || moved.position == 56;
    var homeLogs := if finished then logs + [PieceHome(me.color)] else logs;
    var pieces := ReplacePiece(me.pieces, Promote(moved));
    var allHome := AllHome(pieces);
    var newWinner := allHome && !me.hasWon;
    var rank := |s.winners| + 1;
    var mover := if newWinner then me.(pieces := pieces, hasWon := true, rank := rank) else me.(pieces := pieces);
    s.(players := players[cur := mover],
       waitingForMove := false,
       canRoll := s.diceValue == 6 || killed || (finished && !allHome),
       winners := if newWinner then s.winners + [me.color] else s.winners,
       logs := if newWinner then homeLogs + [PlayerFinished(me.color, rank)] else homeLogs,
       validMoves := [])
  }

  /**
   * handlePieceClick: ignored unless a move is awaited and the id is one of
   * the valid moves; a base piece is only moved out on a 6.
   */
  function MoveResult(s: GameState, pieceId: int): (r: GameState)
    requires ValidState(s)
    ensures !s.waitingForMove || pieceId !in s.validMoves ==> r == s
    ensures r == s || (!r.waitingForMove && r.validMoves == [] && r.currentTurnIndex == s.currentTurnIndex)
  {
    if !s.waitingForMove || pieceId !in s.validMoves then s
    else
      ChosenPiece(s, pieceId);
      var piece := Find(s.players[s.currentTurnIndex].pieces, HasPieceId(pieceId)).value;
      if piece.position == -1 && s.diceValue != 6 then s
      else ApplyMove(s, piece)
  }

  /** A move request changes the state exactly when a move is awaited and the id is a valid move. */
  lemma MoveAcceptedIffValid(s: GameState, pieceId: int)
    requires ValidState(s)
    ensures MoveResult(s, pieceId) != s <==> s.waitingForMove && pieceId in s.validMoves
  {
    if s.waitingForMove && pieceId in s.validMoves {
      ChosenPiece(s, pieceId);
      assert !MoveResult(s, pieceId).waitingForMove;
    }
  }

  /** Where the chosen piece ends up: 0 out of the base, 99 on reaching 56 exactly, otherwise `dice` cells on. */
  function Destination(from: int, dice: int): int {
    if from == -1 then 0 else if from + dice == 56 then 99 else from + dice
  }

  /** An accepted move applies to the chosen piece of a mover who has not won, and the mover is found by id. */
  lemma AcceptedMove(s: GameState, pieceId: int)
    requires ValidState(s) && s.waitingForMove && pieceId in s.validMoves
    ensures 0 <= pieceId < 4
    ensures var me := s.players[s.currentTurnIndex];
      && CanMove(me.pieces[pieceId], s.diceValue, s.players)
      && MoveResult(s, pieceId) == ApplyMove(s, me.pieces[pieceId])
      && !me.hasWon
      && FindById(s.players, me.id) == Some(me)
  {
    var cur := s.currentTurnIndex;
    var me := s.players[cur];
    ChosenPiece(s, pieceId);
    assert SeatValid(me, cur);
    assert !AllHome(me.pieces) by {
      assert me.pieces[pieceId].position != 99;
    }
    FindFirst(s.players, HasId(me.id), cur);
  }

  /**
   * ApplyMove on the mover's seat, from the seat alone: piece k takes its
   * destination, the other pieces stay, and the seat is ranked exactly when
   * all four are home.
   */
  lemma ApplyMoveMover(s: GameState, k: int)
    requires 0 <= s.currentTurnIndex < |s.players| && s.currentTurnIndex < 4
    requires SeatValid(s.players[s.currentTurnIndex], s.currentTurnIndex) && !s.players[s.currentTurnIndex].hasWon
    requires 0 <= k < 4 && 1 <= s.diceValue <= 6 && CanMove(s.players[s.currentTurnIndex].pieces[k], s.diceValue, s.players)
    ensures var r := ApplyMove(s, s.players[s.currentTurnIndex].pieces[k]);
      var cur := s.currentTurnIndex;
      var me := s.players[cur];
      var after := r.players[cur];
      var to := Advance(me.pieces[k], s.diceValue).position;
      && |r.players| == |s.players| && |after.pieces| == 4
      && after.pieces[k] == me.pieces[k].(position := Destination(me.pieces[k].position, s.diceValue))
      && (forall j :: 0 <= j < 4 && j != k ==> after.pieces[j] == me.pieces[j])
      && after.id == me.id && after.color == me.color && after.isBot == me.isBot
      && SeatValid(after, cur)
      && (AllHome(after.pieces) ==>
            && to == 56 && after.rank == |s.winners| + 1 && r.winners == s.winners + [me.color]
            && r.logs[|r.logs| - 1] == PlayerFinished(me.color, |s.winners| + 1))
      && (!AllHome(after.pieces) ==> after.rank == me.rank && r.winners == s.winners)
  {
    var cur := s.currentTurnIndex;
    var me := s.players[cur];
    var after := ApplyMove(s, me.pieces[k]).players[cur];
    assert ValidPosition(after.pieces[k].position);
    if AllHome(after.pieces) {
      assert after.pieces[k].position == 99;
    }
  }

  /**
   * Only the chosen piece of the mover changes: a base piece (which needs a
   * 6) goes to 0, any other goes `dice` cells on, and 56 becomes 99. The
   * seat, the turn, the die and the sixes counter stay.
   */
  lemma MoveUpdatesPiece(s: GameState, pieceId: int)
    requires ValidState(s) && s.waitingForMove && pieceId in s.validMoves
    ensures 0 <= pieceId < 4
    ensures var r := MoveResult(s, pieceId);
      var cur := s.currentTurnIndex;
      var before := s.players[cur].pieces;
      && |r.players| == 4 && |r.players[cur].pieces| == 4
      && (before[pieceId].position == -1 ==> s.diceValue == 6)
      && r.players[cur].pieces[pieceId] == before[pieceId].(position := Destination(before[pieceId].position, s.diceValue))
      && (forall j :: 0 <= j < 4 && j != pieceId ==> r.players[cur].pieces[j] == before[j])
      && r.players[cur].id == s.players[cur].id && r.players[cur].color == s.players[cur].color
      && r.players[cur].isBot == s.players[cur].isBot
      && r.currentTurnIndex == cur && r.diceValue == s.diceValue
      && r.consecutiveSixes == s.consecutiveSixes && r.status == s.status
  {
    AcceptedMove(s, pieceId);
    ApplyMoveMover(s, pieceId);
  }

  /** The cell `to` of the mover's colour is one where a capture is resolved. */
  predicate Capturing(to: int, c: Color) {
    to <= 50 && GetGlobalIndex(to, c) !in SafeZones
  }

  /**
   * The other seats: when the piece lands on the main track off the safe
   * cells, exactly their unfinished pieces on that cell go back to the base
   * (a seat that has won keeps its pieces); otherwise nothing of theirs
   * changes. A capture earns another roll.
   */
  lemma MoveCaptures(s: GameState, pieceId: int)
    requires ValidState(s) && s.waitingForMove && pieceId in s.validMoves
    ensures 0 <= pieceId < 4
    ensures var r := MoveResult(s, pieceId);
      var cur := s.currentTurnIndex;
      var me := s.players[cur];
      var to := Advance(me.pieces[pieceId], s.diceValue).position;
      var g := GetGlobalIndex(to, me.color);
      && |r.players| == 4
      && (forall i :: 0 <= i < 4 && i != cur ==> r.players[i].(pieces := s.players[i].pieces) == s.players[i])
      && (forall i :: 0 <= i < 4 && i != cur ==> |r.players[i].pieces| == |s.players[i].pieces|)
      && (forall i, j :: 0 <= i < 4 && i != cur && 0 <= j < |s.players[i].pieces| ==>
            r.players[i].pieces[j] ==
              if Capturing(to, me.color) && IsVictim(s.players[i], s.players[i].pieces[j], me.id, g)
              then s.players[i].pieces[j].(position := -1) else s.players[i].pieces[j])
      && (Capturing(to, me.color) && SomeVictim(s.players, me.id, g) ==> r.canRoll)
  {
    AcceptedMove(s, pieceId);
    var me := s.players[s.currentTurnIndex];
    var moved := Advance(me.pieces[pieceId], s.diceValue);
    assert SeatValid(me, s.currentTurnIndex);
    if Capturing(moved.position, me.color) {
      CaptureSendsVictimsHome(moved, s.players, me.id);
    } else {
      NoCaptureOffTrackOrSafe(moved, s.players, me.id);
    }
  }

  /**
   * After a move nothing is awaited, and the mover rolls again exactly on a
   * 6, on a capture, or when a piece came home without finishing the seat.
   */
  lemma MoveTurnFlags(s: GameState, pieceId: int)
    requires ValidState(s) && s.waitingForMove && pieceId in s.validMoves
    ensures 0 <= pieceId < 4
    ensures var r := MoveResult(s, pieceId);
      var cur := s.currentTurnIndex;
      var me := s.players[cur];
      var to := Advance(me.pieces[pieceId], s.diceValue).position;
      && |r.players| == 4
      && !r.waitingForMove && r.validMoves == []
      && (r.canRoll <==>
            (|| s.diceValue == 6
             || (Capturing(to, me.color) && SomeVictim(s.players, me.id, GetGlobalIndex(to, me.color)))
             || (to == 56 && !AllHome(r.players[cur].pieces))))
  {
    AcceptedMove(s, pieceId);
    var me := s.players[s.currentTurnIndex];
    var moved := Advance(me.pieces[pieceId], s.diceValue);
    if Capturing(moved.position, me.color) {
      CaptureSendsVictimsHome(moved, s.players, me.id);
    } else {
      NoCaptureOffTrackOrSafe(moved, s.players, me.id);
    }
  }

  /**
   * A move that completes the seat ends on 56, off the shared track, so it
   * captures nothing: the finished seat rolls again exactly on a 6.
   */
  lemma FinishingMoveRollsOnlyOnSix(s: GameState, pieceId: int)
    requires ValidState(s) && s.waitingForMove && pieceId in s.validMoves
    ensures var r := MoveResult(s, pieceId);
      AllHome(r.players[s.currentTurnIndex].pieces) ==> (r.canRoll <==> s.diceValue == 6)
  {
    MoveTurnFlags(s, pieceId);
    MoveWinBookkeeping(s, pieceId);
  }

  /**
   * The mover has won exactly when all four pieces are home, which can only
   * follow a piece reaching 56; then the rank is the number of earlier
   * winners plus one, the colour joins the winners and the finish is logged.
   * Otherwise rank and winners stay.
   */
  lemma MoveWinBookkeeping(s: GameState, pieceId: int)
    requires ValidState(s) && s.waitingForMove && pieceId in s.validMoves
    ensures 0 <= pieceId < 4
    ensures var r := MoveResult(s, pieceId);
      var cur := s.currentTurnIndex;
      var me := s.players[cur];
      var to := Advance(me.pieces[pieceId], s.diceValue).position;
      && |r.players| == 4
      && (r.players[cur].hasWon <==> AllHome(r.players[cur].pieces))
      && (AllHome(r.players[cur].pieces) ==>
            && to == 56
            && r.players[cur].rank == |s.winners| + 1
            && r.winners == s.winners + [me.color]
            && r.logs[|r.logs| - 1] == PlayerFinished(me.color, |s.winners| + 1))
      && (!AllHome(r.players[cur].pieces) ==> r.players[cur].rank == me.rank && r.winners == s.winners)
  {
    AcceptedMove(s, pieceId);
    ApplyMoveMover(s, pieceId);
  }

  /** The entries a move appends to the log: the deployment, the captures, the arrival home, the seat's finish. */
  /** Settle appends the arrival home to the log it is given, then only finish entries. */
  lemma SettleLogs(s: GameState, moved: Piece, players: seq<Player>, killed: bool, logs: seq<LogEntry>)
    returns (fin: seq<LogEntry>)
    requires 0 <= s.currentTurnIndex < |s.players| && |players| == |s.players| && moved.position != 99
    ensures Settle(s, moved, players, killed, logs).logs
      == logs + (if moved.position == 56 then [PieceHome(s.players[s.currentTurnIndex].color)] else []) + fin
    ensures forall e :: e in fin ==> e.PlayerFinished?
  {
    var me := s.players[s.currentTurnIndex];
    if AllHome(ReplacePiece(me.pieces, Promote(moved))) && !me.hasWon {
      fin := [PlayerFinished(me.color, |s.winners| + 1)];
    } else {
      fin := [];
    }
  }

  lemma ApplyMoveLogs(s: GameState, piece: Piece) returns (fin: seq<LogEntry>)
    requires 0 <= s.currentTurnIndex < |s.players| && piece.position != 99 && piece.position + s.diceValue <= 56
    ensures var me := s.players[s.currentTurnIndex];
      var moved := Advance(piece, s.diceValue);
      && ApplyMove(s, piece).logs == s.logs + (if piece.position == -1 then [Deployed(me.color)] else [])
           + KillOutcome(moved, s.players, me.id).logs + (if moved.position == 56 then [PieceHome(me.color)] else []) + fin
      && (forall e :: e in fin ==> e.PlayerFinished?)
  {
    var me := s.players[s.currentTurnIndex];
    var moved := Advance(piece, s.diceValue);
    var kill := KillOutcome(moved, s.players, me.id);
    var d := if piece.position == -1 then [Deployed(me.color)] else [];
    assert ApplyMove(s, piece) == Settle(s, moved, kill.players, kill.killed, s.logs + d + kill.logs);
    fin := SettleLogs(s, moved, kill.players, kill.killed, s.logs + d + kill.logs);
  }


  /** What the new part of a log made of those four kinds of entries says. */
  lemma NewEntries(logs: seq<LogEntry>, prior: seq<LogEntry>, d: seq<LogEntry>, k: seq<LogEntry>, h: seq<LogEntry>,
                   fin: seq<LogEntry>, c: Color)
    requires logs == prior + d + k + h + fin
    requires d == [] || d == [Deployed(c)]
    requires h == [] || h == [PieceHome(c)]
    requires forall e :: e in k ==> e.Captured?
    requires forall e :: e in fin ==> e.PlayerFinished?
    ensures |prior| <= |logs| && logs[..|prior|] == prior
    ensures Deployed(c) in logs[|prior|..] <==> d != []
    ensures PieceHome(c) in logs[|prior|..] <==> h != []
    ensures forall e :: e in logs[|prior|..] && e.Captured? <==> e in k
    ensures forall e :: e in logs[|prior|..] ==> e.Deployed? || e.Captured? || e.PieceHome? || e.PlayerFinished?
  {
    assert logs[|prior|..] == d + k + h + fin;
  }

  /**
   * The log of a move: the old log is kept, and the new entries report a
   * deployment exactly when the piece left the base, a capture exactly when
   * one happened (each naming the mover and a victim's colour), the arrival
   * home exactly when the piece reached 56, and nothing else but the seat's
   * finish.
   */
  lemma MoveLogs(s: GameState, pieceId: int)
    requires ValidState(s) && s.waitingForMove && pieceId in s.validMoves
    ensures 0 <= pieceId < 4
    ensures var r := MoveResult(s, pieceId);
      var me := s.players[s.currentTurnIndex];
      var to := Advance(me.pieces[pieceId], s.diceValue).position;
      var g := GetGlobalIndex(to, me.color);
      && |s.logs| <= |r.logs| && r.logs[..|s.logs|] == s.logs
      && (Deployed(me.color) in r.logs[|s.logs|..] <==> me.pieces[pieceId].position == -1)
      && (PieceHome(me.color) in r.logs[|s.logs|..] <==> to == 56)
      && ((exists e :: e in r.logs[|s.logs|..] && e.Captured?) <==> Capturing(to, me.color) && SomeVictim(s.players, me.id, g))
      && (forall e :: e in r.logs[|s.logs|..] && e.Captured? ==> e.capturer == me.color && VictimOfColor(s.players, me.id, g, e.victim))
      && (forall e :: e in r.logs[|s.logs|..] ==> e.Deployed? || e.Captured? || e.PieceHome? || e.PlayerFinished?)
  {
    AcceptedMove(s, pieceId);
    var me := s.players[s.currentTurnIndex];
    var piece := me.pieces[pieceId];
    var moved := Advance(piece, s.diceValue);
    var g := GetGlobalIndex(moved.position, me.color);
    var kill := KillOutcome(moved, s.players, me.id);
    var fin := ApplyMoveLogs(s, piece);
    if Capturing(moved.position, me.color) {
      CaptureSendsVictimsHome(moved, s.players, me.id);
      CaptureLogsName(s.players, me.id, me.color, g);
    } else {
      NoCaptureOffTrackOrSafe(moved, s.players, me.id);
    }
    NewEntries(MoveResult(s, pieceId).logs, s.logs, if piece.position == -1 then [Deployed(me.color)] else [],
      kill.logs, if moved.position == 56 then [PieceHome(me.color)] else [], fin, me.color);
    if kill.logs != [] {
      assert kill.logs[0] in kill.logs;
    }
  }

  /** Sending the victims home keeps a seat well formed. */
  lemma SendHomeKeepsSeat(p: Player, i: int, moverId: string, g: int)
    requires 0 <= i < 4 && SeatValid(p, i)
    ensures SeatValid(SendHome(p, moverId, g), i)
    ensures SendHome(p, moverId, g).(pieces := p.pieces) == p
  {
    var q := SendHome(p, moverId, g);
    if exists j :: 0 <= j < 4 && IsVictim(p, p.pieces[j], moverId, g) {
      var j :| 0 <= j < 4 && IsVictim(p, p.pieces[j], moverId, g);
      assert q.pieces[j].position == -1;
    } else {
      assert q.pieces == p.pieces;
    }
  }

  /** A capture keeps every seat well formed and changes nothing but piece positions. */
  lemma KillKeepsSeatsValid(moved: Piece, players: seq<Player>, moverId: string)
    requires |players| == 4 && forall i :: 0 <= i < 4 ==> SeatValid(players[i], i)
    ensures var out := KillOutcome(moved, players, moverId).players;
      && |out| == 4
      && (forall i :: 0 <= i < 4 ==> out[i].(pieces := players[i].pieces) == players[i])
      && (forall i :: 0 <= i < 4 ==> SeatValid(out[i], i))
  {
    var c := CaptureCell(moved, players, moverId);
    if c.Some? {
      var out := KillOutcome(moved, players, moverId).players;
      forall i | 0 <= i < 4
        ensures SeatValid(out[i], i) && out[i].(pieces := players[i].pieces) == players[i]
      {
        SendHomeKeepsSeat(players[i], i, moverId, c.value);
      }
    }
  }

  /** The winners list stays valid when only the mover, who had not won, may have finished. */
  lemma WinnersAfterMove(s: GameState, r: GameState)
    requires |s.players| == 4 && |r.players| == 4 && 0 <= s.currentTurnIndex < 4
    requires forall i :: 0 <= i < 4 ==> s.players[i].color == TurnOrder[i]
    requires WinnersValid(s.players, s.winners)
    requires forall i :: 0 <= i < 4 && i != s.currentTurnIndex ==> r.players[i].(pieces := s.players[i].pieces) == s.players[i]
    requires var me := s.players[s.currentTurnIndex];
      var after := r.players[s.currentTurnIndex];
      && !me.hasWon && after.color == me.color
      && (after.hasWon ==> after.rank == |s.winners| + 1 && r.winners == s.winners + [me.color])
      && (!after.hasWon ==> after.rank == me.rank && r.winners == s.winners)
    ensures WinnersValid(r.players, r.winners)
  {
    var me := s.players[s.currentTurnIndex];
    var after := r.players[s.currentTurnIndex];
    assert me.color !in s.winners;
    if after.hasWon {
      var w := r.winners;
      forall a, b | 0 <= a < b < |w|
        ensures w[a] != w[b]
      {
        if b < |s.winners| {
          assert w[a] == s.winners[a] && w[b] == s.winners[b];
        } else {
          assert s.winners[a] in s.winners;
        }
      }
      forall i | 0 <= i < 4 && i != s.currentTurnIndex
        ensures (r.players[i].hasWon <==> r.players[i].color in w)
        ensures r.players[i].hasWon ==> 1 <= r.players[i].rank <= |w| && w[r.players[i].rank - 1] == r.players[i].color
      {
        assert r.players[i].color != me.color;
        assert r.players[i].color in w <==> r.players[i].color in s.winners;
      }
    }
  }

  /** The invariant of a state whose seats, ids and winners are valid, with nothing awaited. */
  lemma StateValidAfterMove(s: GameState, r: GameState)
    requires ValidState(s) && |r.players| == 4
    requires forall i :: 0 <= i < 4 ==> SeatValid(r.players[i], i) && r.players[i].id == s.players[i].id
    requires WinnersValid(r.players, r.winners)
    requires r.currentTurnIndex == s.currentTurnIndex && r.diceValue == s.diceValue && r.consecutiveSixes == s.consecutiveSixes
    requires !r.waitingForMove && r.validMoves == []
    ensures ValidState(r)
  {
  }

  /** After the move every seat is still well formed and keeps its id. */
  lemma ApplyMoveSeats(s: GameState, k: int)
    requires ValidState(s) && 0 <= k < 4 && !s.players[s.currentTurnIndex].hasWon
    requires CanMove(s.players[s.currentTurnIndex].pieces[k], s.diceValue, s.players)
    ensures var r := ApplyMove(s, s.players[s.currentTurnIndex].pieces[k]);
      && |r.players| == 4
      && (forall i :: 0 <= i < 4 ==> SeatValid(r.players[i], i) && r.players[i].id == s.players[i].id)
      && (forall i :: 0 <= i < 4 && i != s.currentTurnIndex ==> r.players[i].(pieces := s.players[i].pieces) == s.players[i])
  {
    var me := s.players[s.currentTurnIndex];
    assert SeatValid(me, s.currentTurnIndex);
    KillKeepsSeatsValid(Advance(me.pieces[k], s.diceValue), s.players, me.id);
    ApplyMoveMover(s, k);
  }

  /** After the move the winners list is still valid. */
  lemma ApplyMoveWinners(s: GameState, k: int)
    requires ValidState(s) && 0 <= k < 4 && !s.players[s.currentTurnIndex].hasWon
    requires CanMove(s.players[s.currentTurnIndex].pieces[k], s.diceValue, s.players)
    ensures var r := ApplyMove(s, s.players[s.currentTurnIndex].pieces[k]);
      |r.players| == 4 && WinnersValid(r.players, r.winners)
  {
    var me := s.players[s.currentTurnIndex];
    var r := ApplyMove(s, me.pieces[k]);
    assert SeatValid(me, s.currentTurnIndex);
    ApplyMoveSeats(s, k);
    ApplyMoveMover(s, k);
    assert forall i :: 0 <= i < 4 ==> s.players[i].color == TurnOrder[i] by {
      assert forall i :: 0 <= i < 4 ==> SeatValid(s.players[i], i);
    }
    WinnersAfterMove(s, r);
  }

  /** Moving a movable piece of a mover who has not won keeps the state well formed. */
  lemma ApplyMovePreservesValid(s: GameState, k: int)
    requires ValidState(s) && 0 <= k < 4 && !s.players[s.currentTurnIndex].hasWon
    requires CanMove(s.players[s.currentTurnIndex].pieces[k], s.diceValue, s.players)
    ensures ValidState(ApplyMove(s, s.players[s.currentTurnIndex].pieces[k]))
  {
    ApplyMoveSeats(s, k);
    ApplyMoveWinners(s, k);
    StateValidAfterMove(s, ApplyMove(s, s.players[s.currentTurnIndex].pieces[k]));
  }

  /** Every move request keeps the state well formed. */
  lemma MovePreservesValid(s: GameState, pieceId: int)
    requires ValidState(s)
    ensures ValidState(MoveResult(s, pieceId))
  {
    if s.waitingForMove && pieceId in s.validMoves {
      AcceptedMove(s, pieceId);
      ApplyMovePreservesValid(s, pieceId);
    }
  }

  /** While a move is awaited, the bot always names a valid move, and that move is accepted. */
  lemma BotMoveAccepted(s: GameState, difficulty: Difficulty, pick: nat)
    requires ValidState(s) && s.waitingForMove
    ensures var m := GetBotMove(s.diceValue, s.players[s.currentTurnIndex], s.players, difficulty, pick);
      m.Some? && m.value in s.validMoves && MoveResult(s, m.value) != s
  {
    var me := s.players[s.currentTurnIndex];
    var m := GetBotMove(s.diceValue, me, s.players, difficulty, pick);
    assert MovablePieces(me.pieces, s.diceValue, s.players) != [];
    BotMoveIsLegal(s.diceValue, me, s.players, difficulty, pick);
    IdsOfMovable(me.pieces, s.diceValue, s.players, m.value);
    MoveAcceptedIffValid(s, m.value);
  }
}
