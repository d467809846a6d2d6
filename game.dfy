/**
 * The turn state machine of the app: the game state, the start of a game,
 * the die roll, the move of a piece and the hand-over to the next seat.
 */
module Game {
  import opened Types
  import opened Board
  import opened Seqs
  import opened GameLogic

  /** A seat as the lobby hands it over. */
  datatype Seat = Seat(id: string, isBot: bool)

  /** The game state the app replaces on every event. */
  datatype GameState = GameState(
    status: GameStatus,
    players: seq<Player>,
    currentTurnIndex: int,
    diceValue: int,
    isDiceRolling: bool,
    canRoll: bool,
    winners: seq<Color>,
    logs: seq<LogEntry>,
    waitingForMove: bool,
    validMoves: seq<int>,
    consecutiveSixes: int)

  // ---------------------------------------------------------------------------
  // Well-formed states

  /** The positions a piece can hold: base, track, home lane, finished. */
  predicate ValidPosition(pos: int) {
    pos == -1 || 0 <= pos <= 55 || pos == 99
  }

  predicate AllHome(pieces: seq<Piece>) {
    forall j :: 0 <= j < |pieces| ==> pieces[j].position == 99
  }

  /** Seat i holds colour TurnOrder[i] and its four pieces 0..3 of that colour; it has won exactly when all four are home. */
  predicate SeatValid(p: Player, i: int)
    requires 0 <= i < 4
  {
    && p.color == TurnOrder[i]
    && |p.pieces| == 4
    && (forall j :: 0 <= j < 4 ==> p.pieces[j].id == j && p.pieces[j].color == p.color && ValidPosition(p.pieces[j].position))
    && (p.hasWon <==> AllHome(p.pieces))
  }

  predicate NoDup(s: seq<Color>) {
    forall a, b :: 0 <= a < b < |s| ==> s[a] != s[b]
  }

  /** The winners list holds each finished colour once, and a finished seat's rank is its place in it. */
  predicate WinnersValid(players: seq<Player>, winners: seq<Color>)
    requires |players| == 4
  {
    && NoDup(winners)
    && (forall i :: 0 <= i < 4 ==> (players[i].hasWon <==> players[i].color in winners))
    && (forall i :: 0 <= i < 4 && players[i].hasWon ==> 1 <= players[i].rank <= |winners| && winners[players[i].rank - 1] == players[i].color)
    && (forall i :: 0 <= i < 4 && !players[i].hasWon ==> players[i].rank == 0)
  }

  function Ids(s: seq<Piece>): (r: seq<int>)
    ensures |r| == |s| && forall j :: 0 <= j < |s| ==> r[j] == s[j].id
  {
    seq(|s|, j requires 0 <= j < |s| => s[j].id)
  }

  lemma IdsSnoc(s: seq<Piece>, x: Piece)
    ensures Ids(s + [x]) == Ids(s) + [x.id]
  {
  }

  /** The awaited moves are the ids of the mover's pieces that can move with the die shown. */
  predicate ValidMovesFor(s: GameState)
    requires 0 <= s.currentTurnIndex < |s.players|
  {
    s.validMoves != [] && s.validMoves == Ids(MovablePieces(s.players[s.currentTurnIndex].pieces, s.diceValue, s.players))
  }

  /** The invariant every reachable state keeps. */
  predicate ValidState(s: GameState) {
    && |s.players| == 4
    && (forall i :: 0 <= i < 4 ==> SeatValid(s.players[i], i))
    && (forall i, k :: 0 <= i < k < 4 ==> s.players[i].id != s.players[k].id)
    && WinnersValid(s.players, s.winners)
    && 0 <= s.currentTurnIndex < 4
    && 1 <= s.diceValue <= 6
    && 0 <= s.consecutiveSixes < 3
    && (s.waitingForMove ==> ValidMovesFor(s))
    && (!s.waitingForMove ==> s.validMoves == [])
    && (s.canRoll ==> !s.waitingForMove)
  }

  // ---------------------------------------------------------------------------
  // initGame

  /** INITIAL_PIECES: four pieces of colour c, all in the base. */
  function InitialPieces(c: Color): (r: seq<Piece>)
    ensures |r| == 4 && Ids(r) == [0, 1, 2, 3]
    ensures forall j :: 0 <= j < 4 ==> r[j].color == c && r[j].position == -1
  {
    [Piece(0, c, -1), Piece(1, c, -1), Piece(2, c, -1), Piece(3, c, -1)]
  }

  /** initGame: seat i gets colour TurnOrder[i] and starts with every piece in the base; RED is to roll. */
  function InitialState(seats: seq<Seat>): (r: GameState)
    requires |seats| == 4
    ensures |r.players| == 4
    ensures forall i :: 0 <= i < 4 ==>
      && r.players[i].id == seats[i].id && r.players[i].isBot == seats[i].isBot
      && r.players[i].color == TurnOrder[i] && r.players[i].pieces == InitialPieces(TurnOrder[i])
  {
    GameState(
      PLAYING,
      seq(4, i requires 0 <= i < 4 => Player(seats[i].id, TurnOrder[i], seats[i].isBot, InitialPieces(TurnOrder[i]), false, 0)),
      0, 1, false, true, [], [GameStarted], false, [], 0)
  }

  /** A new game is well formed when the seats have distinct ids, and nobody has moved or won. */
  lemma InitialStateValid(seats: seq<Seat>)
    requires |seats| == 4
    requires forall i, k :: 0 <= i < k < 4 ==> seats[i].id != seats[k].id
    ensures var s := InitialState(seats);
      && ValidState(s)
      && s.status == PLAYING && s.currentTurnIndex == 0 && s.canRoll && !s.isDiceRolling && !s.waitingForMove
      && s.diceValue == 1 && s.consecutiveSixes == 0 && s.validMoves == []
      && s.winners == [] && s.logs == [GameStarted]
      && (forall i :: 0 <= i < 4 ==> !s.players[i].hasWon && s.players[i].rank == 0)
      && (forall i, j :: 0 <= i < 4 && 0 <= j < 4 ==> s.players[i].pieces[j].position == -1)
      && (forall i :: 0 <= i < 4 ==> s.players[i].id == seats[i].id && s.players[i].isBot == seats[i].isBot)
  {
    var s := InitialState(seats);
    forall i | 0 <= i < 4
      ensures SeatValid(s.players[i], i)
    {
      assert s.players[i].pieces[0].position == -1;
    }
  }

  // ---------------------------------------------------------------------------
  // handleRollDice

  /** The guard of handleRollDice and the state it sets before the die lands. */
  function StartRollResult(s: GameState): (r: GameState)
    ensures r == s <==> !s.canRoll || s.isDiceRolling
    ensures r.(isDiceRolling := s.isDiceRolling, canRoll := s.canRoll) == s
    ensures !r.canRoll || r.isDiceRolling
  {
    if !s.canRoll || s.isDiceRolling then s
    else s.(isDiceRolling := true, canRoll := false)
  }

  /** A roll request is ignored unless a roll is due and none is running; otherwise only the two flags change. */
  lemma StartRollBehaviour(s: GameState)
    requires ValidState(s)
    ensures var r := StartRollResult(s);
      && ValidState(r)
      && (!s.canRoll || s.isDiceRolling ==> r == s)
      && (s.canRoll && !s.isDiceRolling ==> r.isDiceRolling && !r.canRoll && r.(isDiceRolling := s.isDiceRolling, canRoll := s.canRoll) == s)
  {
  }

  /** The streak counter after rolling `value`, before the forfeit check. */
  function SixesAfter(s: GameState, value: int): int {
    if value == 6 then s.consecutiveSixes + 1 else 0
  }

  /** The roll updater of handleRollDice once the die shows `value`. */
  function RollResult(s: GameState, value: int): (r: GameState)
    requires 0 <= s.currentTurnIndex < |s.players|
    ensures r.players == s.players && r.winners == s.winners && r.status == s.status
    ensures r.currentTurnIndex == s.currentTurnIndex && r.diceValue == value && !r.isDiceRolling
    ensures |r.logs| > |s.logs| && r.logs[..|s.logs| + 1] == s.logs + [Rolled(s.players[s.currentTurnIndex].color, value)]
    ensures r.waitingForMove <==> r.validMoves != []
    ensures r.waitingForMove ==> !r.canRoll
  {
    var me := s.players[s.currentTurnIndex];
    var logs := s.logs + [Rolled(me.color, value)];
    var sixes := SixesAfter(s, value);
    if sixes == 3 then
      s.(diceValue := value, isDiceRolling := false, waitingForMove := false, canRoll := false,
         validMoves := [], logs := logs + [ThreeSixes(me.color)], consecutiveSixes := 0)
    else
      var valid := Ids(MovablePieces(me.pieces, value, s.players));
      if valid == [] then
        s.(diceValue := value, isDiceRolling := false, waitingForMove := false, canRoll := value == 6,
           logs := logs + [NoValidMoves(me.color)], validMoves := [], consecutiveSixes := sixes)
      else
        s.(diceValue := value, isDiceRolling := false, canRoll := false, waitingForMove := true,
           validMoves := valid, logs := logs, consecutiveSixes := sixes)
  }

  /** An id is a valid move exactly when it names a piece of the mover that canMovePiece approves. */
  lemma IdsOfMovable(pieces: seq<Piece>, dice: int, players: seq<Player>, id: int)
    ensures id in Ids(MovablePieces(pieces, dice, players)) <==>
      exists j :: 0 <= j < |pieces| && pieces[j].id == id && CanMove(pieces[j], dice, players)
  {
    var m := MovablePieces(pieces, dice, players);
    if id in Ids(m) {
      var k :| 0 <= k < |m| && Ids(m)[k] == id;
      assert m[k] in m;
      var j :| 0 <= j < |pieces| && pieces[j] == m[k];
    }
    if exists j :: 0 <= j < |pieces| && pieces[j].id == id && CanMove(pieces[j], dice, players) {
      var j :| 0 <= j < |pieces| && pieces[j].id == id && CanMove(pieces[j], dice, players);
      assert pieces[j] in m;
      var k :| 0 <= k < |m| && m[k] == pieces[j];
      assert Ids(m)[k] == id;
    }
  }

  /**
   * A roll: the streak counter counts sixes and is reset by any other value;
   * a third six forfeits the turn; otherwise the valid moves are exactly the
   * mover's pieces canMovePiece approves, a move is awaited exactly when
   * there is one, and with none a six still earns another roll. Seats and
   * winners are untouched.
   */
  lemma RollBehaviour(s: GameState, value: int)
    requires ValidState(s) && 1 <= value <= 6
    ensures var r := RollResult(s, value);
      var me := s.players[s.currentTurnIndex];
      && ValidState(r)
      && r.players == s.players && r.winners == s.winners && r.currentTurnIndex == s.currentTurnIndex
      && r.diceValue == value && !r.isDiceRolling
      && (value == 6 && s.consecutiveSixes == 2 ==>
            !r.waitingForMove && !r.canRoll && r.validMoves == [] && r.consecutiveSixes == 0
            && r.logs == s.logs + [Rolled(me.color, value), ThreeSixes(me.color)])
      && (!(value == 6 && s.consecutiveSixes == 2) ==>
            && r.consecutiveSixes == (if value == 6 then s.consecutiveSixes + 1 else 0)
            && (forall id :: id in r.validMoves <==>
                  exists j :: 0 <= j < 4 && me.pieces[j].id == id && CanMove(me.pieces[j], value, s.players))
            && (r.waitingForMove <==> r.validMoves != [])
            && (r.validMoves == [] ==> r.canRoll == (value == 6)))
  {
    var me := s.players[s.currentTurnIndex];
    forall id
      ensures id in Ids(MovablePieces(me.pieces, value, s.players)) <==>
        exists j :: 0 <= j < 4 && me.pieces[j].id == id && CanMove(me.pieces[j], value, s.players)
    {
      IdsOfMovable(me.pieces, value, s.players, id);
    }
  }

  // ---------------------------------------------------------------------------
  // nextTurn

  /** The first seat clockwise after cur whose player has not won; cur itself when they all have. */
  function NextSeat(players: seq<Player>, cur: int): (r: int)
    requires |players| == 4 && 0 <= cur < 4
    ensures 0 <= r < 4
    ensures r != cur ==> !players[r].hasWon
    ensures r == cur ==> forall k :: 1 <= k < 4 ==> players[Clockwise(cur, k)].hasWon
  {
    if !players[(cur + 1) % 4].hasWon then (cur + 1) % 4
    else if !players[(cur + 2) % 4].hasWon then (cur + 2) % 4
    else if !players[(cur + 3) % 4].hasWon then (cur + 3) % 4
    else cur
  }

  /** nextTurn: the game ends once three seats have won; otherwise the turn passes on with a fresh die. */
  function NextTurnResult(s: GameState): (r: GameState)
    requires |s.players| == 4 && 0 <= s.currentTurnIndex < 4
    ensures r.players == s.players && r.winners == s.winners && r.logs == s.logs && r.validMoves == s.validMoves
    ensures 0 <= r.currentTurnIndex < 4
    ensures |s.winners| >= 3 ==> r.status == FINISHED && r.currentTurnIndex == s.currentTurnIndex
    ensures |s.winners| < 3 ==> r.status == s.status && r.canRoll && !r.waitingForMove && r.diceValue == 1 && r.consecutiveSixes == 0
    ensures r.currentTurnIndex != s.currentTurnIndex ==> !s.players[r.currentTurnIndex].hasWon
  {
    if |s.winners| >= 3 then s.(status := FINISHED)
    else s.(currentTurnIndex := NextSeat(s.players, s.currentTurnIndex), canRoll := true,
            waitingForMove := false, diceValue := 1, consecutiveSixes := 0)
  }

  /** Three distinct colours in a list without repeats make it at least three long. */
  lemma ThreeInList(w: seq<Color>, a: Color, b: Color, c: Color)
    requires NoDup(w) && a in w && b in w && c in w && a != b && b != c && a != c
    ensures |w| >= 3
  {
    var i :| 0 <= i < |w| && w[i] == a;
    var j :| 0 <= j < |w| && w[j] == b;
    var k :| 0 <= k < |w| && w[k] == c;
    assert i != j && j != k && i != k;
  }

  /** The seat k places clockwise from cur. */
  function Clockwise(cur: int, k: int): int {
    (cur + k) % 4
  }

  /** The seat d places on is NextSeat when the d - 1 seats before it have won and it has not (or d is 4). */
  lemma FirstOpenSeat(players: seq<Player>, cur: int, d: int)
    requires |players| == 4 && 0 <= cur < 4 && 1 <= d <= 4
    requires forall k :: 1 <= k < d ==> players[Clockwise(cur, k)].hasWon
    requires d < 4 ==> !players[Clockwise(cur, d)].hasWon
    ensures NextSeat(players, cur) == Clockwise(cur, d)
  {
    if d > 1 { assert players[Clockwise(cur, 1)].hasWon; }
    if d > 2 { assert players[Clockwise(cur, 2)].hasWon; }
    if d > 3 { assert players[Clockwise(cur, 3)].hasWon; }
  }

  /** Fewer than three winners leave some other seat open. */
  lemma SomeSeatOpen(players: seq<Player>, winners: seq<Color>, cur: int)
    requires |players| == 4 && 0 <= cur < 4 && NoDup(winners) && |winners| < 3
    requires forall i :: 0 <= i < 4 ==> players[i].color == TurnOrder[i] && (players[i].hasWon ==> players[i].color in winners)
    ensures NextSeat(players, cur) != cur
  {
    if NextSeat(players, cur) == cur {
      var a, b, c := (cur + 1) % 4, (cur + 2) % 4, (cur + 3) % 4;
      ThreeInList(winners, players[a].color, players[b].color, players[c].color);
    }
  }

  /** With three winners the game is over and nothing else changes. */
  lemma NextTurnEndsGame(s: GameState)
    requires ValidState(s) && |s.winners| >= 3
    ensures NextTurnResult(s) == s.(status := FINISHED)
    ensures ValidState(NextTurnResult(s))
  {
  }

  /**
   * With fewer than three winners the turn goes to a different seat whose
   * player has not won, every seat skipped on the way has won, and the new
   * turn starts with a roll; seats, winners and status are untouched.
   */
  lemma NextTurnPassesOn(s: GameState)
    requires ValidState(s) && |s.winners| < 3
    ensures var r := NextTurnResult(s);
      var cur := s.currentTurnIndex;
      && r.currentTurnIndex != cur && !s.players[r.currentTurnIndex].hasWon
      && (exists d :: 1 <= d < 4 && r.currentTurnIndex == Clockwise(cur, d)
            && forall k :: 1 <= k < d ==> s.players[Clockwise(cur, k)].hasWon)
      && r.canRoll && !r.waitingForMove && r.diceValue == 1 && r.consecutiveSixes == 0
      && r.players == s.players && r.winners == s.winners && r.status == s.status
  {
    var cur := s.currentTurnIndex;
    assert forall i :: 0 <= i < 4 ==> s.players[i].color == TurnOrder[i] && (s.players[i].hasWon ==> s.players[i].color in s.winners) by {
      forall i | 0 <= i < 4 ensures s.players[i].color == TurnOrder[i] && (s.players[i].hasWon ==> s.players[i].color in s.winners) {
        assert SeatValid(s.players[i], i);
      }
    }
    SomeSeatOpen(s.players, s.winners, cur);
    NextSeatIsFirstOpen(s.players, cur);
  }

  /** When NextSeat moves at all, it moves to the first open seat clockwise. */
  lemma NextSeatIsFirstOpen(players: seq<Player>, cur: int)
    requires |players| == 4 && 0 <= cur < 4 && NextSeat(players, cur) != cur
    ensures var n := NextSeat(players, cur);
      !players[n].hasWon &&
      exists d :: 1 <= d < 4 && n == Clockwise(cur, d) && forall k :: 1 <= k < d ==> players[Clockwise(cur, k)].hasWon
  {
    var n := NextSeat(players, cur);
    if n == Clockwise(cur, 1) {
    } else if n == Clockwise(cur, 2) {
      assert players[Clockwise(cur, 1)].hasWon;
    } else {
      assert players[Clockwise(cur, 1)].hasWon && players[Clockwise(cur, 2)].hasWon;
      assert n == Clockwise(cur, 3);
    }
  }

  /**
   * The hand-over keeps the state well formed. The app calls nextTurn only
   * when no move is awaited: the auto-pass effect checks it, and the bot's
   * fallback is reached only without a move (BotMoveAccepted).
   */
  lemma NextTurnValid(s: GameState)
    requires ValidState(s) && !s.waitingForMove
    ensures ValidState(NextTurnResult(s))
  {
  }

  // ---------------------------------------------------------------------------
  // Auto-pass

  /** The condition under which the app passes the turn on by itself. */
  predicate AutoPassDue(s: GameState) {
    !s.isDiceRolling && !s.canRoll && !s.waitingForMove && s.status == PLAYING
  }

  /**
   * When the auto-pass fires on a well-formed state, no move is awaited, the
   * hand-over keeps the state well formed, and it does not fire again at once:
   * the next seat may roll, or the game is over.
   */
  lemma AutoPassHandsOver(s: GameState)
    requires ValidState(s) && AutoPassDue(s)
    ensures s.validMoves == []
    ensures ValidState(NextTurnResult(s)) && !AutoPassDue(NextTurnResult(s))
  {
    NextTurnValid(s);
  }

  /** A forfeited roll, and a roll other than a six with nothing to move, leave the turn to be passed on. */
  lemma RollEndsTurn(s: GameState, value: int)
    requires ValidState(s) && 1 <= value <= 6 && s.status == PLAYING
    requires (value == 6 && s.consecutiveSixes == 2)
      || (value != 6 && MovablePieces(s.players[s.currentTurnIndex].pieces, value, s.players) == [])
    ensures AutoPassDue(RollResult(s, value))
  {
  }
}
