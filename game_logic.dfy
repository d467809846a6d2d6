/**
 * The rule functions of the engine: where a piece stands on the shared loop,
 * whether a move is legal, what a move captures, how a bot chooses a piece and
 * where a piece is drawn.
 */
module GameLogic {
  import opened Types
  import opened Board
  import opened Seqs

  // ---------------------------------------------------------------------------
  // Global cells

  /**
   * JavaScript's `a % 52`: the remainder of the truncating division, which
   * takes the sign of the dividend.
   */
  function JsRem52(a: int): (r: int)
    ensures -52 < r < 52 && (a - r) % 52 == 0
    ensures a >= 0 ==> r >= 0
    ensures a < 0 ==> r <= 0
  {
    if a >= 0 then a % 52 else -((-a) % 52)
  }

  /**
   * getGlobalIndex: the cell of the shared loop for a colour-local position.
   * It is applied as it stands to any position, so a RED piece in the base
   * (-1) gives -1 and a finished RED piece (99) gives 47.
   */
  function GetGlobalIndex(local: int, c: Color): (g: int)
    ensures 0 <= local ==> 0 <= g < 52 && g == (StartIndex(c) + local) % 52
  {
    JsRem52(StartIndex(c) + local)
  }

  /**
   * Along a colour's route (local 0..50) every cell is visited once, the
   * route starts on the colour's entry, which is a safe cell, and the one
   * cell it never visits is the cell just behind the entry.
   */
  lemma RouteOfColour(c: Color)
    ensures forall l, m :: 0 <= l <= 50 && 0 <= m <= 50 && GetGlobalIndex(l, c) == GetGlobalIndex(m, c) ==> l == m
    ensures forall l :: 0 <= l <= 50 ==> GetGlobalIndex(l, c) != (StartIndex(c) + 51) % 52
    ensures GetGlobalIndex(0, c) == StartIndex(c) && StartIndex(c) in SafeZones
  {
    forall l | 0 <= l <= 51
      ensures GetGlobalIndex(l, c) == if StartIndex(c) + l < 52 then StartIndex(c) + l else StartIndex(c) + l - 52
    {
      RouteCell(l, c);
    }
  }

  /** Within one lap the remainder is a plain wrap at 52. */
  lemma RouteCell(l: int, c: Color)
    requires 0 <= l <= 51
    ensures GetGlobalIndex(l, c) == if StartIndex(c) + l < 52 then StartIndex(c) + l else StartIndex(c) + l - 52
  {
  }

  // ---------------------------------------------------------------------------
  // Occupancy

  /** The piece stands on the main track (0..50) on global cell g. */
  predicate OnTrackAt(ep: Piece, c: Color, g: int) {
    ep.position != -1 && ep.position <= 50 && GetGlobalIndex(ep.position, c) == g
  }

  function OnCell(c: Color, g: int): Piece -> bool {
    (ep: Piece) => OnTrackAt(ep, c, g)
  }

  /** Another piece than `id` of colour c on the main track at global cell g. */
  function OtherOnCell(id: int, c: Color, g: int): Piece -> bool {
    (ep: Piece) => ep.id != id && OnTrackAt(ep, c, g)
  }

  function HasColor(c: Color): Player -> bool {
    (p: Player) => p.color == c
  }

  function HasId(id: string): Player -> bool {
    (p: Player) => p.id == id
  }

  /** `allPlayers.find(p => p.color === c)` */
  function FindByColor(players: seq<Player>, c: Color): Option<Player> {
    Find(players, HasColor(c))
  }

  /** `players.find(p => p.id === id)` */
  function FindById(players: seq<Player>, id: string): Option<Player> {
    Find(players, HasId(id))
  }

  // ---------------------------------------------------------------------------
  // canMovePiece

  /** Some player of another colour has two or more pieces on global cell g. */
  predicate OpponentBlockAt(players: seq<Player>, myColor: Color, g: int) {
    exists k :: 0 <= k < |players| && players[k].color != myColor
      && |Filter(players[k].pieces, OnCell(players[k].color, g))| >= 2
  }

  /** The global cell `step` squares ahead of the piece, seen from its own colour. */
  function StepCell(piece: Piece, step: int): int {
    GetGlobalIndex(piece.position + step, piece.color)
  }

  /** Step `step` of the move is on the main track and meets an opponent block. */
  predicate BlockedAtStep(piece: Piece, step: int, players: seq<Player>) {
    piece.position + step <= 50 && OpponentBlockAt(players, piece.color, StepCell(piece, step))
  }

  /** Some step 1..dice of the move meets an opponent block. */
  predicate PathBlocked(piece: Piece, dice: int, players: seq<Player>) {
    exists step :: 1 <= step <= dice && BlockedAtStep(piece, step, players)
  }

  /** The target is on the main track and two other pieces of the mover's colour already stand there. */
  predicate StackFull(piece: Piece, dice: int, players: seq<Player>) {
    piece.position + dice <= 50 &&
    match FindByColor(players, piece.color)
    case None => false
    case Some(me) => |Filter(me.pieces, OtherOnCell(piece.id, piece.color, StepCell(piece, dice)))| >= 2
  }

  /**
   * The legality of moving `piece` by `dice`: out of the base only on a 6
   * (without looking at the entry cell), never once finished, never past
   * 56, never onto or through an opponent block, never as a third piece of
   * its colour on one cell.
   */
  predicate CanMove(piece: Piece, dice: int, players: seq<Player>)
    ensures CanMove(piece, dice, players) ==> piece.position != 99
    ensures CanMove(piece, dice, players) && piece.position == -1 ==> dice == 6
    ensures CanMove(piece, dice, players) && piece.position != -1 ==> piece.position + dice <= 56
  {
    if piece.position == -1 then dice == 6
    else if piece.position == 99 then false
    else if piece.position + dice > 56 then false
    else !PathBlocked(piece, dice, players) && !StackFull(piece, dice, players)
  }

  /** canMovePiece: the step loop over 1..dice and the scan of the opponents, as in the source. */
  method CanMovePiece(piece: Piece, dice: int, players: seq<Player>) returns (ok: bool)
    ensures ok == CanMove(piece, dice, players)
  {
    if piece.position == -1 {
      return dice == 6;
    }
    if piece.position == 99 {
      return false;
    }
    var targetPos := piece.position + dice;
    if targetPos > 56 {
      return false;
    }
    var myColor := piece.color;
    var step := 1;
    while step <= dice
      invariant 1 <= step
      invariant forall s :: 1 <= s < step && s <= dice ==> !BlockedAtStep(piece, s, players)
    {
      var checkPos := piece.position + step;
      if checkPos <= 50 {
        var checkGlobalIndex := GetGlobalIndex(checkPos, myColor);
        var blocked := OpponentBlockOn(players, myColor, checkGlobalIndex);
        if blocked {
          assert BlockedAtStep(piece, step, players);
          return false;
        }
      }
      step := step + 1;
    }
    if targetPos <= 50 {
      var targetGlobalIndex := GetGlobalIndex(targetPos, myColor);
      var mine := FindByColor(players, myColor);
      if mine.Some? && |Filter(mine.value.pieces, OtherOnCell(piece.id, myColor, targetGlobalIndex))| >= 2 {
        return false;
      }
    }
    return true;
  }

  /** canMovePiece's scan of the opponents for one cell of the path. */
  method OpponentBlockOn(players: seq<Player>, myColor: Color, checkGlobalIndex: int) returns (blocked: bool)
    ensures blocked == OpponentBlockAt(players, myColor, checkGlobalIndex)
  {
    var k := 0;
    while k < |players|
      invariant 0 <= k <= |players|
      invariant forall k' :: 0 <= k' < k && players[k'].color != myColor ==>
        |Filter(players[k'].pieces, OnCell(players[k'].color, checkGlobalIndex))| < 2
    {
      var p := players[k];
      if p.color != myColor {
        var opponentPiecesAtSpot := Filter(p.pieces, OnCell(p.color, checkGlobalIndex));
        if |opponentPiecesAtSpot| >= 2 {
          return true;
        }
      }
      k := k + 1;
    }
    return false;
  }

  /** A piece in the base may move exactly on a 6. */
  lemma BaseMovesOnlyOnSix(piece: Piece, dice: int, players: seq<Player>)
    requires piece.position == -1
    ensures CanMove(piece, dice, players) <==> dice == 6
  {
  }

  /** A finished piece never moves, and no move may overshoot 56. */
  lemma NoMoveWhenFinishedOrOvershooting(piece: Piece, dice: int, players: seq<Player>)
    requires piece.position == 99 || (piece.position != -1 && piece.position + dice > 56)
    ensures !CanMove(piece, dice, players)
  {
  }

  /** players[k] is the first seat of colour c, the one `find` returns. */
  ghost predicate FirstOfColor(players: seq<Player>, c: Color, k: int) {
    0 <= k < |players| && players[k].color == c && forall k' :: 0 <= k' < k ==> players[k'].color != c
  }

  lemma FindByColorFirst(players: seq<Player>, c: Color, k: int)
    requires FirstOfColor(players, c, k)
    ensures FindByColor(players, c) == Some(players[k])
  {
    var w :| 0 <= w < |players| && players[w] == FindByColor(players, c).value && HasColor(c)(players[w])
      && forall v :: 0 <= v < w ==> !HasColor(c)(players[v]);
    assert HasColor(c)(players[k]);
    assert !(k < w);
    assert players[w].color == c;
  }

  /**
   * Two pieces of another colour on the cell of some step 1..dice, on the
   * main track, bar the move: a block can be neither landed on nor passed.
   */
  lemma OpponentBlockBars(piece: Piece, dice: int, players: seq<Player>, k: int, i: int, j: int, step: int)
    requires 0 <= k < |players| && players[k].color != piece.color
    requires 0 <= i < j < |players[k].pieces|
    requires piece.position != -1
    requires 1 <= step <= dice && piece.position + step <= 50
    requires OnTrackAt(players[k].pieces[i], players[k].color, StepCell(piece, step))
    requires OnTrackAt(players[k].pieces[j], players[k].color, StepCell(piece, step))
    ensures !CanMove(piece, dice, players)
  {
    FilterFromTwo(players[k].pieces, OnCell(players[k].color, StepCell(piece, step)), i, j);
    assert BlockedAtStep(piece, step, players);
  }

  /** A third piece of a colour may not join two others of its own on a main-track cell. */
  lemma OwnStackCapped(piece: Piece, dice: int, players: seq<Player>, k: int, i: int, j: int)
    requires FirstOfColor(players, piece.color, k)
    requires piece.position != -1 && piece.position + dice <= 50
    requires 0 <= i < j < |players[k].pieces|
    requires players[k].pieces[i].id != piece.id && players[k].pieces[j].id != piece.id
    requires OnTrackAt(players[k].pieces[i], piece.color, StepCell(piece, dice))
    requires OnTrackAt(players[k].pieces[j], piece.color, StepCell(piece, dice))
    ensures !CanMove(piece, dice, players)
  {
    FindByColorFirst(players, piece.color, k);
    FilterFromTwo(players[k].pieces, OtherOnCell(piece.id, piece.color, StepCell(piece, dice)), i, j);
  }

  /** Two different positions of s pass f. */
  ghost predicate TwoPass(s: seq<Piece>, f: Piece -> bool) {
    exists i, j :: 0 <= i < j < |s| && f(s[i]) && f(s[j])
  }

  lemma NoBlockOnPath(piece: Piece, dice: int, players: seq<Player>)
    requires forall step, k ::
      (1 <= step <= dice && piece.position + step <= 50 && 0 <= k < |players| && players[k].color != piece.color) ==>
      !TwoPass(players[k].pieces, OnCell(players[k].color, StepCell(piece, step)))
    ensures !PathBlocked(piece, dice, players)
  {
    forall step | 1 <= step <= dice && piece.position + step <= 50
      ensures !OpponentBlockAt(players, piece.color, StepCell(piece, step))
    {
      forall k | 0 <= k < |players| && players[k].color != piece.color
        ensures |Filter(players[k].pieces, OnCell(players[k].color, StepCell(piece, step)))| < 2
      {
        FilterAtLeastTwo(players[k].pieces, OnCell(players[k].color, StepCell(piece, step)));
      }
    }
  }

  lemma NoStackAtTarget(piece: Piece, dice: int, players: seq<Player>)
    requires forall k ::
      (piece.position + dice <= 50 && FirstOfColor(players, piece.color, k)) ==>
      !TwoPass(players[k].pieces, OtherOnCell(piece.id, piece.color, StepCell(piece, dice)))
    ensures !StackFull(piece, dice, players)
  {
    var mine := FindByColor(players, piece.color);
    if piece.position + dice <= 50 && mine.Some? {
      var k :| 0 <= k < |players| && players[k] == mine.value && HasColor(piece.color)(players[k])
        && forall v :: 0 <= v < k ==> !HasColor(piece.color)(players[v]);
      assert FirstOfColor(players, piece.color, k);
      FilterAtLeastTwo(players[k].pieces, OtherOnCell(piece.id, piece.color, StepCell(piece, dice)));
    }
  }

  /**
   * The converse: a move from the track that stays within 56, meets no
   * opponent pair on any main-track step and finds no pair of other own
   * pieces at a main-track target is allowed.
   */
  lemma OtherMovesAllowed(piece: Piece, dice: int, players: seq<Player>)
    requires piece.position != -1 && piece.position != 99 && piece.position + dice <= 56
    requires forall step, k ::
      (1 <= step <= dice && piece.position + step <= 50 && 0 <= k < |players| && players[k].color != piece.color) ==>
      !TwoPass(players[k].pieces, OnCell(players[k].color, StepCell(piece, step)))
    requires forall k ::
      (piece.position + dice <= 50 && FirstOfColor(players, piece.color, k)) ==>
      !TwoPass(players[k].pieces, OtherOnCell(piece.id, piece.color, StepCell(piece, dice)))
    ensures CanMove(piece, dice, players)
  {
    NoBlockOnPath(piece, dice, players);
    NoStackAtTarget(piece, dice, players);
  }

  // ---------------------------------------------------------------------------
  // checkForKill

  /** ep, a piece of p, is captured by a piece of player moverId landing on g. */
  predicate IsVictim(p: Player, ep: Piece, moverId: string, g: int) {
    p.id != moverId && !p.hasWon && OnTrackAt(ep, p.color, g)
  }

  /** Some piece of some player is captured on g. */
  predicate SomeVictim(players: seq<Player>, moverId: string, g: int) {
    exists i, j :: 0 <= i < |players| && 0 <= j < |players[i].pieces| && IsVictim(players[i], players[i].pieces[j], moverId, g)
  }

  function VictimOf(p: Player, moverId: string, g: int): Piece -> bool {
    (ep: Piece) => IsVictim(p, ep, moverId, g)
  }

  /**
   * The cell on which the moved piece captures: none from the base or past
   * the main track, none for an unknown mover, none on a safe cell.
   */
  function CaptureCell(moved: Piece, players: seq<Player>, moverId: string): (r: Option<int>)
    ensures r.Some? ==> moved.position != -1 && moved.position <= 50 && r.value !in SafeZones
    ensures r.Some? ==> FindById(players, moverId).Some? && r.value == GetGlobalIndex(moved.position, FindById(players, moverId).value.color)
  {
    if moved.position > 50 || moved.position == -1 then None
    else
      match FindById(players, moverId)
      case None => None
      case Some(me) =>
        var g := GetGlobalIndex(moved.position, me.color);
        if g in SafeZones then None else Some(g)
  }

  /** ep, a piece of p, after a capture on g: back in the base if it is a victim. */
  function Reset(p: Player, ep: Piece, moverId: string, g: int): Piece {
    if IsVictim(p, ep, moverId, g) then ep.(position := -1) else ep
  }

  /** p with every piece captured on g sent back to the base. */
  function SendHome(p: Player, moverId: string, g: int): (r: Player)
    ensures r.(pieces := p.pieces) == p && |r.pieces| == |p.pieces|
    ensures forall j :: 0 <= j < |p.pieces| ==>
      r.pieces[j].(position := p.pieces[j].position) == p.pieces[j]
      && (r.pieces[j].position == p.pieces[j].position || r.pieces[j].position == -1)
  {
    p.(pieces := seq(|p.pieces|, j requires 0 <= j < |p.pieces| => Reset(p, p.pieces[j], moverId, g)))
  }

  /** One log entry per captured piece, player by player and piece by piece. */
  function CaptureLogs(players: seq<Player>, moverId: string, moverColor: Color, g: int): (r: seq<LogEntry>)
    ensures forall e :: e in r ==> e.Captured? && e.capturer == moverColor
    decreases |players|
  {
    if players == [] then []
    else
      var p := players[|players| - 1];
      CaptureLogs(players[..|players| - 1], moverId, moverColor, g)
        + Repeat(Captured(moverColor, p.color), |Filter(p.pieces, VictimOf(p, moverId, g))|)
  }

  datatype Kill = Kill(players: seq<Player>, killed: bool, logs: seq<LogEntry>)

  /** What checkForKill does to the players, and what it reports. */
  function KillOutcome(moved: Piece, players: seq<Player>, moverId: string): (r: Kill)
    ensures |r.players| == |players| && (r.killed <==> r.logs != [])
  {
    match CaptureCell(moved, players, moverId)
    case None => Kill(players, false, [])
    case Some(g) =>
      var logs := CaptureLogs(players, moverId, FindById(players, moverId).value.color, g);
      Kill(seq(|players|, i requires 0 <= i < |players| => SendHome(players[i], moverId, g)), logs != [], logs)
  }

  /**
   * checkForKill: the scan over the players. The source resets the captured
   * pieces in place; here the updated players are returned beside `killed`
   * and the logs.
   */
  method CheckForKill(moved: Piece, players: seq<Player>, moverId: string)
    returns (after: seq<Player>, killed: bool, logs: seq<LogEntry>)
    ensures Kill(after, killed, logs) == KillOutcome(moved, players, moverId)
  {
    after, killed, logs := players, false, [];
    if moved.position > 50 || moved.position == -1 {
      return;
    }
    var mover := FindById(players, moverId);
    if mover.None? {
      return;
    }
    var moverColor := mover.value.color;
    var movedGlobalIndex := GetGlobalIndex(moved.position, moverColor);
    if movedGlobalIndex in SafeZones {
      return;
    }
    var i := 0;
    while i < |players|
      invariant 0 <= i <= |players| && |after| == |players|
      invariant forall i' :: 0 <= i' < i ==> after[i'] == SendHome(players[i'], moverId, movedGlobalIndex)
      invariant logs == CaptureLogs(players[..i], moverId, moverColor, movedGlobalIndex)
      invariant killed <==> logs != []
    {
      CaptureLogsStep(players, moverId, moverColor, movedGlobalIndex, i);
      var q, found := ScanPlayer(players[i], moverId, moverColor, movedGlobalIndex);
      after := after[i := q];
      killed := killed || found != [];
      logs := logs + found;
      i := i + 1;
    }
    assert players[..i] == players;
  }

  /** One player of checkForKill's scan: only another player who has not won is swept. */
  method ScanPlayer(p: Player, moverId: string, moverColor: Color, movedGlobalIndex: int)
    returns (q: Player, found: seq<LogEntry>)
    ensures q == SendHome(p, moverId, movedGlobalIndex)
    ensures found == Repeat(Captured(moverColor, p.color), |Filter(p.pieces, VictimOf(p, moverId, movedGlobalIndex))|)
  {
    if p.id != moverId && !p.hasWon {
      q, found := SweepPlayer(p, moverId, moverColor, movedGlobalIndex);
    } else {
      NothingToCapture(p, moverId, movedGlobalIndex);
      q, found := p, [];
    }
  }

  /** The logs of the first i + 1 players extend those of the first i by the captures among player i. */
  lemma CaptureLogsStep(players: seq<Player>, moverId: string, moverColor: Color, g: int, i: int)
    requires 0 <= i < |players|
    ensures CaptureLogs(players[..i + 1], moverId, moverColor, g) == CaptureLogs(players[..i], moverId, moverColor, g)
      + Repeat(Captured(moverColor, players[i].color), |Filter(players[i].pieces, VictimOf(players[i], moverId, g))|)
  {
    assert players[..i + 1][..i] == players[..i];
  }

  /** The body of checkForKill's scan for one player p: its pieces on g go back to the base. */
  method SweepPlayer(p: Player, moverId: string, moverColor: Color, movedGlobalIndex: int)
    returns (q: Player, found: seq<LogEntry>)
    requires p.id != moverId && !p.hasWon
    ensures q == SendHome(p, moverId, movedGlobalIndex)
    ensures found == Repeat(Captured(moverColor, p.color), |Filter(p.pieces, VictimOf(p, moverId, movedGlobalIndex))|)
  {
    var pieces := [];
    found := [];
    var j := 0;
    while j < |p.pieces|
      invariant 0 <= j <= |p.pieces|
      invariant pieces == ResetAmong(p, moverId, movedGlobalIndex, j)
      invariant found == CopiesFor(p.pieces, VictimOf(p, moverId, movedGlobalIndex), Captured(moverColor, p.color), j)
    {
      var after, hit := SweepPiece(p, moverId, movedGlobalIndex, j);
      if hit {
        found := found + [Captured(moverColor, p.color)];
      }
      pieces := pieces + [after];
      j := j + 1;
    }
    q := p.(pieces := pieces);
    Swept(p, moverId, moverColor, movedGlobalIndex);
  }

  /** One piece of the scan, with the victim test written as the source writes it. */
  method SweepPiece(p: Player, moverId: string, movedGlobalIndex: int, j: int) returns (after: Piece, hit: bool)
    requires p.id != moverId && !p.hasWon && 0 <= j < |p.pieces|
    ensures hit == IsVictim(p, p.pieces[j], moverId, movedGlobalIndex)
    ensures after == Reset(p, p.pieces[j], moverId, movedGlobalIndex)
  {
    var enemyPiece := p.pieces[j];
    hit := false;
    after := enemyPiece;
    if enemyPiece.position > 50 || enemyPiece.position == -1 || enemyPiece.position == 99 {
      return;
    }
    var enemyGlobalIndex := GetGlobalIndex(enemyPiece.position, p.color);
    if enemyGlobalIndex == movedGlobalIndex {
      after := enemyPiece.(position := -1);
      hit := true;
    }
  }

  /** The first j pieces of p after a capture on g. */
  ghost function ResetAmong(p: Player, moverId: string, g: int, j: int): seq<Piece>
    requires 0 <= j <= |p.pieces|
  {
    if j == 0 then [] else ResetAmong(p, moverId, g, j - 1) + [Reset(p, p.pieces[j - 1], moverId, g)]
  }

  /** After the whole scan of p, the pieces are those of SendHome and one log is written per victim. */
  lemma Swept(p: Player, moverId: string, moverColor: Color, g: int)
    ensures p.(pieces := ResetAmong(p, moverId, g, |p.pieces|)) == SendHome(p, moverId, g)
    ensures CopiesFor(p.pieces, VictimOf(p, moverId, g), Captured(moverColor, p.color), |p.pieces|)
      == Repeat(Captured(moverColor, p.color), |Filter(p.pieces, VictimOf(p, moverId, g))|)
  {
    ResetAmongPrefix(p, moverId, g, |p.pieces|);
    CopiesForFilter(p.pieces, VictimOf(p, moverId, g), Captured(moverColor, p.color), |p.pieces|);
    assert p.pieces[..|p.pieces|] == p.pieces;
  }

  lemma {:induction false} ResetAmongPrefix(p: Player, moverId: string, g: int, j: int)
    requires 0 <= j <= |p.pieces|
    ensures |ResetAmong(p, moverId, g, j)| == j
    ensures forall k :: 0 <= k < j ==> ResetAmong(p, moverId, g, j)[k] == Reset(p, p.pieces[k], moverId, g)
  {
    if j > 0 {
      ResetAmongPrefix(p, moverId, g, j - 1);
    }
  }

  /** The mover's own pieces, and those of a player who has won, are never captured. */
  lemma NothingToCapture(p: Player, moverId: string, g: int)
    requires p.id == moverId || p.hasWon
    ensures Filter(p.pieces, VictimOf(p, moverId, g)) == [] && SendHome(p, moverId, g) == p
  {
    FilterNonEmpty(p.pieces, VictimOf(p, moverId, g));
  }

  lemma SomeVictimSnoc(init: seq<Player>, p: Player, moverId: string, g: int)
    ensures SomeVictim(init + [p], moverId, g) <==>
      SomeVictim(init, moverId, g) || exists j :: 0 <= j < |p.pieces| && VictimOf(p, moverId, g)(p.pieces[j])
  {
    var all := init + [p];
    if SomeVictim(all, moverId, g) {
      var i, j :| 0 <= i < |all| && 0 <= j < |all[i].pieces| && IsVictim(all[i], all[i].pieces[j], moverId, g);
      if i < |init| {
        assert all[i] == init[i];
      } else {
        assert VictimOf(p, moverId, g)(p.pieces[j]);
      }
    }
    if SomeVictim(init, moverId, g) {
      var i, j :| 0 <= i < |init| && 0 <= j < |init[i].pieces| && IsVictim(init[i], init[i].pieces[j], moverId, g);
      assert all[i] == init[i];
    }
    if exists j :: 0 <= j < |p.pieces| && VictimOf(p, moverId, g)(p.pieces[j]) {
      var j :| 0 <= j < |p.pieces| && VictimOf(p, moverId, g)(p.pieces[j]);
      assert all[|init|] == p;
    }
  }

  /** Some log is written exactly when some piece is captured. */
  lemma {:induction false} CaptureLogsNonEmpty(players: seq<Player>, moverId: string, moverColor: Color, g: int)
    ensures CaptureLogs(players, moverId, moverColor, g) != [] <==> SomeVictim(players, moverId, g)
  {
    if players != [] {
      var n := |players| - 1;
      var p := players[n];
      assert players == players[..n] + [p];
      CaptureLogsNonEmpty(players[..n], moverId, moverColor, g);
      FilterNonEmpty(p.pieces, VictimOf(p, moverId, g));
      SomeVictimSnoc(players[..n], p, moverId, g);
    }
  }

  /** Some piece of a player of colour col is captured on g. */
  predicate VictimOfColor(players: seq<Player>, moverId: string, g: int, col: Color) {
    exists i, j :: 0 <= i < |players| && 0 <= j < |players[i].pieces| && players[i].color == col
      && IsVictim(players[i], players[i].pieces[j], moverId, g)
  }

  /** Every capture log names the mover's colour and the colour of some captured piece. */
  lemma {:induction false} CaptureLogsName(players: seq<Player>, moverId: string, moverColor: Color, g: int)
    ensures forall e :: e in CaptureLogs(players, moverId, moverColor, g) ==>
      e.Captured? && e.capturer == moverColor && VictimOfColor(players, moverId, g, e.victim)
  {
    if players != [] {
      var n := |players| - 1;
      var p := players[n];
      var init := players[..n];
      assert players == init + [p];
      CaptureLogsName(init, moverId, moverColor, g);
      var own := Filter(p.pieces, VictimOf(p, moverId, g));
      forall e | e in CaptureLogs(players, moverId, moverColor, g)
        ensures e.Captured? && e.capturer == moverColor && VictimOfColor(players, moverId, g, e.victim)
      {
        if e in CaptureLogs(init, moverId, moverColor, g) {
          var i, j :| 0 <= i < |init| && 0 <= j < |init[i].pieces| && init[i].color == e.victim
            && IsVictim(init[i], init[i].pieces[j], moverId, g);
          assert players[i] == init[i];
        } else {
          assert e in Repeat(Captured(moverColor, p.color), |own|);
          assert own[0] in p.pieces;
          var j :| 0 <= j < |p.pieces| && p.pieces[j] == own[0];
          assert IsVictim(players[n], players[n].pieces[j], moverId, g);
        }
      }
    }
  }

  /** From the base, past the main track, or onto a safe cell, a move captures nothing and changes nothing. */
  lemma NoCaptureOffTrackOrSafe(moved: Piece, players: seq<Player>, moverId: string)
    requires moved.position == -1 || moved.position > 50
      || (FindById(players, moverId).Some? && GetGlobalIndex(moved.position, FindById(players, moverId).value.color) in SafeZones)
    ensures KillOutcome(moved, players, moverId) == Kill(players, false, [])
  {
  }

  /**
   * On any other cell every main-track piece on it owned by another, not yet
   * won, player goes back to the base, every other piece stays, and `killed`
   * is reported exactly when something was captured.
   */
  lemma CaptureSendsVictimsHome(moved: Piece, players: seq<Player>, moverId: string)
    requires CaptureCell(moved, players, moverId).Some?
    ensures var g := CaptureCell(moved, players, moverId).value;
      var out := KillOutcome(moved, players, moverId);
      && |out.players| == |players|
      && (forall i :: 0 <= i < |players| ==> out.players[i].(pieces := players[i].pieces) == players[i])
      && (forall i :: 0 <= i < |players| ==> |out.players[i].pieces| == |players[i].pieces|)
      && (forall i, j :: 0 <= i < |players| && 0 <= j < |players[i].pieces| ==>
            out.players[i].pieces[j] == if IsVictim(players[i], players[i].pieces[j], moverId, g)
              then players[i].pieces[j].(position := -1) else players[i].pieces[j])
      && (out.killed <==> SomeVictim(players, moverId, g))
      && (forall i :: 0 <= i < |players| && players[i].id == moverId ==> out.players[i] == players[i])
  {
    var g := CaptureCell(moved, players, moverId).value;
    CaptureResetsVictims(players, moverId, g);
    CaptureLogsNonEmpty(players, moverId, FindById(players, moverId).value.color, g);
  }

  /** The players after a capture on g: the victims' pieces are reset, nothing else changes. */
  lemma CaptureResetsVictims(players: seq<Player>, moverId: string, g: int)
    ensures var out := seq(|players|, i requires 0 <= i < |players| => SendHome(players[i], moverId, g));
      && (forall i :: 0 <= i < |players| ==> out[i].(pieces := players[i].pieces) == players[i])
      && (forall i :: 0 <= i < |players| ==> |out[i].pieces| == |players[i].pieces|)
      && (forall i, j :: 0 <= i < |players| && 0 <= j < |players[i].pieces| ==>
            out[i].pieces[j] == if IsVictim(players[i], players[i].pieces[j], moverId, g)
              then players[i].pieces[j].(position := -1) else players[i].pieces[j])
      && (forall i :: 0 <= i < |players| && players[i].id == moverId ==> out[i] == players[i])
  {
    forall i | 0 <= i < |players| && players[i].id == moverId
      ensures SendHome(players[i], moverId, g) == players[i]
    {
      NothingToCapture(players[i], moverId, g);
    }
  }

  // ---------------------------------------------------------------------------
  // getBotMove

  function Movable(dice: int, players: seq<Player>): Piece -> bool {
    (p: Piece) => CanMove(p, dice, players)
  }

  /** `player.pieces.filter(p => canMovePiece(p, diceValue, allPlayers))` */
  function MovablePieces(pieces: seq<Piece>, dice: int, players: seq<Player>): seq<Piece> {
    Filter(pieces, Movable(dice, players))
  }

  /** Priority 1: the move ends exactly on 56. */
  predicate Finishes(p: Piece, dice: int) {
    p.position + dice == 56
  }

  /** Priority 2: a main-track, non-safe target on which some other, not yet won, player has a piece. */
  predicate KillsOnTarget(p: Piece, dice: int, player: Player, players: seq<Player>) {
    var targetPos := p.position + dice;
    var tg := GetGlobalIndex(targetPos, player.color);
    p.position != -1 && targetPos <= 50 && tg !in SafeZones
      && exists k, j :: 0 <= k < |players| && 0 <= j < |players[k].pieces| && IsVictim(players[k], players[k].pieces[j], player.id, tg)
  }

  /** Priority 3: the piece is in the base. */
  predicate InBase(p: Piece) {
    p.position == -1
  }

  /** Priority 4: a main-track target that is a safe cell. */
  predicate SafeOnTarget(p: Piece, dice: int, player: Player) {
    var targetPos := p.position + dice;
    p.position != -1 && targetPos <= 50 && GetGlobalIndex(targetPos, player.color) in SafeZones
  }

  /**
   * Priority 5: another piece of the player gives the target's global cell.
   * The other piece's position is not filtered, so a piece in the base, in
   * the home lane or finished counts at whatever cell getGlobalIndex gives it.
   */
  predicate BlocksOnTarget(p: Piece, dice: int, player: Player) {
    var targetPos := p.position + dice;
    var tg := GetGlobalIndex(targetPos, player.color);
    p.position != -1 && targetPos <= 50
      && SharesCell(player, p.id, tg)
  }

  /** Some piece of the player other than `id` gives global cell g. */
  predicate SharesCell(player: Player, id: int, g: int) {
    exists j :: 0 <= j < |player.pieces| && player.pieces[j].id != id && GetGlobalIndex(player.pieces[j].position, player.color) == g
  }

  /**
   * While the player's other pieces are in the base or on the main track,
   * the rule picks a piece exactly when its landing square is drawn where
   * another piece of its own stands on the main track: a base piece never
   * gives a cell a main-track target can have.
   */
  lemma BlockMeansSharedSquare(p: Piece, dice: int, player: Player)
    requires 0 <= p.position + dice
    requires forall j :: 0 <= j < |player.pieces| && player.pieces[j].id != p.id ==>
      player.pieces[j].position == -1 || 0 <= player.pieces[j].position <= 50
    ensures BlocksOnTarget(p, dice, player) <==>
      && p.position != -1 && p.position + dice <= 50
      && (exists j :: 0 <= j < |player.pieces| && player.pieces[j].id != p.id && 0 <= player.pieces[j].position <= 50
            && GetPieceCoordinates(player.pieces[j], player.color) == GetPieceCoordinates(p.(position := p.position + dice), player.color))
  {
    var target := p.(position := p.position + dice);
    if p.position != -1 && p.position + dice <= 50 {
      forall j | 0 <= j < |player.pieces| && player.pieces[j].id != p.id
        ensures GetGlobalIndex(player.pieces[j].position, player.color) == GetGlobalIndex(target.position, player.color)
          <==> (0 <= player.pieces[j].position <= 50
                && GetPieceCoordinates(player.pieces[j], player.color) == GetPieceCoordinates(target, player.color))
      {
        SquarePartner(player.pieces[j], target, player.color);
      }
    }
  }

  /** A base or main-track piece gives the target's cell exactly when it is on the main track, drawn on the target's square. */
  lemma SquarePartner(q: Piece, target: Piece, c: Color)
    requires 0 <= target.position <= 50 && (q.position == -1 || 0 <= q.position <= 50)
    ensures GetGlobalIndex(q.position, c) == GetGlobalIndex(target.position, c)
      <==> 0 <= q.position <= 50 && GetPieceCoordinates(q, c) == GetPieceCoordinates(target, c)
  {
    if q.position == -1 {
      RouteOfColour(c);
    } else {
      SameSquareIffSameCell(q, c, target, c);
    }
  }

  /**
   * Once a piece is finished the rule sees it on a main-track cell: GREEN's
   * finished piece gives cell 8, the cell of GREEN's local 47, so a GREEN
   * piece moving from 41 with a 6 counts as forming a block although no other
   * GREEN piece is on the main track.
   */
  lemma BlockRuleCountsFinishedPiece()
    ensures var player := Player("green", GREEN, true, [Piece(0, GREEN, 41), Piece(1, GREEN, 99), Piece(2, GREEN, -1), Piece(3, GREEN, -1)], false, 0);
      && BlocksOnTarget(player.pieces[0], 6, player)
      && (forall j :: 1 <= j < 4 ==> !(0 <= player.pieces[j].position <= 50))
  {
    var player := Player("green", GREEN, true, [Piece(0, GREEN, 41), Piece(1, GREEN, 99), Piece(2, GREEN, -1), Piece(3, GREEN, -1)], false, 0);
    assert GetGlobalIndex(99, GREEN) == 8 == GetGlobalIndex(47, GREEN);
    assert player.pieces[1].id != player.pieces[0].id;
  }

  function FinishTest(dice: int): Piece -> bool { (p: Piece) => Finishes(p, dice) }
  function KillTest(dice: int, player: Player, players: seq<Player>): Piece -> bool { (p: Piece) => KillsOnTarget(p, dice, player, players) }
  function BaseTest(): Piece -> bool { (p: Piece) => InBase(p) }
  function SafeTest(dice: int, player: Player): Piece -> bool { (p: Piece) => SafeOnTarget(p, dice, player) }
  function BlockTest(dice: int, player: Player): Piece -> bool { (p: Piece) => BlocksOnTarget(p, dice, player) }

  /**
   * The index of the piece a stable sort by descending position puts first:
   * the earliest of the most advanced pieces.
   */
  function MostAdvanced(s: seq<Piece>): (i: int)
    requires s != []
    ensures 0 <= i < |s|
    ensures forall k :: 0 <= k < |s| ==> s[k].position <= s[i].position
    ensures forall k :: 0 <= k < i ==> s[k].position < s[i].position
  {
    MostAdvancedFrom(s, 0, 1)
  }

  /** The scan behind MostAdvanced: s[best] is the earliest maximum of s[..k]. */
  function MostAdvancedFrom(s: seq<Piece>, best: int, k: int): (i: int)
    requires 0 <= best < k <= |s|
    requires forall m :: 0 <= m < k ==> s[m].position <= s[best].position
    requires forall m :: 0 <= m < best ==> s[m].position < s[best].position
    ensures 0 <= i < |s|
    ensures forall m :: 0 <= m < |s| ==> s[m].position <= s[i].position
    ensures forall m :: 0 <= m < i ==> s[m].position < s[i].position
    decreases |s| - k
  {
    if k == |s| then best
    else if s[k].position > s[best].position then MostAdvancedFrom(s, k, k + 1)
    else MostAdvancedFrom(s, best, k + 1)
  }

  /**
   * getBotMove. EASY draws a random movable piece; the draw is the parameter
   * `pick`, taken modulo the number of movable pieces. MEDIUM and HARD walk
   * the fixed priority list.
   */
  function GetBotMove(dice: int, player: Player, players: seq<Player>, difficulty: Difficulty, pick: nat): (r: Option<int>)
    ensures r.None? <==> forall j :: 0 <= j < |player.pieces| ==> !CanMove(player.pieces[j], dice, players)
    ensures r.Some? ==> exists j :: 0 <= j < |player.pieces| && player.pieces[j].id == r.value && CanMove(player.pieces[j], dice, players)
  {
    var movable := MovablePieces(player.pieces, dice, players);
    assert forall j :: 0 <= j < |player.pieces| && CanMove(player.pieces[j], dice, players) ==> player.pieces[j] in movable;
    if movable == [] then None
    else
      assert forall x :: x in movable ==> x in player.pieces && CanMove(x, dice, players);
      var theChoice := (
        if difficulty == EASY then movable[pick % |movable|]
        else BotPriority(movable, dice, player, players, difficulty));
      assert theChoice in movable;
      Some(theChoice.id)
  }

  /** The MEDIUM/HARD priority list over the movable pieces, first match winning. */
  function BotPriority(movable: seq<Piece>, dice: int, player: Player, players: seq<Player>, difficulty: Difficulty): (r: Piece)
    requires movable != []
    ensures r in movable
  {
    var winning := Find(movable, FinishTest(dice));
    var killing := if difficulty == HARD then Find(movable, KillTest(dice, player, players)) else None;
    var base := Find(movable, BaseTest());
    var safe := if difficulty == HARD then Find(movable, SafeTest(dice, player)) else None;
    var blockMaker := Find(movable, BlockTest(dice, player));
    if winning.Some? then winning.value
    else if killing.Some? then killing.value
    else if base.Some? && dice == 6 then base.value
    else if safe.Some? then safe.value
    else if blockMaker.Some? then blockMaker.value
    else movable[MostAdvanced(movable)]
  }

  /** The bot's choice is one of the ids that canMovePiece approves, and it has one exactly when some piece can move. */
  lemma BotMoveIsLegal(dice: int, player: Player, players: seq<Player>, difficulty: Difficulty, pick: nat)
    ensures GetBotMove(dice, player, players, difficulty, pick).Some? <==> MovablePieces(player.pieces, dice, players) != []
    ensures GetBotMove(dice, player, players, difficulty, pick).Some? ==>
      exists x :: x in MovablePieces(player.pieces, dice, players) && x.id == GetBotMove(dice, player, players, difficulty, pick).value
  {
  }

  /** EASY may choose any movable piece. */
  lemma EasyMayPickAnyMovable(dice: int, player: Player, players: seq<Player>, x: Piece)
    requires x in MovablePieces(player.pieces, dice, players)
    ensures exists pick: nat :: GetBotMove(dice, player, players, EASY, pick) == Some(x.id)
  {
    var movable := MovablePieces(player.pieces, dice, players);
    var i :| 0 <= i < |movable| && movable[i] == x;
    assert i % |movable| == i;
    assert GetBotMove(dice, player, players, EASY, i) == Some(x.id);
  }

  /** MEDIUM/HARD 1: a piece that lands exactly on 56 is taken first. */
  lemma BotPrefersFinishing(dice: int, player: Player, players: seq<Player>, difficulty: Difficulty, pick: nat, i: int)
    requires difficulty != EASY
    requires FirstPassing(MovablePieces(player.pieces, dice, players), FinishTest(dice), i)
    ensures GetBotMove(dice, player, players, difficulty, pick) == Some(MovablePieces(player.pieces, dice, players)[i].id)
  {
    var movable := MovablePieces(player.pieces, dice, players);
    FindFirst(movable, FinishTest(dice), i);
    assert BotPriority(movable, dice, player, players, difficulty) == movable[i];
  }

  /** HARD 2: otherwise the first piece whose target captures. */
  lemma HardBotPrefersCapture(dice: int, player: Player, players: seq<Player>, pick: nat, i: int)
    requires NonePasses(MovablePieces(player.pieces, dice, players), FinishTest(dice))
    requires FirstPassing(MovablePieces(player.pieces, dice, players), KillTest(dice, player, players), i)
    ensures GetBotMove(dice, player, players, HARD, pick) == Some(MovablePieces(player.pieces, dice, players)[i].id)
  {
    var movable := MovablePieces(player.pieces, dice, players);
    FindFirst(movable, KillTest(dice, player, players), i);
    assert BotPriority(movable, dice, player, players, HARD) == movable[i];
  }

  /** MEDIUM/HARD 3: otherwise, on a 6, the first piece in the base. */
  lemma BotPrefersDeploying(dice: int, player: Player, players: seq<Player>, difficulty: Difficulty, pick: nat, i: int)
    requires difficulty != EASY && dice == 6
    requires NonePasses(MovablePieces(player.pieces, dice, players), FinishTest(dice))
    requires difficulty == HARD ==> NonePasses(MovablePieces(player.pieces, dice, players), KillTest(dice, player, players))
    requires FirstPassing(MovablePieces(player.pieces, dice, players), BaseTest(), i)
    ensures GetBotMove(dice, player, players, difficulty, pick) == Some(MovablePieces(player.pieces, dice, players)[i].id)
  {
    var movable := MovablePieces(player.pieces, dice, players);
    FindFirst(movable, BaseTest(), i);
    assert BotPriority(movable, dice, player, players, difficulty) == movable[i];
  }

  /** HARD 4: otherwise the first piece whose target is a safe cell. */
  lemma HardBotPrefersSafety(dice: int, player: Player, players: seq<Player>, pick: nat, i: int)
    requires NonePasses(MovablePieces(player.pieces, dice, players), FinishTest(dice))
    requires NonePasses(MovablePieces(player.pieces, dice, players), KillTest(dice, player, players))
    requires dice == 6 ==> NonePasses(MovablePieces(player.pieces, dice, players), BaseTest())
    requires FirstPassing(MovablePieces(player.pieces, dice, players), SafeTest(dice, player), i)
    ensures GetBotMove(dice, player, players, HARD, pick) == Some(MovablePieces(player.pieces, dice, players)[i].id)
  {
    var movable := MovablePieces(player.pieces, dice, players);
    FindFirst(movable, SafeTest(dice, player), i);
    assert BotPriority(movable, dice, player, players, HARD) == movable[i];
  }

  /** MEDIUM/HARD 5: otherwise the first piece whose target cell another piece of its own gives. */
  lemma BotPrefersBlocking(dice: int, player: Player, players: seq<Player>, difficulty: Difficulty, pick: nat, i: int)
    requires difficulty != EASY
    requires NonePasses(MovablePieces(player.pieces, dice, players), FinishTest(dice))
    requires difficulty == HARD ==> NonePasses(MovablePieces(player.pieces, dice, players), KillTest(dice, player, players))
    requires dice == 6 ==> NonePasses(MovablePieces(player.pieces, dice, players), BaseTest())
    requires difficulty == HARD ==> NonePasses(MovablePieces(player.pieces, dice, players), SafeTest(dice, player))
    requires FirstPassing(MovablePieces(player.pieces, dice, players), BlockTest(dice, player), i)
    ensures GetBotMove(dice, player, players, difficulty, pick) == Some(MovablePieces(player.pieces, dice, players)[i].id)
  {
    var movable := MovablePieces(player.pieces, dice, players);
    FindFirst(movable, BlockTest(dice, player), i);
    assert BotPriority(movable, dice, player, players, difficulty) == movable[i];
  }

  /** MEDIUM/HARD 6: otherwise the most advanced movable piece, the earliest one on a tie. */
  lemma BotDefaultsToMostAdvanced(dice: int, player: Player, players: seq<Player>, difficulty: Difficulty, pick: nat)
    requires difficulty != EASY && MovablePieces(player.pieces, dice, players) != []
    requires NonePasses(MovablePieces(player.pieces, dice, players), FinishTest(dice))
    requires difficulty == HARD ==> NonePasses(MovablePieces(player.pieces, dice, players), KillTest(dice, player, players))
    requires dice == 6 ==> NonePasses(MovablePieces(player.pieces, dice, players), BaseTest())
    requires difficulty == HARD ==> NonePasses(MovablePieces(player.pieces, dice, players), SafeTest(dice, player))
    requires NonePasses(MovablePieces(player.pieces, dice, players), BlockTest(dice, player))
    ensures var movable := MovablePieces(player.pieces, dice, players);
      exists i :: 0 <= i < |movable| && GetBotMove(dice, player, players, difficulty, pick) == Some(movable[i].id)
        && (forall k :: 0 <= k < |movable| ==> movable[k].position <= movable[i].position)
        && (forall k :: 0 <= k < i ==> movable[k].position < movable[i].position)
  {
    var movable := MovablePieces(player.pieces, dice, players);
    FindNone(movable, FinishTest(dice));
    FindNone(movable, BlockTest(dice, player));
    if difficulty == HARD {
      FindNone(movable, KillTest(dice, player, players));
      FindNone(movable, SafeTest(dice, player));
    }
    assert BotPriority(movable, dice, player, players, difficulty) == movable[MostAdvanced(movable)];
  }

  /**
   * A HARD capture choice really captures: moving the chosen piece lands it
   * where checkForKill sends a piece back.
   */
  lemma CaptureChoiceCaptures(p: Piece, dice: int, player: Player, players: seq<Player>)
    requires FindById(players, player.id) == Some(player)
    requires 0 <= p.position && 1 <= dice
    requires KillsOnTarget(p, dice, player, players)
    ensures KillOutcome(p.(position := p.position + dice), players, player.id).killed
  {
    var tg := GetGlobalIndex(p.position + dice, player.color);
    assert CaptureCell(p.(position := p.position + dice), players, player.id) == Some(tg);
    CaptureLogsNonEmpty(players, player.id, player.color, tg);
  }

  // ---------------------------------------------------------------------------
  // getPieceCoordinates

  /**
   * getPieceCoordinates: the board square of a piece. The base is left to the
   * renderer as (0, 0); a finished piece, and any position past the home lane,
   * is drawn in the centre (7, 7).
   */
  function GetPieceCoordinates(piece: Piece, c: Color): (r: Coordinate)
    ensures InBoard(r)
    ensures 0 <= piece.position <= 50 ==> r == GlobalPath[GetGlobalIndex(piece.position, c)]
    ensures 51 <= piece.position <= 55 ==> |HomePath(c)| == 5 && r == HomePath(c)[piece.position - 51]
    ensures piece.position <= -1 ==> r == Coordinate(0, 0)
    ensures piece.position >= 56 ==> r == Coordinate(7, 7)
  {
    GlobalPathInBoard();
    HomePathsInBoard(c);
    GlobalPathShape();
    if piece.position == -1 then Coordinate(0, 0)
    else if piece.position == 99 then Coordinate(7, 7)
    else if piece.position >= 0 && piece.position <= 50 then GlobalPath[(StartIndex(c) + piece.position) % 52]
    else if piece.position > 50 then
      var homeIndex := piece.position - 51;
      if homeIndex < 0 || homeIndex >= 5 then Coordinate(7, 7) else HomePath(c)[homeIndex]
    else Coordinate(0, 0)
  }

  /**
   * Two main-track pieces are drawn on the same square exactly when they are
   * on the same global cell, the cell on which blocks and captures are decided.
   */
  lemma SameSquareIffSameCell(a: Piece, ca: Color, b: Piece, cb: Color)
    requires 0 <= a.position <= 50 && 0 <= b.position <= 50
    ensures GetPieceCoordinates(a, ca) == GetPieceCoordinates(b, cb) <==> GetGlobalIndex(a.position, ca) == GetGlobalIndex(b.position, cb)
  {
    GlobalPathDistinct();
    GlobalPathShape();
    var ga, gb := GetGlobalIndex(a.position, ca), GetGlobalIndex(b.position, cb);
    if ga != gb {
      if ga < gb { assert GlobalPath[ga] != GlobalPath[gb]; } else { assert GlobalPath[gb] != GlobalPath[ga]; }
    }
  }
}
