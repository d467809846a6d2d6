# Ludo rules engine in Dafny

This project models the rules engine of a four-player Ludo web game:

- the board tables;
- the rule functions: where a piece stands on the shared 52-cell loop, whether it may move, what a move captures, how a bot picks a piece and where a piece is drawn;
- the turn state machine the app runs on its game state: a new game, the roll request, the landing of the die, the move of a piece and the hand-over to the next seat.

The modules follow the program's files:

| module | file | models |
|---|---|---|
| `Types` | `types.dfy` | colours, pieces, players, statuses and difficulties; the log as a datatype of entries |
| `Seqs` | `seqs.dfy` | JavaScript's array `filter` and `find`, and counting helpers |
| `Board` | `board.dfy` | the 52-cell path, the start offsets, the home lanes and the safe cells |
| `GameLogic` | `game_logic.dfy` | `getGlobalIndex`, `canMovePiece`, `checkForKill`, `getBotMove`, `getPieceCoordinates` |
| `Game` | `game.dfy` | the game state, `initGame`, the roll request and roll updater, `nextTurn`, the auto-pass condition |
| `Moves` | `move.dfy` | the `handlePieceClick` updater and what it does |
| `Engine` | `engine.dfy` | the app's state as a class, with each updater written step by step |

Each event is written twice:

- As a function on a `GameState` value, such as `RollResult`, `MoveResult` or `NextTurnResult`. The lemmas that state the rules prove properties of these functions.
- As imperative code: the class `Engine.GameEngine`, with the eleven fields of the app's state. `RequestRoll`, `Roll(value)`, `Move(pieceId)` and `NextTurn()` each run the matching updater and store its result, as `setGameState(prev => …)` does. Each method is proved to leave exactly the state the function describes, and to keep the well-formedness invariant `ValidState`.

The updater methods follow the source step by step:

- `RollUpdater` with the `canMovePiece` loop `ValidPieceIds`;
- `MoveUpdater`, `PlayMove` and `SettleMove`;
- `NextTurnUpdater`, with the `while` loop over seats that have won.

`CanMovePiece` and `CheckForKill` are methods with the source's loops. Each is proved equal to a specification predicate or function (`CanMove`, `KillOutcome`), and the rule lemmas are stated about those.

`ValidState` holds in every reachable state. It says:

- there are four seats, in the turn order RED, GREEN, YELLOW, BLUE, with distinct ids;
- each seat has pieces 0..3 of its colour at valid positions;
- a seat has won exactly when all four of its pieces are home;
- the winners list and the ranks agree;
- the die shows 1..6 and the sixes counter is below 3;
- when a move is awaited, `validMoves` is exactly the movable ids and is non-empty;
- `validMoves` is empty whenever no move is awaited;
- a roll is never due while a move is awaited.

Positions follow the code: -1 is the base, 0..50 the shared track, 51..55 the home lane, 56 the last step (promoted to 99 at once) and 99 finished. The comment in `types.ts:23` says 0-51 for the main path and 52-57 for the home straight. The code at `utils/gameLogic.ts:17-28` and `utils/gameLogic.ts:48` uses the ranges above.

`getGlobalIndex` is modelled with JavaScript's remainder, which takes the sign of the dividend (`JsRem52`). So a RED piece in the base gives cell -1, as in the source, not 51.

Some behaviours of the source are kept as written:

- Priority 5 of `getBotMove` (forming a block) compares the target cell with `getGlobalIndex` of every other piece of the player, unfiltered (`utils/gameLogic.ts:204`). A base piece never matches (`BlockMeansSharedSquare`), but a finished piece or one in the home lane can. `BlockRuleCountsFinishedPiece` shows such a case.
- A seat that finishes with a 6 still gets `canRoll = true` (`App.tsx:368`). The extra roll then finds no valid move. A finishing move ends on 56, off the shared track, so it never captures (`FinishingMoveRollsOnlyOnSix`).
- The extra-roll rule after a capture comes from `killed`, which is true exactly when some piece was sent back (`KillOutcome`, `CaptureSendsVictimsHome`).

## Model

| member | source | states |
|---|---|---|
| Board.GlobalPathShape | constants.ts:42-61 | the path has 52 cells and cell 51 is (0, 6) |
| Board.GlobalPathQuarters | constants.ts:42-61 | proof scaffolding for GlobalPathDistinct and PathIndexOfInverts: the table equals the four 13-cell quarter constants it is written as |
| Board.GlobalPathInBoard | constants.ts:3-3 | every path cell lies on the 15 x 15 board |
| Board.HomePathsInBoard | constants.ts:72-77 | every home-lane cell lies on the board |
| Board.StartIndex | constants.ts:64-69 | each colour enters the 52-cell loop at 13 times its place in the turn order |
| Board.HomePath | constants.ts:72-77 | each lane has five cells, each one square closer to the centre (7, 7) than the one before |
| Board.StartSquares | constants.ts:64-69 | each colour's start offset points at its entry square: RED (1,6), GREEN (8,1), YELLOW (13,8), BLUE (6,13) |
| Board.StartIndicesSpaced | constants.ts:64-69 | the offsets are 13 times the seat number, lie in 0..51 and are distinct per colour |
| Board.SafeZonesAreStartsAndStars | constants.ts:86-92 | there are 8 safe cells, and a cell is safe exactly when it is a start offset or a start offset plus 8 |
| Board.HomePathLanes | constants.ts:72-77 | each lane has 5 cells; RED's and YELLOW's lie on row 7, GREEN's and BLUE's on column 7 |
| Board.PathIndexOfInverts | constants.ts:42-61 | reading a path square back gives its index |
| Board.GlobalPathDistinct | constants.ts:42-61 | no square appears twice on the path |
| GameLogic.JsRem52 | utils/gameLogic.ts:35-35 | the truncating remainder: below 52 in size, congruent to the dividend mod 52, with the dividend's sign |
| GameLogic.GetGlobalIndex | utils/gameLogic.ts:34-36 | for a local position of 0 or more, the cell is in 0..51 and is (offset + local) mod 52 |
| GameLogic.RouteOfColour | utils/gameLogic.ts:34-36 | along local 0..50 a colour visits 51 different cells, starts on its safe entry cell and never visits the cell behind its entry |
| GameLogic.CanMove | utils/gameLogic.ts:38-96 | a legal move is never of a finished piece, leaves the base only on a 6 and never goes past 56 |
| GameLogic.CanMovePiece | utils/gameLogic.ts:38-96 | the step loop and the opponent scan return true exactly when the move is legal (`CanMove`) |
| GameLogic.OpponentBlockOn | utils/gameLogic.ts:65-77 | the scan of the other colours finds a pair on the cell exactly when some other colour has two or more main-track pieces there |
| GameLogic.BaseMovesOnlyOnSix | utils/gameLogic.ts:40-42 | a base piece may move exactly when the die shows 6 |
| GameLogic.NoMoveWhenFinishedOrOvershooting | utils/gameLogic.ts:44-48 | a finished piece never moves, and no move may go past 56 |
| GameLogic.FindByColorFirst | utils/gameLogic.ts:86-87 | the colour lookup returns the first seat of that colour |
| GameLogic.OpponentBlockBars | utils/gameLogic.ts:56-78 | two pieces of another colour on the cell of any main-track step 1..dice bar the move, whether it lands there or passes |
| GameLogic.OwnStackCapped | utils/gameLogic.ts:84-93 | a piece may not land as a third piece of its colour on a main-track cell |
| GameLogic.OtherMovesAllowed | utils/gameLogic.ts:38-96 | conversely, a track move within 56 that meets no opponent pair and no own pair at the target is legal |
| GameLogic.CaptureCell | utils/gameLogic.ts:104-112 | a capture cell exists only for a mover found by id whose piece lands on the main track on a cell that is not safe, and it is that piece's global cell |
| GameLogic.SendHome | utils/gameLogic.ts:118-130 | only positions change, and each piece either stays where it is or goes back to the base |
| GameLogic.CaptureLogs | utils/gameLogic.ts:128-128 | every entry reports a capture by the mover's colour |
| GameLogic.KillOutcome | utils/gameLogic.ts:98-135 | the outcome keeps the number of players, and `killed` is true exactly when a capture was logged |
| GameLogic.CheckForKill | utils/gameLogic.ts:98-135 | the nested scan returns the players, `killed` and the logs of `KillOutcome` |
| GameLogic.ScanPlayer | utils/gameLogic.ts:117-131 | one player of the scan: the captured pieces go back to the base, with one log per capture; the mover and players who have won are skipped |
| GameLogic.SweepPlayer | utils/gameLogic.ts:118-130 | the piece loop of one opponent sends exactly the victims home and logs one capture for each |
| GameLogic.SweepPiece | utils/gameLogic.ts:119-129 | the per-piece test hits exactly a main-track piece on the capture cell, and resets exactly that piece |
| GameLogic.NothingToCapture | utils/gameLogic.ts:118-118 | the mover's own pieces, and those of a player who has won, are never captured |
| GameLogic.CaptureLogsNonEmpty | utils/gameLogic.ts:114-134 | some capture is logged exactly when some piece of some player is a victim |
| GameLogic.CaptureLogsName | utils/gameLogic.ts:128-128 | every capture log names the mover's colour and the colour of a captured piece |
| GameLogic.NoCaptureOffTrackOrSafe | utils/gameLogic.ts:104-112 | from the base, past 50, or onto a safe cell, nothing is captured and nothing changes |
| GameLogic.CaptureSendsVictimsHome | utils/gameLogic.ts:114-134 | on any other cell exactly the victims' pieces go back to the base, nothing else changes, and `killed` is true exactly when there was a victim |
| GameLogic.CaptureResetsVictims | utils/gameLogic.ts:117-131 | after a capture on a cell, only positions change, each piece is reset exactly when it is a victim, and the mover's seat is unchanged |
| GameLogic.MostAdvanced | utils/gameLogic.ts:209-210 | the piece a stable descending sort puts first: the greatest position, the earliest on a tie |
| GameLogic.GetBotMove | utils/gameLogic.ts:137-211 | there is no choice exactly when no piece can move; otherwise the choice is the id of a piece that can move |
| GameLogic.BotPriority | utils/gameLogic.ts:149-210 | the priority list always picks one of the movable pieces |
| GameLogic.BotMoveIsLegal | utils/gameLogic.ts:139-141 | the bot has a move exactly when some piece can move, and it names a movable piece |
| GameLogic.EasyMayPickAnyMovable | utils/gameLogic.ts:143-147 | an EASY bot may pick any movable piece |
| GameLogic.BotPrefersFinishing | utils/gameLogic.ts:151-153 | MEDIUM and HARD first take the first movable piece that lands exactly on 56 |
| GameLogic.HardBotPrefersCapture | utils/gameLogic.ts:155-179 | HARD next takes the first piece whose main-track, non-safe target holds a piece of another player who has not won |
| GameLogic.BotPrefersDeploying | utils/gameLogic.ts:181-183 | next, on a 6, the first movable base piece |
| GameLogic.HardBotPrefersSafety | utils/gameLogic.ts:185-195 | HARD next takes the first piece whose main-track target is a safe cell |
| GameLogic.BotPrefersBlocking | utils/gameLogic.ts:197-206 | next, the first piece whose target cell another piece of the player gives |
| GameLogic.BotDefaultsToMostAdvanced | utils/gameLogic.ts:208-210 | otherwise the most advanced movable piece, the earliest on a tie |
| GameLogic.CaptureChoiceCaptures | utils/gameLogic.ts:155-177 | a HARD capture choice really captures when the move is made |
| GameLogic.BlockMeansSharedSquare | utils/gameLogic.ts:199-205 | with the player's other pieces in the base or on the track, the block rule picks a piece exactly when it lands on the square of another of its pieces |
| GameLogic.SquarePartner | utils/gameLogic.ts:204-204 | a base or main-track piece gives the target's cell exactly when it is on the track, drawn on the target's square |
| GameLogic.BlockRuleCountsFinishedPiece | utils/gameLogic.ts:204-204 | a finished GREEN piece counts as a block partner of a GREEN piece moving from 41 with a 6 |
| GameLogic.GetPieceCoordinates | utils/gameLogic.ts:4-31 | the square is on the board; a track piece is drawn on its global path cell, a piece at 51..55 on cell position - 51 of its colour's lane, a base piece at (0, 0), a piece at 56 or beyond (99 included) at (7, 7) |
| GameLogic.SameSquareIffSameCell | utils/gameLogic.ts:17-21 | two main-track pieces are drawn on the same square exactly when they are on the same global cell |
| Game.InitialPieces | App.tsx:10-15 | four pieces numbered 0..3, all of the colour and all in the base |
| Game.InitialState | App.tsx:138-169 | seat i keeps its lobby id and bot flag, and takes colour TurnOrder[i] with the initial pieces of that colour |
| Game.InitialStateValid | App.tsx:138-169 | a new game with distinct seat ids is well formed and awaits RED's roll: status PLAYING, no roll running, die 1, no sixes, no valid moves, every piece in the base, nobody has won and every rank 0, one start log |
| Game.StartRollResult | App.tsx:199-202 | the state stays the same exactly when no roll is due or one is running; only the two flags change; afterwards no second roll can start |
| Game.StartRollBehaviour | App.tsx:199-202 | a roll request changes nothing unless a roll is due and none is running; otherwise it sets only the rolling flag and clears the roll flag |
| Game.RollResult | App.tsx:208-282 | seats, winners, status and turn stay; the die shows the value, no roll is running, the log gains the roll entry first; a move is awaited exactly when there are valid moves, and then no roll is due |
| Game.IdsOfMovable | App.tsx:244-249 | an id is collected exactly when it names a piece that canMovePiece approves |
| Game.RollBehaviour | App.tsx:208-282 | the streak counts sixes; a third six forfeits the turn; otherwise the valid moves are exactly the movable pieces, a move is awaited exactly when there is one, and with none a 6 still earns a roll; seats and winners are unchanged |
| Game.NextSeat | App.tsx:392-397 | a seat index; a different seat has not won, and staying put means the three others have all won |
| Game.NextTurnResult | App.tsx:385-407 | seats, winners, log and valid moves stay; with three winners the game is finished in place; otherwise a roll is due with die 1 and no sixes, and a new turn goes to a seat that has not won |
| Game.FirstOpenSeat | App.tsx:393-397 | the next seat is the first seat clockwise that has not won |
| Game.SomeSeatOpen | App.tsx:388-397 | with fewer than three winners some other seat has not won |
| Game.NextTurnEndsGame | App.tsx:388-390 | with three winners the game ends and nothing else changes |
| Game.NextTurnPassesOn | App.tsx:392-406 | otherwise the turn goes to another seat that has not won, every seat skipped has won, and the new turn starts with a roll, die 1 and no sixes |
| Game.NextSeatIsFirstOpen | App.tsx:393-397 | when the turn moves, it moves to the first open seat clockwise |
| Game.NextTurnValid | App.tsx:385-407 | the hand-over, made when no move is awaited, keeps the state well formed |
| Game.AutoPassHandsOver | App.tsx:288-294 | when the auto-pass condition holds on a well-formed state no move is awaited, the hand-over keeps the state well formed and the condition no longer holds |
| Game.RollEndsTurn | App.tsx:290-290 | a forfeited roll, or a roll other than 6 with nothing to move, leaves the turn to be passed on |
| Moves.Advance | App.tsx:315-325 | only the position changes, and after promotion the piece is at its destination: 0 out of the base, 99 on reaching 56, otherwise the die's count on |
| Moves.Promote | App.tsx:343-345 | only the position changes; a piece is changed exactly when it is at 56, and never ends at 56 |
| Moves.ReplacePiece | App.tsx:338-338 | length and ids stay, pieces with another id stay, and the moved piece is in the result exactly when its id was |
| Moves.ApplyMove | App.tsx:310-381 | the number of seats, the turn and the die stay; nothing is awaited afterwards; the old log is a prefix of the new one |
| Moves.Settle | App.tsx:337-381 | the other seats are the players checkForKill returned; turn, die, status and sixes stay; nothing is awaited; a 6 or a capture earns a roll; the log is extended; the winners gain at most the mover's colour |
| Moves.MoveResult | App.tsx:298-382 | a request without an awaited move, or with an id that is not a valid move, changes nothing; otherwise nothing is awaited afterwards and the turn stays |
| Moves.SettleLogs | App.tsx:342-361 | settling appends the arrival home exactly for a piece at 56, then only finish entries |
| Moves.ChosenPiece | App.tsx:302-308 | an id in the valid moves names a piece of the mover that can move, and the lookup finds it |
| Moves.MoveAcceptedIffValid | App.tsx:299-302 | a move request changes the state exactly when a move is awaited and the id is a valid move |
| Moves.AcceptedMove | App.tsx:302-328 | an accepted move applies to a movable piece of a seat that has not won, and that seat is found by id |
| Moves.ApplyMoveMover | App.tsx:310-363 | the chosen piece reaches its destination, the other pieces stay, and the seat is ranked exactly when all are home |
| Moves.MoveUpdatesPiece | App.tsx:314-345 | only the chosen piece changes: out of the base to 0 (only on a 6), otherwise by the die, with 56 becoming 99; turn, die and sixes stay |
| Moves.MoveCaptures | App.tsx:327-330 | the other seats lose exactly their victims to the base when the piece lands on a non-safe track cell; a capture earns a roll |
| Moves.MoveTurnFlags | App.tsx:365-381 | nothing is awaited after a move; the mover rolls again exactly on a 6, a capture, or a piece home without finishing the seat |
| Moves.FinishingMoveRollsOnlyOnSix | App.tsx:354-368 | a move that completes the seat earns another roll exactly when the die showed 6 |
| Moves.MoveWinBookkeeping | App.tsx:353-363 | the seat has won exactly when all its pieces are home; then its rank is the prior number of winners plus 1, its colour joins the winners and the finish is logged |
| Moves.ApplyMoveLogs | App.tsx:312-361 | a move's log is the old log, then the deployment, the captures, the arrival home and only finish entries |
| Moves.MoveLogs | App.tsx:312-361 | the new log entries report a deployment exactly from the base, a capture exactly when one happened, and the arrival exactly at 56 |
| Moves.NewEntries | App.tsx:329-361 | what the new part of such a log says, entry kind by entry kind |
| Moves.SendHomeKeepsSeat | utils/gameLogic.ts:126-126 | resetting victims keeps a seat well formed |
| Moves.KillKeepsSeatsValid | utils/gameLogic.ts:117-131 | a capture keeps every seat well formed and changes only positions |
| Moves.WinnersAfterMove | App.tsx:354-360 | the winners list stays consistent when only the mover may have finished |
| Moves.StateValidAfterMove | App.tsx:373-381 | the state after a move, with nothing awaited, is well formed |
| Moves.ApplyMoveSeats | App.tsx:337-339 | after the move every seat is well formed and keeps its id |
| Moves.ApplyMoveWinners | App.tsx:353-363 | after the move the winners list is consistent |
| Moves.ApplyMovePreservesValid | App.tsx:301-382 | moving a movable piece keeps the state well formed |
| Moves.MovePreservesValid | App.tsx:298-383 | every move request keeps the state well formed |
| Moves.BotMoveAccepted | App.tsx:183-188 | while a move is awaited the bot always names a valid move, and the app accepts it |
| Engine.ValidPieceIds | App.tsx:244-249 | the loop collects exactly the ids of the pieces canMovePiece approves, in order |
| Engine.RollUpdater | App.tsx:208-282 | the roll updater step by step gives `RollResult` |
| Engine.MoveUpdater | App.tsx:301-308 | the move updater step by step gives `MoveResult` |
| Engine.PlayMove | App.tsx:310-329 | leaving the base needs a 6, otherwise the piece advances, and the capture is resolved |
| Engine.SettleMove | App.tsx:337-381 | the piece is put back, 56 becomes 99, the seat is ranked and the extra-roll rule applied, giving `Settle` |
| Engine.NextTurnUpdater | App.tsx:385-407 | the seat loop gives `NextTurnResult` |
| Engine.GameEngine.constructor | App.tsx:138-169 | the engine starts in the initial state, which is well formed |
| Engine.GameEngine.RequestRoll | App.tsx:199-202 | the state becomes `StartRollResult` of the old one and stays well formed |
| Engine.GameEngine.Roll | App.tsx:205-284 | the state becomes `RollResult` of the old one and stays well formed |
| Engine.GameEngine.Move | App.tsx:298-383 | the state becomes `MoveResult` of the old one and stays well formed |
| Engine.GameEngine.NextTurn | App.tsx:385-408 | called only when no move is awaited, as the auto-pass effect (App.tsx:290) and the bot's fallback do; the state becomes `NextTurnResult` of the old one and stays well formed |
| Engine.GameEngine.SetState | App.tsx:208-208 | the updater's result replaces the whole state |

## Left out

- Sound (`playSound`), the coin balance and its rewards, the dice-skin shop and `DICE_SKINS`, and the CSS colour tables are not modelled: they do not affect the rules.
- Timers and effects (`setTimeout`, the bot hooks, the auto-pass effect) are not modelled. Only the auto-pass condition is, as `AutoPassDue`. `RollEndsTurn` shows when it is reached, and `AutoPassHandsOver` shows what the hand-over then does. The callers' guard is kept as the precondition of `GameEngine.NextTurn`: the turn is handed over only when no move is awaited.
- Randomness is a parameter. The die value is the argument of `Roll`, and the EASY bot's draw is the `pick` argument of `GetBotMove`, taken modulo the number of movable pieces.
- Player names, avatar URLs, dice skin, `roomCode` and `Piece.isSafe` are left out: the rules never read them. Log messages are reduced to the facts they report (colours, values, ranks).
- The LOBBY status and the screens (`screens/Lobby.tsx`, `components/*`) are not part of this model. Nor is `server-stub.ts`, which holds no executable code. The lobby always hands over four seats with distinct ids, which the constructor requires.
- In-place updates are modelled on values. The source mutates the piece objects inside `prev` (`utils/gameLogic.ts:126`, `App.tsx:317`, `App.tsx:324`). The model returns new players instead and does not capture aliasing between `prev` and the new state.
- The early `return prev` for a base piece without a 6 (`App.tsx:320`) is modelled as written. Under `ValidState` it cannot be reached: `MoveAcceptedIffValid` shows every valid move changes the state.
- The `!` on the piece lookup (`App.tsx:308`) is proved to find the piece (`ChosenPiece`), so no missing-piece case is modelled.
- Moves.SendHomeKeepsSeat: states well-formedness only, not the new positions. CaptureResetsVictims states those.
- GameLogic.KillOutcome: its own contract says only that the player count stays and that `killed` matches the logs. The captures are stated by CaptureSendsVictimsHome, NoCaptureOffTrackOrSafe, CaptureLogsNonEmpty and CaptureLogsName.
- GameLogic.BotPriority: its own contract says only that it picks a movable piece. The order of the priorities is stated by the seven bot lemmas.
