# Domino game engine: rules, turn pipeline, state store, bots and matchmaking

This project models the game core of a domino gateway service. It covers:

- the rules engine (`GameLogicService`, `calculateHandScore`, `generateAllTiles`): legal moves, who can act, blocked games, winners and scores;
- the turn pipeline (`PlayerActionService`): `playTile`, `drawTile` and `passTurn`, each holding a per-room lock in a key-value store;
- the store (`GameStateManager`): the deal, game records, seat-to-room entries and the set-if-absent lock with its compare-and-delete release;
- room set-up and hand-over (`GameService`): the first seat, bot rooms, disconnect and reconnect, turn timers and the end of a game;
- the bots (`BotPlayer`, `BotManager`): the easy, medium and hard strategies, the registry and the dispatch to the three intents;
- the timer tables (`TimerService`) and matchmaking (`MatchmakingService`, `MatchmakingProcessor`).

## Layout

| file | module | what it holds |
|---|---|---|
| `wrappers.dfy` | `Wrappers` | `Option` and `Result` |
| `errors.dfy` | `Errors` | the `GameError` codes and the `Outcome` of an intent |
| `tiles.dfy` | `Tiles` | tiles, hand scores, the generated double-six set |
| `state.dfy` | `State` | the room record (`GameState`), seat hands, tile counts |
| `game_logic.dfy` | `GameLogic` | the rules engine |
| `state_store.dfy` | `StateStore` | the deal, the lock table, the `GameStateManager` class |
| `bot_player.dfy` | `Bots` | the bot strategies |
| `turns.dfy` | `Turns` | `nextTurn`, `executeTilePlay`, the checks of `playTile`, the draw |
| `timers.dfy` | `Timers` | the `TimerService` class |
| `game.dfy` | `Game` | every intent as a function on `World`, and the properties of the intents |
| `services.dfy` | `Services` | the `BotManager`, `PlayerActionService` and `GameService` classes |
| `matchmaking_service.dfy` | `Matchmaking` | the `MatchmakingService` class and its queue jobs |
| `matchmaking_processor.dfy` | `MatchmakingWorker` | grouping, removal, selection and the `MatchmakingProcessor` class |

The services call one another. An intent that hands the turn to a bot asks the bot manager to play, and the bot plays through the same intents. So each intent is first written as a function from a `World` to the new `World` and an `Outcome`. A `World` holds the part of the stores an intent can change: rooms, locks, seat entries, bots and timers. The properties of play are proved about these functions. Each service method then ensures that its effect on the stores is exactly its function's effect.

Randomness, clocks and fresh ids are parameters:

- `shuffled` is the shuffled deck;
- `pick` is the random seat index;
- `now` is `Date.now()`;
- `roomId` is the generated room id;
- the timer handles stand for the values `setTimeout` returns.

## Model

| member | source | states |
|---|---|---|
| Tiles.FlipSpec | src/game/player.action.service.ts:215-232 | turning a tile twice gives it back, only a double reads the same turned, and the turned tile is the same physical tile, so a hand holds it exactly when it holds the original |
| Tiles.HasSameTileFlip | src/game/game.logic.service.ts:59-65 | orientation-insensitive membership gives the same answer for a tile and its reverse |
| Tiles.HandScoreAppend | src/game/utils/score.util.ts:3-5 | the score of two hands put together is the sum of their scores |
| Tiles.HandScoreCons | src/game/utils/score.util.ts:3-5 | a hand's score is the first tile's left+right plus the score of the rest (an empty hand scores 0) |
| Tiles.HandScoreFlipAt | src/game/utils/score.util.ts:3-5 | turning one tile of a hand round leaves the score unchanged |
| Tiles.HandScoreBounds | src/game/utils/score.util.ts:3-5 | a hand of tiles with pips in 0..6 scores between 0 and 12 per tile |
| Tiles.GenerateAllTiles | src/game/utils/generate.util.ts:3-11 | the nested loops push exactly the sequence `AllTiles()` |
| Tiles.RowShape | src/game/utils/generate.util.ts:6-8 | the inner loop for `i` from `j` pushes `7-j` tiles `(i, j+k)` in order |
| Tiles.TilesFromLength | src/game/utils/generate.util.ts:5-9 | the outer loop from `i` pushes a triangular number of tiles |
| Tiles.AllTilesCount | src/game/utils/generate.util.ts:5-10 | the generated set has exactly 28 tiles |
| Tiles.RowMembers | src/game/utils/generate.util.ts:6-8 | a tile is pushed by inner row `(i, j)` iff its left pip is `i` and its right pip is in `j..6` |
| Tiles.TilesFromMembers | src/game/utils/generate.util.ts:5-9 | a tile is pushed from outer value `i` on iff it is canonical and its left pip is at least `i` |
| Tiles.AllTilesMembers | src/game/utils/generate.util.ts:5-9 | a tile is generated iff 0 <= left <= right <= 6 |
| Tiles.TilesFromSorted | src/game/utils/generate.util.ts:5-9 | the tiles pushed from outer value `i` on are in strictly increasing (left, right) order |
| Tiles.AllTilesSorted | src/game/utils/generate.util.ts:5-9 | the set comes in strictly increasing (left, right) order |
| Tiles.AllTilesDistinct | src/game/utils/generate.util.ts:5-8 | no two generated tiles are the same tile, even with one turned round |
| State.SeatTileCountUpdate | src/game/player.action.service.ts:208-210 | replacing one seat's hand changes the seat tile total by the difference of the two hand sizes |
| State.SeatTileCountUnaffected | src/game/game.service.ts:87-88 | a hand stored under an id with no seat does not change the seat tile total |
| GameLogic.IsValidMove | src/game/game.logic.service.ts:11-35 | empty board: legal; non-empty board with an end at -1: `INVALID_BOARD_STATE`; otherwise legal iff a pip of the tile equals the chosen end |
| GameLogic.IsValidMoveFlip | src/game/game.logic.service.ts:30-34 | legality does not depend on the orientation the tile is offered in |
| GameLogic.CanPlayTile | src/game/game.logic.service.ts:37-57 | first play with 4 seats: iff the hand holds (6,6); first play otherwise: true; later: iff some hand tile shares a pip with the left or right end |
| GameLogic.CanPlayIffSomeValidMove | src/game/game.logic.service.ts:37-57 | after the first play, a seat can act iff some tile of its hand is a valid move at some side |
| GameLogic.PlayerHasTile | src/game/game.logic.service.ts:59-65 | true iff the hand holds the tile or its reverse |
| GameLogic.IsGameBlocked | src/game/game.logic.service.ts:67-81 | true iff no tile of any seat touches either end; pile and first-play flag are not looked at |
| GameLogic.BlockedIffNobodyCanPlay | src/game/game.logic.service.ts:67-81 | after the first play, blocked iff no seat can act |
| GameLogic.OpeningBoardReadsBlocked | src/game/game.logic.service.ts:67-81 | with both ends at -1 and pips in 0..6 every game reads as blocked |
| GameLogic.FirstEmptySeatSpec | src/game/game.logic.service.ts:83-90 | the search finds no seat iff no seat from `from` on has an empty hand, and otherwise the first such seat in seat order |
| GameLogic.CheckWinner | src/game/game.logic.service.ts:83-90 | the loop returns the first seat with an empty hand, or none |
| GameLogic.DetermineWinnerByLowestTile | src/game/game.logic.service.ts:92-105 | the winner is a seat with the minimal pip sum, and every earlier seat has a strictly larger sum (ties go to the earliest seat) |
| GameLogic.CalculateFinalScores | src/game/game.logic.service.ts:107-113 | the scores have exactly the seats as keys, each mapped to its hand's pip sum |
| StateStore.SeatBagMember | src/game/game.state.manager.ts:47-54 | a tile in the seats' multiset is in some seat's hand |
| StateStore.DeckSlicesPartition | src/game/game.state.manager.ts:52-58 | the first `n` seven-tile slices and the rest of the deck together are the whole deck |
| StateStore.SeatBagIsDeckSlices | src/game/game.state.manager.ts:52-54 | seats dealt slice by slice hold exactly those slices |
| StateStore.TryAcquire | src/game/game.state.manager.ts:129-136 | set-if-absent: succeeds iff no lock is stored, and then stores the token; otherwise nothing changes |
| StateStore.Release | src/game/game.state.manager.ts:138-144 | compare-and-delete: the lock goes only when it holds this token; otherwise nothing changes |
| StateStore.AcquireExcludes | src/game/game.state.manager.ts:129-136 | a second acquire before a release fails, whatever token it uses |
| StateStore.AcquireReleaseRoundTrip | src/game/game.state.manager.ts:129-144 | acquiring a free lock and releasing it with the same token restores the lock table |
| StateStore.ForeignReleaseKeepsLock | src/game/game.state.manager.ts:138-144 | a release with another token leaves the held lock in place |
| StateStore.LoadGame | src/game/game.state.manager.ts:77-87 | a stored room loads as itself; a missing one gives `CACHE_ERROR`, not `GAME_NOT_FOUND` |
| StateStore.Deal | src/game/game.state.manager.ts:47-54 | every seat gets a hand; with distinct seats the `j`-th seat gets the `j`-th 7-tile slice of the deck, and the rest of the deck is what remains |
| StateStore.DealSeat | src/game/game.state.manager.ts:52-54 | one pass of the dealing loop: seat `i` takes the `i`-th 7-tile slice, the seats already dealt keep theirs, and what is left starts after `i + 1` slices |
| StateStore.MapSeats | src/game/game.state.manager.ts:60-65 | every seat is mapped to the new room; other entries stay |
| StateStore.GameStateManager.constructor | src/game/game.state.manager.ts:11-15 | an empty store and lock table with the instance's token |
| StateStore.GameStateManager.CreateGameState | src/game/game.state.manager.ts:17-69 | the stored record is the initial state (empty board, ends -1/-1, turn index 0, first play, empty history) with the dealt hands; the pile is the rest of the deck below 4 seats and empty at 4; every seat is mapped to the room |
| StateStore.GameStateManager.SetGameState | src/game/game.state.manager.ts:71-75 | stores the state under the room and returns what it stored |
| StateStore.GameStateManager.GetGameState | src/game/game.state.manager.ts:77-87 | returns `LoadGame` of the store |
| StateStore.GameStateManager.GetRoomIdByPlayerId | src/game/game.state.manager.ts:107-109 | returns the seat's room iff one is stored |
| StateStore.GameStateManager.RemoveGameState | src/game/game.state.manager.ts:111-113 | deletes the room's record and nothing else |
| StateStore.GameStateManager.RemovePlayerRoomMapping | src/game/game.state.manager.ts:115-119 | deletes exactly the listed seats' room entries |
| StateStore.GameStateManager.AcquireLock | src/game/game.state.manager.ts:129-136 | succeeds iff no lock was stored; the table becomes `TryAcquire` of the old one |
| StateStore.GameStateManager.ReleaseLock | src/game/game.state.manager.ts:138-144 | the table becomes `Release` of the old one |
| StateStore.DealConservesDeck | src/game/game.state.manager.ts:47-58 | every seat holds 7 tiles; below 4 seats 7·n + pile size = 28 and hands plus pile are the deck; at 4 seats the pile is empty and the hands are the deck |
| StateStore.DealtStateConservesTiles | src/game/game.state.manager.ts:22-58 | when the deck is a shuffle of the set, hands and pile hold the 28 tiles exactly once |
| Bots.ScanSpec | src/game/bot-player.ts:45-53 | the scan plays the first tile in the given order that touches an end, checking left before right, and falls back exactly when none does |
| Bots.FirstMatch | src/game/bot-player.ts:104-111 | the strategy loop returns the decision `Scan` describes |
| Bots.PipRecordCounts | src/game/bot-player.ts:141-148 | the count record maps each pip value to the number of tile halves showing it, and holds only values that occur |
| Bots.CountBoardNumbers | src/game/bot-player.ts:141-148 | the loop builds the count record of the board |
| Bots.Unseen | src/game/bot-player.ts:154-156 | a tile survives the filter iff it is in the set and neither it nor its reverse is among the seen tiles; the result is no longer than the set |
| Bots.OpponentPoolMembers | src/game/bot-player.ts:150-156 | the opponent pool is exactly the canonical tiles that are neither on the board nor in the bot's hand, in either orientation |
| Bots.CountOpponentNumbers | src/game/bot-player.ts:150-164 | the loop builds the count record of the opponent pool |
| Bots.InsertPermutes | src/game/bot-player.ts:68-72 | inserting into the sorted hand adds exactly that tile |
| Bots.InsertHead | src/game/bot-player.ts:68-72 | the inserted tile or the old first tile comes first |
| Bots.InsertSorted | src/game/bot-player.ts:68-72 | insertion keeps the descending score order |
| Bots.InsertStable | src/game/bot-player.ts:68-72 | among tiles of equal score the inserted tile comes before the earlier ones |
| Bots.SortDescPermutes | src/game/bot-player.ts:68-72 | the sorted hand is a permutation of the hand (the hard bot sorts the same way at lines 98-102) |
| Bots.SortDescSorted | src/game/bot-player.ts:68-72 | the sorted hand is in descending score order (likewise for the hard bot at lines 98-102) |
| Bots.SortDescStable | src/game/bot-player.ts:68-72 | tiles of equal score keep their hand order |
| Bots.DecideTurn | src/game/bot-player.ts:14-33 | the decision is `Decide` for the bot's difficulty |
| Bots.DecideSpec | src/game/bot-player.ts:14-117 | a play is a hand tile at an end it touches; the bot does not play iff no hand tile touches either end; easy and medium never pass; hard draws iff the pile is non-empty, else passes |
| Bots.ScanOfReordering | src/game/bot-player.ts:74-81 | scanning any reordering of the hand plays a hand tile, and falls back exactly when no hand tile is playable |
| Bots.SortedBotPlaysBestTile | src/game/bot-player.ts:66-111 | a medium or hard bot plays a tile whose score is at least that of every playable tile of its hand |
| Bots.ScanOfSortedPlaysBest | src/game/bot-player.ts:66-81 | scanning a hand sorted by descending score plays a tile whose score is at least that of every playable tile of the hand |
| Bots.BotNeverOpens | src/game/bot-player.ts:19-33 | with both ends at -1 no bot ever plays |
| Turns.Advance | src/game/player.action.service.ts:195-199 | the turn index becomes `(i+1) mod n`, stays in range, the current turn names that seat, and nothing else changes |
| Turns.AdvanceN | src/game/player.action.service.ts:195-199 | repeated turns keep the seats and a turn index in range |
| Turns.AdvanceNIndex | src/game/player.action.service.ts:196 | after `k` turns within one round the index is `(i+k) mod n` |
| Turns.WrapStep | src/game/player.action.service.ts:196 | `(i+1) % n` wraps to 0 after the last seat and adds one otherwise |
| Turns.AdvanceVisitsEverySeat | src/game/player.action.service.ts:195-199 | every seat gets the turn within one round, and after `n` turns the turn is back where it started |
| Turns.Oriented | src/game/player.action.service.ts:213-233 | the placed tile is the offered tile or its reverse, turned so that its inner pip matches the end it is played at |
| Turns.RemoveExact | src/game/player.action.service.ts:207-210 | the hand filter as written drops exactly the copies equal in the offered orientation |
| Turns.RemoveTile | src/game/player.action.service.ts:207-210 | the corrected filter drops exactly the copies of the tile in either orientation and keeps only hand tiles |
| Turns.PlayAtEnd | src/game/player.action.service.ts:212-261 | a valid play on a non-empty board adds one turned tile at the chosen end, whose inner pip matches the old end; that end moves to the outer pip, the other end stays, one history entry is appended, the last action is play and the first-play flag is cleared |
| Turns.PlayKeepsChain | src/game/player.action.service.ts:212-240 | a valid play keeps the board a chain whose ends are its outer pips |
| Turns.DoubleOpenerSetsBothEnds | src/game/player.action.service.ts:242-256 | a double opening the board sets both ends to its pip |
| Turns.NonDoubleOpenerLeavesEndUnset | src/game/player.action.service.ts:212-240 | a non-double opener leaves the other end at -1, after which every move is `INVALID_BOARD_STATE` |
| Turns.SeatTotal | src/game/player.action.service.ts:208-210 | replacing a seat's hand changes the room's tile total by the size difference |
| Turns.PlayConservesTiles | src/game/player.action.service.ts:201-262 | the corrected play keeps the room's tile total when the hand held the tile once |
| Turns.ReversedOfferDuplicatesTile | src/game/player.action.service.ts:207-210 | a tile offered reversed passes the hand check of lines 44-53, stays in the hand and is also put on the board, so the room gains a tile |
| Turns.NoExactCopy | src/game/player.action.service.ts:207-210 | with no copy in the offered orientation the filter as written keeps the whole hand |
| Turns.ReversedOfferExample | src/game/player.action.service.ts:207-210 | a concrete room (hand (5,3), offer (3,5)) ends with the tile in hand and on the board |
| Turns.CheckPlay | src/game/player.action.service.ts:40-53 | the play is accepted iff it is the seat's turn, it holds the tile and the move is valid; the rejections come in the order `NOT_YOUR_TURN`, `TILE_NOT_IN_HAND`, move error |
| Turns.DrawnState | src/game/player.action.service.ts:117-120 | the last pile tile moves to the end of the hand; turn, board and seats stay |
| Turns.DrawConservesTiles | src/game/player.action.service.ts:117-118 | a draw keeps the room's tile total |
| Timers.TimerService.constructor | src/game/time.service.ts:5-6 | both tables start empty |
| Timers.TimerService.SetTurnTimer | src/game/time.service.ts:8-10 | the room's turn timer is replaced; other rooms are untouched |
| Timers.TimerService.ClearTurnTimer | src/game/time.service.ts:12-18 | the room's turn timer is removed if present; other rooms are untouched |
| Timers.TimerService.SetWarningTimer | src/game/time.service.ts:20-22 | the room's warning timer is replaced; the turn table is untouched |
| Timers.TimerService.ClearWarningTimer | src/game/time.service.ts:24-30 | the room's warning timer is removed if present |
| Game.EndEffect | src/game/game.service.ts:169-192 | a missing room gives `CACHE_ERROR` and changes nothing; otherwise the room is deleted, both timers cleared, the stored room's seats unregistered as bots, and the call succeeds; locks and seat entries stay |
| Game.PlayEffect | src/game/player.action.service.ts:27-91 | a held lock gives `LOCK_NOT_ACQUIRED`; otherwise the locked body runs and the lock table is left as it was |
| Game.LockedPlay | src/game/player.action.service.ts:37-84 | the stores stay valid and the lock table, token and seat entries are unchanged |
| Game.FollowUp | src/game/player.action.service.ts:80-84 | the bot follow-up keeps the stores valid and the lock table unchanged |
| Game.DrawEffect | src/game/player.action.service.ts:93-142 | a held lock gives `LOCK_NOT_ACQUIRED`; otherwise the locked body runs and the lock table is left as it was |
| Game.LockedDraw | src/game/player.action.service.ts:98-135 | the stores stay valid and the lock table, token and seat entries are unchanged |
| Game.PassEffect | src/game/player.action.service.ts:144-193 | a held lock gives `LOCK_NOT_ACQUIRED`; otherwise the locked body runs and the lock table is left as it was |
| Game.LockedPass | src/game/player.action.service.ts:149-186 | the stores stay valid and the lock table, token and seat entries are unchanged |
| Game.BotTurnEffect | src/game/bot.manager.ts:31-56 | the bot's turn keeps the stores valid and the lock table unchanged |
| Game.FollowUpUnderLock | src/game/player.action.service.ts:80-84 | under the held lock a bot's follow-up changes nothing and fails with `LOCK_NOT_ACQUIRED`; a human next seat gives success |
| Game.PlayMovesTurn | src/game/player.action.service.ts:53-84 | a play that wins nothing stores the played record with the turn on the next seat (the advance of lines 195-199); success iff the next seat is not a bot; the tile total is kept when the hand held the tile once |
| Game.PlayStoresAdvanced | src/game/player.action.service.ts:53-84 | a play that wins nothing stores the played record with the turn advanced, and reports `LOCK_NOT_ACQUIRED` exactly when the next seat is a bot |
| Game.WinningPlayEndsGame | src/game/player.action.service.ts:56-60 | a play that empties a hand ends the game through `endGame` and succeeds |
| Game.RejectedPlayChangesNothing | src/game/player.action.service.ts:33-50 | a rejected play changes no store, and fails with the lock, cache or check error in that order |
| Game.DrawOutcomes | src/game/player.action.service.ts:112-132 | a draw that gives a move is stored with the turn and tile total unchanged; any other draw fails with `LOCK_NOT_ACQUIRED` and stores nothing |
| Game.DrawStores | src/game/player.action.service.ts:112-132 | a draw stores the drawn record with success when the drawn tile gives a move, and otherwise changes nothing and fails with `LOCK_NOT_ACQUIRED` |
| Game.LockedDrawOutcomes | src/game/player.action.service.ts:112-132 | the same two outcomes for the body of `drawTile` run under the held lock |
| Game.PassMovesTurn | src/game/player.action.service.ts:163-186 | a pass in a game that is not blocked stores the pass with the turn on the next seat and no history entry; success iff the next seat is not a bot |
| Game.BlockedPassEndsGame | src/game/player.action.service.ts:156-171 | a pass by a seat without a move that leaves the game blocked deletes the room, unregisters its bots, clears both timers and succeeds |
| Game.FourSeatDrawRefused | src/game/player.action.service.ts:98-110 | a draw on the seat's turn in a 4-seat room fails with `CANNOT_DRAW_TILES_IN_A_4_PLAYER_GAME` and changes nothing |
| Game.FourSeatOpeningPassEndsGame | src/game/player.action.service.ts:156-171 | in a 4-seat opening, a pass by a seat without 6:6 ends the game at once |
| Game.ChosenOpenerIgnoresTurn | src/game/game.service.ts:194-210 | the chosen opener does not depend on the stored turn index |
| Game.OpenerKeepsDeal | src/game/game.service.ts:34-47 | setting the chosen opener's turn index on a dealt room keeps the deal and the chosen opener, and the record can be stored under its id |
| Game.FourSeatOpenerHoldsDoubleSix | src/game/game.service.ts:194-206 | in a 4-seat room dealt from a shuffled full set the opener holds 6:6 |
| Game.NatToStringInjective | src/game/game.service.ts:61 | different bot numbers are written as different strings |
| Game.NatToStringNonEmpty | src/game/game.service.ts:61 | every number is written with at least one digit |
| Game.BotNamesDistinct | src/game/game.service.ts:61 | the bot ids of one room are pairwise different |
| Game.DisconnectEffectAsWritten | src/game/game.service.ts:74-76 | as written the handler changes nothing for any stored room |
| Game.DisconnectEffect | src/game/game.service.ts:74-100 | the corrected hand-over keeps the stores valid and the locks and seat entries unchanged |
| Game.ReconnectEffect | src/game/game.service.ts:102-126 | the hand-back keeps the stores valid and the locks and seat entries unchanged |
| Game.ReconnectUndoesDisconnect | src/game/game.service.ts:78-116 | handing a seat to its stand-in bot and back restores the room record |
| Game.ReconnectAfterDisconnectRestoresWorld | src/game/game.service.ts:74-126 | a corrected disconnect that hands the turn to no bot, followed by a reconnect, restores every store |
| Game.DisconnectGuardExample | src/game/game.service.ts:76 | for a connected seat the corrected handler hands the seat to the bot, while the handler as written leaves it |
| Game.StartTimerEffect | src/game/game.service.ts:147-167 | a missing room gives `CACHE_ERROR` and changes nothing; otherwise the stored turn start time is `now`, both timers are replaced by the new handles, bots, locks and seat entries stay, and the call succeeds |
| Game.TimeoutEffect | src/game/game.service.ts:136-145 | a timeout keeps the stores valid and the locks and seat entries unchanged |
| Game.TimeoutRefusedOutcomes | src/game/game.service.ts:136-145 | a stale timeout fails with `NOT_YOUR_TURN`, and one for a seat that can play with `MUST_PLAY_TILE`; neither changes anything or sets a new timer |
| Services.BotManager.constructor | src/game/bot.manager.ts:11-15 | no bot is registered |
| Services.BotManager.AddBot | src/game/bot.manager.ts:17-20 | the bot is registered with its difficulty; others stay |
| Services.BotManager.AddBots | src/game/game.service.ts:67-69 | every listed bot is registered with the difficulty |
| Services.BotManager.RemoveBot | src/game/bot.manager.ts:22-24 | the bot is unregistered; others stay |
| Services.BotManager.IsBot | src/game/bot.manager.ts:26-29 | true iff a record exists for the id |
| Services.BotManager.PlayBotTurn | src/game/bot.manager.ts:31-56 | the stores change exactly as `BotTurnEffect` says |
| Services.PlayerActionService.constructor | src/game/player.action.service.ts:13-25 | the services share one store, bot table and timer table |
| Services.PlayerActionService.PlayTile | src/game/player.action.service.ts:27-91 | the stores and outcome are exactly `PlayEffect` |
| Services.PlayerActionService.PlayLocked | src/game/player.action.service.ts:37-84 | the stores and outcome are exactly `LockedPlay` |
| Services.PlayerActionService.DrawTile | src/game/player.action.service.ts:93-142 | the stores and outcome are exactly `DrawEffect` |
| Services.PlayerActionService.DrawLocked | src/game/player.action.service.ts:98-135 | the stores and outcome are exactly `LockedDraw` |
| Services.PlayerActionService.PassTurn | src/game/player.action.service.ts:144-193 | the stores and outcome are exactly `PassEffect` |
| Services.PlayerActionService.PassLocked | src/game/player.action.service.ts:149-186 | the stores and outcome are exactly `LockedPass` |
| Services.GameService.constructor | src/game/game.service.ts:16-28 | the service uses the given store, bot table and timer table |
| Services.GameService.EndGame | src/game/game.service.ts:169-192 | the stores change exactly as `EndEffect`; on success the scores are every seat's pip sum |
| Services.GameService.UnregisterBots | src/game/game.service.ts:186-191 | exactly the listed seats lose their bot registration |
| Services.GameService.FindFirstPlayer | src/game/game.service.ts:194-210 | with 4 seats the first seat holding 6:6, if any; otherwise the seat `pick`; the index is in range |
| Services.GameService.CreateGameRoom | src/game/game.service.ts:30-53 | the dealt initial record is stored with the turn index of the chosen opener |
| Services.GameService.InitializeGameWithBots | src/game/game.service.ts:55-72 | the seats are the humans followed by `bot_1..bot_k`, every seat has a hand, and the bots are registered with the difficulty |
| Services.GameService.HandlePlayerDisconnect | src/game/game.service.ts:74-100 | the stores change exactly as the corrected `DisconnectEffect` |
| Services.GameService.HandlePlayerReconnect | src/game/game.service.ts:102-126 | the stores change exactly as `ReconnectEffect` |
| Services.GameService.StartTurnTimer | src/game/game.service.ts:147-167 | the stores change exactly as `StartTimerEffect` |
| Services.GameService.HandleTurnTimeout | src/game/game.service.ts:136-145 | the stores change exactly as `TimeoutEffect` |
| Matchmaking.MatchmakingService.constructor | src/matchmaking/matchmaking.service.ts:9-14 | no player is active and no job is queued |
| Matchmaking.MatchmakingService.AddPlayerToQueue | src/matchmaking/matchmaking.service.ts:19-81 | an active player is refused; otherwise the player is active and the job (bots: `botCount = minPlayers`, human: `minPlayers = 2`) queued; a refused job takes the mark back and the call still succeeds |
| Matchmaking.MatchmakingService.RemovePlayerFromQueue | src/matchmaking/matchmaking.service.ts:88-97 | succeeds iff the player was active, and then unmarks it; otherwise throws "not in matchmaking" |
| Matchmaking.MatchmakingService.HandlePlayerDisconnect | src/matchmaking/matchmaking.service.ts:102-109 | unmarks the player if active; otherwise nothing happens |
| MatchmakingWorker.HumanRequestBecomesWaitingEntry | src/matchmaking/matchmaking.service.ts:57-64 | a human request is a `handle-matchmaking` job whose waiting entry has `minPlayers` 2 |
| MatchmakingWorker.GroupByIsPartition | src/matchmaking/matchmaking.processor.ts:194-204 | every player's key has a group, every group key belongs to some player, and each group is the players with that key in order |
| MatchmakingWorker.HavingAbsent | src/matchmaking/matchmaking.processor.ts:194-204 | a key no player has selects nobody |
| MatchmakingWorker.HavingMembers | src/matchmaking/matchmaking.processor.ts:194-204 | a group holds exactly the players with its key |
| MatchmakingWorker.GroupByBetAmountSpec | src/matchmaking/matchmaking.processor.ts:194-204 | every waiting player is in exactly the group of its bet, and no group is empty |
| MatchmakingWorker.GroupByMinPlayersSpec | src/matchmaking/matchmaking.processor.ts:167-177 | every waiting player is in exactly the group of its `minPlayers` |
| MatchmakingWorker.WithoutSpec | src/matchmaking/matchmaking.processor.ts:206-211 | removal keeps exactly the other players' entries, never lengthens the list, and is the identity when the id is absent |
| MatchmakingWorker.WithoutAllSpec | src/matchmaking/matchmaking.processor.ts:225 | after removing a list of ids, exactly the entries with other ids are left |
| MatchmakingWorker.Selected | src/matchmaking/matchmaking.processor.ts:105-111 | the match is the first min(len, 4) players of the group, 2..4 of them when the group has at least 2 |
| MatchmakingWorker.LastQualifyingSpec | src/matchmaking/matchmaking.processor.ts:94-123 | with no group of 2 the pending match is unchanged; otherwise it is the last group of at least 2 in key order |
| MatchmakingWorker.LastQualifyingNone | src/matchmaking/matchmaking.processor.ts:94-123 | with no bet group of at least 2 players the earlier pending group stays |
| MatchmakingWorker.LastQualifyingSome | src/matchmaking/matchmaking.processor.ts:94-123 | with some bet group of at least 2 players the pending group is that of the last such bet in key order |
| MatchmakingWorker.BotCountAsWrittenExample | src/matchmaking/matchmaking.processor.ts:52-63 | as written, a request for 1 bot creates a room with 3 bots |
| MatchmakingWorker.BotRequestRoundTrip | src/matchmaking/matchmaking.service.ts:40-48 | a bot request is a `create-game-with-bots` job whose count and difficulty read back as asked |
| MatchmakingWorker.MatchmakingProcessor.constructor | src/matchmaking/matchmaking.processor.ts:17-29 | nobody waits and no match is pending |
| MatchmakingWorker.MatchmakingProcessor.RemovePlayerState | src/matchmaking/matchmaking.processor.ts:206-211 | the waiting list loses exactly that player's entries |
| MatchmakingWorker.MatchmakingProcessor.CheckForMatch | src/matchmaking/matchmaking.processor.ts:89-124 | the pending match becomes the last bet group with at least 2 players, or stays as it was |
| MatchmakingWorker.MatchmakingProcessor.CreateMatch | src/matchmaking/matchmaking.processor.ts:213-226 | a room with the players' ids and the first player's bet is stored, and the players leave the waiting list |
| MatchmakingWorker.MatchmakingProcessor.RemoveMatched | src/matchmaking/matchmaking.processor.ts:225 | every listed player leaves the waiting list |
| MatchmakingWorker.MatchmakingProcessor.FireMatchTimeout | src/matchmaking/matchmaking.processor.ts:104-117 | a pending group of at least 2 gives a room of its first (at most 4) players, who leave the waiting list; otherwise nothing changes |
| MatchmakingWorker.MatchmakingProcessor.HandleCreateGameWithBots | src/matchmaking/matchmaking.processor.ts:61-87 | a room of the player and `bot_1..bot_k` is stored and the bots registered |
| MatchmakingWorker.MatchmakingProcessor.Process | src/matchmaking/matchmaking.processor.ts:31-59 | a matchmaking job appends one waiting entry and checks for a match; a bot job creates a room with the count it asked for; other jobs change nothing |

## Left out

- Transport and notifications (socket.io, pub/sub, `NotificationService`, the gateway) are left out; the model makes no calls for them.
- The logger, `warnPlayer`, `simulateThinking`, `askPlayersToStart`, the game report, authentication and framework wiring are left out.
- JSON storage is left out. Stored records keep `disconnectedPlayers` as a set. In the source every `getGameState` parses the stored JSON (src/game/game.state.manager.ts:77-87), which turns the set into `{}`; `handlePlayerReconnect` then throws a `TypeError` at its `.has` call (src/game/game.service.ts:106) on every stored room. `ReconnectEffect` and the two round-trip lemmas describe the path the code evidently means, which the program as written never completes.
- Lock expiry (the 5-second TTL) is left out. A lock stays held until it is released.
- Real concurrency is left out. Every intent runs to completion, and a nested intent meets the lock its caller holds.
- Timers are table entries with opaque handles. The callbacks are not scheduled; `HandleTurnTimeout` and `FireMatchTimeout` are the callbacks run directly.
- Only one `matchmakingTimeout` slot exists, so only the last qualifying bet group keeps a pending match. `FireMatchTimeout` takes the group as it was captured.
- The bet groups are assumed to have integer keys, which `for … in` visits in ascending order. That order is a parameter of `CheckForMatch` and `Process`.
- `shuffleArray`, `Math.random`, `Date.now`, `generateRoomId` and `uuidv4` become parameters: `shuffled`, `pick`, `now`, `roomId` and the manager's token.
- `queue.add` failing is modelled by the `queueAccepts` flag of `AddPlayerToQueue`.
- The `PlayerActionService` that `BotManager` and `GameService` reach through forward references is passed as a parameter to `PlayBotTurn`, `HandlePlayerDisconnect` and `HandleTurnTimeout`.
- A missing hand reads as the empty hand (`Hand`). Where the source would throw a `TypeError` on `undefined`, the model continues with `[]`.
- `getPlayerGameState` and `findGameByPlayerId` are not part of this model; no core operation calls them.
- Three details of the records are dropped: the `side` written onto a turned played tile (src/game/player.action.service.ts:233); the `totalPlayers`, `drawPileCount`, `yourPosition` and `otherPlayersHandCounts` fields that `createGameState` sets (src/game/game.state.manager.ts:39-44), which no core operation reads; and the free-string bot difficulty, modelled as a three-valued `Difficulty` (an unknown string would take `decideTurn`'s default branch, the medium strategy, src/game/bot-player.ts:30-31).
- Services.GameService.HandleTurnTimeout: requires the captured turn index to name a seat; the source would pass `undefined` as the player id otherwise.
- GameLogic.DetermineWinnerByLowestTile: requires at least one seat; with none the source returns `undefined`.
- Services.GameService.FindFirstPlayer: `pick` must be in range (0 when there are no seats), as `Math.floor(Math.random() * n)` is.
- Game.PlayEffect, Game.DrawEffect, Game.PassEffect, Game.LockedPlay, Game.LockedDraw, Game.LockedPass, Game.FollowUp, Game.BotTurnEffect, Game.DisconnectEffect, Game.ReconnectEffect, Game.TimeoutEffect: their own contracts state only the frame. What each intent does is proved in the lemmas beside them: `PlayMovesTurn`, `WinningPlayEndsGame` and `RejectedPlayChangesNothing` for a play; `DrawOutcomes` and `FourSeatDrawRefused` for a draw; `PassMovesTurn` and `BlockedPassEndsGame` for a pass; `FollowUpUnderLock`, `TimeoutRefusedOutcomes` and `ReconnectAfterDisconnectRestoresWorld` for the rest. A draw or pass by a seat whose turn it is not gives `NOT_YOUR_TURN`, and a pass by a seat that can play gives `MUST_PLAY_TILE`; those refusals are stated for the timeout path only (`TimeoutRefusedOutcomes`).
- Turns.CheckPlay: the play pipeline removes the played tile with the corrected filter (`RemoveTile`), not the exact-orientation filter of src/game/player.action.service.ts:208-210 (see Findings). For a tile offered in its stored orientation the two agree. For a reversed offer the source keeps the tile in the hand as well as on the board (`Turns.ReversedOfferDuplicatesTile`); the model takes it out.
- Game.LockedPlay: stores the record built with the corrected filter, as `Turns.CheckPlay` does.
- Game.PlayEffect: runs `Game.LockedPlay`, so a reversed offer is played with the corrected filter.
- Game.PlayMovesTurn: the stored record and the kept tile total are those of the corrected filter. As written, a reversed offer adds one tile to the room.
- Game.PlayStoresAdvanced: stores the record of the corrected filter. As written, the reversed tile would also stay in the hand.
- Game.WinningPlayEndsGame: with the corrected filter, a reversed offer of a seat's last tile empties the hand and ends the game. As written, the tile stays in the hand and play goes on.
- Services.PlayerActionService.PlayTile: its stores change exactly as `Game.PlayEffect`, with the corrected filter.
- Services.PlayerActionService.PlayLocked: its stores change exactly as `Game.LockedPlay`, with the corrected filter.
- Behaviour kept as written (proved, not corrected):
  - `endGame` loads the stored room, not the state the caller just changed, and keeps the seats' room entries.
  - A draw from an empty pile, or one after which the seat still cannot play, calls `passTurn` under the held lock. That call fails with `LOCK_NOT_ACQUIRED` and the draw is not stored (`Game.DrawOutcomes`).
  - A bot's follow-up under the held lock always fails with `LOCK_NOT_ACQUIRED` (`Game.FollowUpUnderLock`).
  - A non-double opening tile leaves one end at -1, and every later move is then `INVALID_BOARD_STATE` (`Turns.NonDoubleOpenerLeavesEndUnset`).
  - Bots never open the board (`Bots.BotNeverOpens`).
  - In a 4-seat opening, a pass ends the game (`Game.FourSeatOpeningPassEndsGame`).
  - `createGameRoom` leaves `currentTurn` as "".
  - Bot ids `bot_1..` are reused across rooms.
  - A missing bot difficulty defaults to medium.

## Findings

| source | as written | input that shows it | evidently intended | confidence | as-written member | corrected member |
|---|---|---|---|---|---|---|
| src/game/game.service.ts:76 | the early return tests `gameState?.disconnectedPlayers`, the set itself, which is always truthy, so the handler never hands a seat over | a stored room with seats `p`, `q` and no disconnected player; `handlePlayerDisconnect(room, "p")` | return only when `playerId` is already in `disconnectedPlayers` | high; not executed | Game.DisconnectEffectAsWritten, Game.DisconnectGuardExample | Game.DisconnectEffect, Services.GameService.HandlePlayerDisconnect, Game.ReconnectAfterDisconnectRestoresWorld |
| src/game/player.action.service.ts:208-210 | the played tile is filtered out of the hand only in the offered orientation, although `playerHasTile` (src/game/game.logic.service.ts:59-65) accepts either | hand `[(5,3)]`, board end 3, `playTile(room, p, (3,5), right)`: the tile stays in hand and is also placed | remove the tile whatever its orientation | high; not executed | Turns.RemoveExact, Turns.ReversedOfferDuplicatesTile, Turns.ReversedOfferExample | Turns.RemoveTile, Turns.PlayConservesTiles, Turns.CheckPlay, Game.LockedPlay, Game.PlayEffect, Game.PlayMovesTurn, Game.PlayStoresAdvanced, Game.WinningPlayEndsGame, Services.PlayerActionService.PlayTile, Services.PlayerActionService.PlayLocked |
| src/matchmaking/matchmaking.processor.ts:52-57 | the bot count is read from `minPlayers` (the default 3 is set at line 63), which a bot job never carries (src/matchmaking/matchmaking.service.ts:43-47), so `botCount` defaults to 3 | `addPlayerToQueue(p, 10, 500, 1, true)`: the room gets 3 bots, not 1 | pass the job's `botCount` | high; not executed | MatchmakingWorker.BotCountAsWritten, MatchmakingWorker.BotCountAsWrittenExample | MatchmakingWorker.BotCount, MatchmakingWorker.BotRequestRoundTrip, MatchmakingWorker.MatchmakingProcessor.Process |
