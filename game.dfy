/**
 * What the services of a room (src/game/player.action.service.ts, src/game/bot.manager.ts,
 * src/game/game.service.ts) do to the stores, as functions on `World`, the part of the
 * stores they can change. The intents call one another: an intent that hands the turn to a
 * bot asks the bot manager to play, and the bot plays through the same intents. The
 * properties of the game are proved about these functions; module `Services` proves that
 * the service methods have exactly these effects.
 */
module Game {
  import opened Wrappers
  import opened Errors
  import opened Tiles
  import opened State
  import opened GameLogic
  import opened StateStore
  import opened Bots
  import opened Turns
  import opened Timers

  /** The stored rooms, room locks, seat-to-room entries, registered bots and pending timers. */
  datatype World = World(
    games: map<string, GameState>,
    locks: map<string, string>,
    lockValue: string,
    roomOf: map<string, string>,
    bots: map<string, Difficulty>,
    turnTimers: map<string, nat>,
    warningTimers: map<string, nat>)

  /** Every stored room is filed under its own id and has a usable turn index. */
  predicate StoreValid(w: World) {
    forall r | r in w.games :: w.games[r].roomId == r && WellFormed(w.games[r])
  }

  /** The world after `roomId` is stored as `gs`. */
  function Save(w: World, roomId: string, gs: GameState): (r: World)
    ensures StoreValid(w) && gs.roomId == roomId && WellFormed(gs) ==> StoreValid(r)
    ensures r.locks == w.locks && r.lockValue == w.lockValue && r.roomOf == w.roomOf && r.bots == w.bots
  {
    w.(games := w.games[roomId := gs])
  }

  /** Whether the caller's lock is held: a held lock is what stops a nested intent. */
  function Rank(w: World, roomId: string): nat {
    if roomId in w.locks then 0 else 1
  }

  // ---------------------------------------------------------------------------
  // endGame

  /**
   * `endGame`: the stored room is loaded (`CACHE_ERROR` if missing), both timers are
   * cleared, the room is deleted, and every seat of the stored room that is a bot is
   * unregistered. Seat-to-room entries stay.
   */
  function EndEffect(w: World, roomId: string): (r: (World, Outcome))
    ensures r.0.locks == w.locks && r.0.lockValue == w.lockValue && r.0.roomOf == w.roomOf
    ensures StoreValid(w) ==> StoreValid(r.0)
    ensures roomId !in w.games ==> r == (w, Failed(CacheError))
    ensures roomId in w.games ==>
              r.1 == Done && roomId !in r.0.games && r.0.games == w.games - {roomId} &&
              r.0.bots == w.bots - (set p | p in w.games[roomId].players) &&
              r.0.turnTimers == w.turnTimers - {roomId} && r.0.warningTimers == w.warningTimers - {roomId}
  {
    match LoadGame(w.games, roomId)
    case Err(e) => (w, Failed(e))
    case Ok(gs) =>
      (w.(games := w.games - {roomId},
          bots := w.bots - (set p | p in gs.players),
          turnTimers := w.turnTimers - {roomId},
          warningTimers := w.warningTimers - {roomId}),
       Done)
  }

  // ---------------------------------------------------------------------------
  // The intents, as functions on the world

  /**
   * `playTile`: without the lock, `LOCK_NOT_ACQUIRED` and nothing changes; with it, the
   * locked body runs and the lock is released.
   */
  function PlayEffect(w: World, roomId: string, playerId: string, tile: Tile, side: Side): (r: (World, Outcome))
    requires StoreValid(w)
    ensures StoreValid(r.0) && r.0.locks == w.locks && r.0.lockValue == w.lockValue && r.0.roomOf == w.roomOf
    decreases Rank(w, roomId), 1
  {
    if roomId in w.locks then (w, Failed(LockNotAcquired))
    else
      var held := w.(locks := w.locks[roomId := w.lockValue]);
      var (after, outcome) := LockedPlay(held, roomId, playerId, tile, side);
      AcquireReleaseRoundTrip(w.locks, roomId, w.lockValue);
      (after.(locks := Release(after.locks, roomId, w.lockValue)), outcome)
  }

  /** The `try` block of `playTile`, run while the room's lock is held. */
  function LockedPlay(w: World, roomId: string, playerId: string, tile: Tile, side: Side): (r: (World, Outcome))
    requires StoreValid(w) && roomId in w.locks
    ensures StoreValid(r.0) && r.0.locks == w.locks && r.0.lockValue == w.lockValue && r.0.roomOf == w.roomOf
    decreases 0, 4
  {
    match LoadGame(w.games, roomId)
    case Err(e) => (w, Failed(e))
    case Ok(gs) =>
      match CheckPlay(gs, playerId, tile, side)
      case Err(e) => (w, Failed(e))
      case Ok(played) =>
        if HasWinner(played) then EndEffect(w, roomId)
        else
          var saved := Advance(played);
          FollowUp(Save(w, roomId, saved), saved)
  }

  /**
   * After a save: when the seat at the turn is a registered bot, `playBotTurn` runs
   * (and its outcome is the intent's outcome); otherwise the intent succeeds.
   */
  function FollowUp(w: World, saved: GameState): (r: (World, Outcome))
    requires StoreValid(w) && saved.roomId in w.locks && IsTurnOf(saved, saved.currentTurn)
    ensures StoreValid(r.0) && r.0.locks == w.locks && r.0.lockValue == w.lockValue && r.0.roomOf == w.roomOf
    decreases 0, 3
  {
    var nextPlayerId := saved.players[saved.turnIndex];
    if nextPlayerId in w.bots then BotTurnEffect(w, saved, nextPlayerId) else (w, Done)
  }

  /**
   * `drawTile`: without the lock, `LOCK_NOT_ACQUIRED`; with it, the locked body runs and the
   * lock is released.
   */
  function DrawEffect(w: World, roomId: string, playerId: string): (r: (World, Outcome))
    requires StoreValid(w)
    ensures StoreValid(r.0) && r.0.locks == w.locks && r.0.lockValue == w.lockValue && r.0.roomOf == w.roomOf
    decreases Rank(w, roomId), 1
  {
    if roomId in w.locks then (w, Failed(LockNotAcquired))
    else
      var held := w.(locks := w.locks[roomId := w.lockValue]);
      var (after, outcome) := LockedDraw(held, roomId, playerId);
      AcquireReleaseRoundTrip(w.locks, roomId, w.lockValue);
      (after.(locks := Release(after.locks, roomId, w.lockValue)), outcome)
  }

  /**
   * The `try` block of `drawTile`. An empty pile, or a drawn tile that still leaves the
   * seat without a move, hands over to `passTurn`, which meets the held lock.
   */
  function LockedDraw(w: World, roomId: string, playerId: string): (r: (World, Outcome))
    requires StoreValid(w) && roomId in w.locks
    ensures StoreValid(r.0) && r.0.locks == w.locks && r.0.lockValue == w.lockValue && r.0.roomOf == w.roomOf
    decreases 0, 4
  {
    match LoadGame(w.games, roomId)
    case Err(e) => (w, Failed(e))
    case Ok(gs) =>
      if !IsTurnOf(gs, playerId) then (w, Failed(NotYourTurn))
      else if |gs.players| == 4 then (w, Failed(CannotDrawTilesIn4PlayerGame))
      else if |gs.drawPile| == 0 then PassEffect(w, roomId, playerId)
      else
        var drawn := DrawnState(gs, playerId);
        if CanPlayTile(drawn, playerId) then (Save(w, roomId, drawn), Done)
        else PassEffect(w, roomId, playerId)
  }

  /**
   * `passTurn`: without the lock, `LOCK_NOT_ACQUIRED`; with it, the locked body runs and the
   * lock is released.
   */
  function PassEffect(w: World, roomId: string, playerId: string): (r: (World, Outcome))
    requires StoreValid(w)
    ensures StoreValid(r.0) && r.0.locks == w.locks && r.0.lockValue == w.lockValue && r.0.roomOf == w.roomOf
    decreases Rank(w, roomId), 1
  {
    if roomId in w.locks then (w, Failed(LockNotAcquired))
    else
      var held := w.(locks := w.locks[roomId := w.lockValue]);
      var (after, outcome) := LockedPass(held, roomId, playerId);
      AcquireReleaseRoundTrip(w.locks, roomId, w.lockValue);
      (after.(locks := Release(after.locks, roomId, w.lockValue)), outcome)
  }

  /**
   * The `try` block of `passTurn`: a seat that can act must play; otherwise the pass is
   * noted, a blocked game ends, and any other game moves to the next seat.
   */
  function LockedPass(w: World, roomId: string, playerId: string): (r: (World, Outcome))
    requires StoreValid(w) && roomId in w.locks
    ensures StoreValid(r.0) && r.0.locks == w.locks && r.0.lockValue == w.lockValue && r.0.roomOf == w.roomOf
    decreases 0, 4
  {
    match LoadGame(w.games, roomId)
    case Err(e) => (w, Failed(e))
    case Ok(gs) =>
      if !IsTurnOf(gs, playerId) then (w, Failed(NotYourTurn))
      else if CanPlayTile(gs, playerId) then (w, Failed(MustPlayTile))
      else
        var passed := PassedState(gs, playerId);
        if IsGameBlocked(passed) then EndEffect(w, passed.roomId)
        else
          var saved := Advance(passed);
          FollowUp(Save(w, roomId, saved), saved)
  }

  /**
   * `playBotTurn`: an unregistered id does nothing; a bot decides on the state it is
   * given and acts through the intent it chose.
   */
  function BotTurnEffect(w: World, gs: GameState, botId: string): (r: (World, Outcome))
    requires StoreValid(w)
    ensures StoreValid(r.0) && r.0.locks == w.locks && r.0.lockValue == w.lockValue && r.0.roomOf == w.roomOf
    decreases Rank(w, gs.roomId), 2
  {
    if botId !in w.bots then (w, Done)
    else
      match Decide(w.bots[botId], gs, botId)
      case Play(tile, side) => PlayEffect(w, gs.roomId, botId, tile, side)
      case Draw => DrawEffect(w, gs.roomId, botId)
      case Pass => PassEffect(w, gs.roomId, botId)
  }

  // ---------------------------------------------------------------------------
  // What the intents do

  /**
   * A bot asked to move while its room's lock is held (the follow-up of an intent) cannot
   * take the lock: its intent fails with `LOCK_NOT_ACQUIRED` and nothing changes.
   */
  lemma FollowUpUnderLock(w: World, saved: GameState)
    requires StoreValid(w) && saved.roomId in w.locks && IsTurnOf(saved, saved.currentTurn)
    ensures FollowUp(w, saved).0 == w
    ensures FollowUp(w, saved).1 == if saved.players[saved.turnIndex] in w.bots then Failed(LockNotAcquired) else Done
  {
    var nextPlayerId := saved.players[saved.turnIndex];
    if nextPlayerId in w.bots {
      match Decide(w.bots[nextPlayerId], saved, nextPlayerId)
      case Play(tile, side) => assert PlayEffect(w, saved.roomId, nextPlayerId, tile, side) == (w, Failed(LockNotAcquired));
      case Draw => assert DrawEffect(w, saved.roomId, nextPlayerId) == (w, Failed(LockNotAcquired));
      case Pass => assert PassEffect(w, saved.roomId, nextPlayerId) == (w, Failed(LockNotAcquired));
    }
  }

  /**
   * A successful play that empties no hand stores the played record with the turn moved
   * to the next seat, and keeps the number of tiles in the room when the hand held the tile
   * once; the intent reports success unless the next seat is a bot, whose follow-up meets
   * the held lock. Locks and seat entries are as before.
   */
  lemma PlayMovesTurn(w: World, roomId: string, playerId: string, tile: Tile, side: Side)
    requires StoreValid(w) && roomId !in w.locks && roomId in w.games
    requires CheckPlay(w.games[roomId], playerId, tile, side).Ok?
    requires !HasWinner(PlayedState(w.games[roomId], playerId, tile, side))
    ensures var gs := w.games[roomId];
            var r := PlayEffect(w, roomId, playerId, tile, side);
            var saved := Advance(PlayedState(gs, playerId, tile, side));
            r.0 == Save(w, roomId, saved) &&
            saved.turnIndex == (if gs.turnIndex + 1 < |gs.players| then gs.turnIndex + 1 else 0) &&
            (r.1 == Done <==> saved.currentTurn !in w.bots) &&
            (r.1 != Done ==> r.1 == Failed(LockNotAcquired))
    ensures var gs := w.games[roomId];
            Distinct(gs.players) && playerId in gs.hands && CountSame(Hand(gs, playerId), tile) == 1 ==>
              TotalTiles(PlayEffect(w, roomId, playerId, tile, side).0.games[roomId]) == TotalTiles(gs)
  {
    var gs := w.games[roomId];
    var saved := Advance(PlayedState(gs, playerId, tile, side));
    PlayStoresAdvanced(w, roomId, playerId, tile, side);
    if Distinct(gs.players) && playerId in gs.hands && CountSame(Hand(gs, playerId), tile) == 1 {
      PlayConservesTiles(gs, playerId, tile, side);
      assert TotalTiles(saved) == TotalTiles(PlayedState(gs, playerId, tile, side));
    }
  }

  /**
   * A successful play that empties no hand stores the advanced record, and its outcome is
   * that of a follow-up meeting the held lock.
   */
  lemma PlayStoresAdvanced(w: World, roomId: string, playerId: string, tile: Tile, side: Side)
    requires StoreValid(w) && roomId !in w.locks && roomId in w.games
    requires CheckPlay(w.games[roomId], playerId, tile, side).Ok?
    requires !HasWinner(PlayedState(w.games[roomId], playerId, tile, side))
    ensures var saved := Advance(PlayedState(w.games[roomId], playerId, tile, side));
            PlayEffect(w, roomId, playerId, tile, side) ==
              (Save(w, roomId, saved),
               if saved.players[saved.turnIndex] in w.bots then Failed(LockNotAcquired) else Done)
  {
    var held := w.(locks := w.locks[roomId := w.lockValue]);
    var saved := Advance(PlayedState(w.games[roomId], playerId, tile, side));
    assert LockedPlay(held, roomId, playerId, tile, side) == FollowUp(Save(held, roomId, saved), saved);
    FollowUpUnderLock(Save(held, roomId, saved), saved);
    assert w.locks[roomId := w.lockValue] - {roomId} == w.locks;
  }

  /**
   * A play that empties a hand (of a seat whose id is not empty) ends the game: the room
   * is deleted, its bots are unregistered, its timers cleared, and the intent succeeds.
   */
  lemma WinningPlayEndsGame(w: World, roomId: string, playerId: string, tile: Tile, side: Side)
    requires StoreValid(w) && roomId !in w.locks && roomId in w.games
    requires CheckPlay(w.games[roomId], playerId, tile, side).Ok?
    requires HasWinner(PlayedState(w.games[roomId], playerId, tile, side))
    ensures PlayEffect(w, roomId, playerId, tile, side) ==
              (w.(games := w.games - {roomId},
                  bots := w.bots - (set p | p in w.games[roomId].players),
                  turnTimers := w.turnTimers - {roomId},
                  warningTimers := w.warningTimers - {roomId}), Done)
  {
    assert w.locks[roomId := w.lockValue] - {roomId} == w.locks;
  }

  /** A rejected play (any check failing, or no stored room) changes nothing. */
  lemma RejectedPlayChangesNothing(w: World, roomId: string, playerId: string, tile: Tile, side: Side)
    requires StoreValid(w)
    requires roomId !in w.games || CheckPlay(w.games[roomId], playerId, tile, side).Err?
    ensures PlayEffect(w, roomId, playerId, tile, side).0 == w
    ensures PlayEffect(w, roomId, playerId, tile, side).1 ==
              if roomId in w.locks then Failed(LockNotAcquired)
              else if roomId !in w.games then Failed(CacheError)
              else Failed(CheckPlay(w.games[roomId], playerId, tile, side).error)
  {
    if roomId !in w.locks {
      assert w.locks[roomId := w.lockValue] - {roomId} == w.locks;
    }
  }

  /**
   * A draw from a non-empty pile that gives the seat a move is stored with the turn
   * unchanged and the tile count unchanged. Any other draw (empty pile, or still no move)
   * hands over to `passTurn` under the held lock: it fails with `LOCK_NOT_ACQUIRED` and
   * the draw is not stored.
   */
  lemma DrawOutcomes(w: World, roomId: string, playerId: string)
    requires StoreValid(w) && roomId !in w.locks && roomId in w.games
    requires IsTurnOf(w.games[roomId], playerId) && |w.games[roomId].players| != 4
    ensures var gs := w.games[roomId];
            var r := DrawEffect(w, roomId, playerId);
            if gs.drawPile != [] && CanPlayTile(DrawnState(gs, playerId), playerId) then
              r == (Save(w, roomId, DrawnState(gs, playerId)), Done) &&
              r.0.games[roomId].turnIndex == gs.turnIndex &&
              (Distinct(gs.players) && playerId in gs.hands ==> TotalTiles(r.0.games[roomId]) == TotalTiles(gs))
            else r == (w, Failed(LockNotAcquired))
  {
    var gs := w.games[roomId];
    DrawStores(w, roomId, playerId);
    if gs.drawPile != [] && Distinct(gs.players) && playerId in gs.hands {
      DrawConservesTiles(gs, playerId);
    }
  }

  /**
   * A draw either stores the drawn record (when the drawn tile gives the seat a move) or
   * reaches `passTurn`, which meets the held lock.
   */
  lemma DrawStores(w: World, roomId: string, playerId: string)
    requires StoreValid(w) && roomId !in w.locks && roomId in w.games
    requires IsTurnOf(w.games[roomId], playerId) && |w.games[roomId].players| != 4
    ensures var gs := w.games[roomId];
            DrawEffect(w, roomId, playerId) ==
              if gs.drawPile != [] && CanPlayTile(DrawnState(gs, playerId), playerId)
              then (Save(w, roomId, DrawnState(gs, playerId)), Done)
              else (w, Failed(LockNotAcquired))
  {
    var held := w.(locks := w.locks[roomId := w.lockValue]);
    LockedDrawOutcomes(held, roomId, playerId);
    assert w.locks[roomId := w.lockValue] - {roomId} == w.locks;
  }

  /**
   * Under the held lock, a draw either stores the drawn record (when the drawn tile gives
   * the seat a move) or reaches `passTurn`, which cannot take the lock.
   */
  lemma LockedDrawOutcomes(w: World, roomId: string, playerId: string)
    requires StoreValid(w) && roomId in w.locks && roomId in w.games
    requires IsTurnOf(w.games[roomId], playerId) && |w.games[roomId].players| != 4
    ensures var gs := w.games[roomId];
            LockedDraw(w, roomId, playerId) ==
              if gs.drawPile != [] && CanPlayTile(DrawnState(gs, playerId), playerId)
              then (Save(w, roomId, DrawnState(gs, playerId)), Done)
              else (w, Failed(LockNotAcquired))
  {
    assert PassEffect(w, roomId, playerId) == (w, Failed(LockNotAcquired));
  }

  /**
   * A pass by a seat without a move in a game that is not blocked stores the record with
   * the pass noted and the turn moved to the next seat; no history entry is written.
   */
  lemma PassMovesTurn(w: World, roomId: string, playerId: string)
    requires StoreValid(w) && roomId !in w.locks && roomId in w.games
    requires IsTurnOf(w.games[roomId], playerId) && !CanPlayTile(w.games[roomId], playerId)
    requires !IsGameBlocked(PassedState(w.games[roomId], playerId))
    ensures var gs := w.games[roomId];
            var r := PassEffect(w, roomId, playerId);
            var saved := Advance(PassedState(gs, playerId));
            r.0 == Save(w, roomId, saved) &&
            saved.moveHistory == gs.moveHistory && saved.lastAction == LastAction(playerId, PassAction) &&
            saved.turnIndex == (if gs.turnIndex + 1 < |gs.players| then gs.turnIndex + 1 else 0) &&
            (r.1 == Done <==> saved.currentTurn !in w.bots)
  {
    var gs := w.games[roomId];
    var held := w.(locks := w.locks[roomId := w.lockValue]);
    var saved := Advance(PassedState(gs, playerId));
    FollowUpUnderLock(Save(held, roomId, saved), saved);
    assert w.locks[roomId := w.lockValue] - {roomId} == w.locks;
  }

  /**
   * In a 4-seat room before the first play, the seat at the turn that does not hold 6:6
   * cannot act, and its pass ends the game at once: both ends are still -1, which no tile
   * touches, so the game reads as blocked.
   */
  lemma FourSeatOpeningPassEndsGame(w: World, roomId: string, playerId: string)
    requires StoreValid(w) && roomId !in w.locks && roomId in w.games
    requires var gs := w.games[roomId];
             |gs.players| == 4 && gs.isFirstPlay && gs.boardEnds == BoardEnds(NoEnd, NoEnd) &&
             IsTurnOf(gs, playerId) && Tile(6, 6) !in Hand(gs, playerId)
    requires forall p | p in w.games[roomId].hands :: forall k | 0 <= k < |w.games[roomId].hands[p]| :: PipsInRange(w.games[roomId].hands[p][k])
    ensures PassEffect(w, roomId, playerId).1 == Done
    ensures roomId !in PassEffect(w, roomId, playerId).0.games
  {
    var gs := w.games[roomId];
    OpeningBoardReadsBlocked(PassedState(gs, playerId));
    assert w.locks[roomId := w.lockValue] - {roomId} == w.locks;
  }

  /**
   * A pass that leaves the game blocked ends it: the room is deleted, its bots are
   * unregistered, both its timers are cleared, and the intent succeeds.
   */
  lemma BlockedPassEndsGame(w: World, roomId: string, playerId: string)
    requires StoreValid(w) && roomId !in w.locks && roomId in w.games
    requires IsTurnOf(w.games[roomId], playerId) && !CanPlayTile(w.games[roomId], playerId)
    requires IsGameBlocked(PassedState(w.games[roomId], playerId))
    ensures PassEffect(w, roomId, playerId) ==
              (w.(games := w.games - {roomId},
                  bots := w.bots - (set p | p in w.games[roomId].players),
                  turnTimers := w.turnTimers - {roomId},
                  warningTimers := w.warningTimers - {roomId}), Done)
  {
    assert w.locks[roomId := w.lockValue] - {roomId} == w.locks;
  }

  /** `drawTile` in a 4-seat room is refused on the seat's turn, and nothing changes. */
  lemma FourSeatDrawRefused(w: World, roomId: string, playerId: string)
    requires StoreValid(w) && roomId !in w.locks && roomId in w.games
    requires IsTurnOf(w.games[roomId], playerId) && |w.games[roomId].players| == 4
    ensures DrawEffect(w, roomId, playerId) == (w, Failed(CannotDrawTilesIn4PlayerGame))
  {
    assert w.locks[roomId := w.lockValue] - {roomId} == w.locks;
  }

  // ---------------------------------------------------------------------------
  // Room set-up (`createGameRoom`, `findFirstPlayer`, `initializeGameWithBots`)

  /** Whether the seat `k` holds the double six, stored as left 6, right 6. */
  predicate HoldsDoubleSix(gs: GameState, k: int)
    requires 0 <= k < |gs.players|
  {
    Tile(6, 6) in Hand(gs, gs.players[k])
  }

  /**
   * The seat `findFirstPlayer` may return: with 4 seats, the first seat holding 6:6 when
   * one does; otherwise the seat `pick` drawn at random.
   */
  predicate ChosenOpener(gs: GameState, i: int, pick: nat) {
    if |gs.players| == 4 && exists k | 0 <= k < |gs.players| :: HoldsDoubleSix(gs, k) then
      0 <= i < |gs.players| && HoldsDoubleSix(gs, i) && forall k | 0 <= k < i :: !HoldsDoubleSix(gs, k)
    else i == pick
  }

  /** Which seat opens depends only on the seats and hands, not on the stored turn index. */
  lemma ChosenOpenerIgnoresTurn(gs: GameState, i: int, pick: nat)
    requires ChosenOpener(gs, i, pick)
    ensures ChosenOpener(gs.(turnIndex := i), i, pick)
  {
    var moved := gs.(turnIndex := i);
    assert forall k | 0 <= k < |gs.players| :: HoldsDoubleSix(moved, k) == HoldsDoubleSix(gs, k);
  }

  /**
   * Setting the chosen opener's turn index on a freshly dealt room keeps the deal and gives
   * a record fit to be stored under its id.
   */
  lemma OpenerKeepsDeal(created: GameState, first: int, pick: nat,
                        roomId: string, players: seq<string>, betAmount: int, shuffled: seq<Tile>, now: int)
    requires DealtRoom(created, roomId, players, betAmount, shuffled, now)
    requires ChosenOpener(created, first, pick)
    requires if |players| == 0 then pick == 0 else pick < |players|
    ensures var gs := created.(turnIndex := first);
            DealtRoom(gs, roomId, players, betAmount, shuffled, now) && ChosenOpener(gs, first, pick) &&
            gs.roomId == roomId && WellFormed(gs)
  {
    ChosenOpenerIgnoresTurn(created, first, pick);
  }

  /**
   * In a room of 4 distinct seats dealt from a shuffled full set, all 28 tiles are in the
   * hands, so some seat holds 6:6 and that seat opens, whatever the random draw.
   */
  lemma FourSeatOpenerHoldsDoubleSix(shuffled: seq<Tile>, gs: GameState, i: int, pick: nat)
    requires multiset(shuffled) == multiset(AllTiles())
    requires |gs.players| == 4 && Distinct(gs.players) && gs.drawPile == []
    requires forall j | 0 <= j < |gs.players| :: gs.players[j] in gs.hands && gs.hands[gs.players[j]] == DealtSlice(shuffled, j)
    requires ChosenOpener(gs, i, pick)
    ensures 0 <= i < 4 && HoldsDoubleSix(gs, i)
  {
    DealtStateConservesTiles(gs.players, shuffled, gs);
    AllTilesMembers();
    assert Canonical(Tile(6, 6));
    assert Tile(6, 6) in SeatBag(gs.players, gs.hands);
    SeatBagMember(gs.players, gs.hands, Tile(6, 6));
    var k :| 0 <= k < |gs.players| && gs.players[k] in gs.hands && Tile(6, 6) in gs.hands[gs.players[k]];
    assert HoldsDoubleSix(gs, k);
  }

  /** The decimal digits of `n`, as `String(n)` writes them. */
  function NatToString(n: nat): string
    decreases n
  {
    if n < 10 then ["0123456789"[n]] else NatToString(n / 10) + ["0123456789"[n % 10]]
  }

  /** Different numbers are written differently. */
  lemma {:induction false} NatToStringInjective(a: nat, b: nat)
    requires NatToString(a) == NatToString(b)
    ensures a == b
    decreases a
  {
    var sa, sb := NatToString(a), NatToString(b);
    if a >= 10 {
      NatToStringNonEmpty(a / 10);
    }
    if b >= 10 {
      NatToStringNonEmpty(b / 10);
    }
    if a < 10 && b < 10 {
      assert sa[0] == sb[0];
    } else if a >= 10 && b >= 10 {
      assert sa[..|sa| - 1] == NatToString(a / 10);
      assert sb[..|sb| - 1] == NatToString(b / 10);
      NatToStringInjective(a / 10, b / 10);
      assert sa[|sa| - 1] == sb[|sb| - 1];
      assert a % 10 == b % 10;
    }
  }

  lemma {:induction false} NatToStringNonEmpty(n: nat)
    ensures |NatToString(n)| >= 1
    decreases n
  {
    if n >= 10 {
      NatToStringNonEmpty(n / 10);
    }
  }

  /** The id of the `i`-th added bot (counting from 1). */
  function BotName(i: nat): string {
    "bot_" + NatToString(i)
  }

  /** `Array.from({ length: botCount }, (_, i) => `bot_${i + 1}`)`. */
  function BotNames(botCount: nat): seq<string> {
    seq(botCount, i requires 0 <= i < botCount => BotName(i + 1))
  }

  /** The bots added to one room get pairwise different ids. */
  lemma BotNamesDistinct(botCount: nat)
    ensures Distinct(BotNames(botCount))
  {
    var names := BotNames(botCount);
    forall i, j | 0 <= i < j < |names|
      ensures names[i] != names[j]
    {
      if names[i] == names[j] {
        assert NatToString(i + 1) == names[i][4..];
        assert NatToString(j + 1) == names[j][4..];
        NatToStringInjective(i + 1, j + 1);
      }
    }
  }

  // ---------------------------------------------------------------------------
  // Seat hand-over (`handlePlayerDisconnect`, `handlePlayerReconnect`)

  /** The id of the bot that takes over a disconnected seat. */
  function StandIn(playerId: string): string {
    "bot_" + playerId
  }

  /** `players.map((id) => id === from ? to : id)`. */
  function ReplaceSeat(players: seq<string>, from: string, to: string): seq<string> {
    seq(|players|, i requires 0 <= i < |players| => if players[i] == from then to else players[i])
  }

  /**
   * `hands[to] = hands[from]; delete hands[from]`. A missing `from` entry leaves `to`
   * undefined, which storing the state drops.
   */
  function MoveHand(hands: map<string, seq<Tile>>, from: string, to: string): map<string, seq<Tile>> {
    if from in hands then hands[to := hands[from]] - {from} else hands - {to}
  }

  /** The room after `playerId`'s seat is handed to its stand-in bot. */
  function Disconnected(gs: GameState, playerId: string): GameState {
    gs.(disconnectedPlayers := gs.disconnectedPlayers + {playerId},
        players := ReplaceSeat(gs.players, playerId, StandIn(playerId)),
        hands := MoveHand(gs.hands, playerId, StandIn(playerId)))
  }

  /** The room after the stand-in bot hands the seat back to `playerId`. */
  function Reconnected(gs: GameState, playerId: string): GameState {
    gs.(disconnectedPlayers := gs.disconnectedPlayers - {playerId},
        players := ReplaceSeat(gs.players, StandIn(playerId), playerId),
        hands := MoveHand(gs.hands, StandIn(playerId), playerId))
  }

  /**
   * `handlePlayerDisconnect` as written: its guard `gameState?.disconnectedPlayers` reads
   * the set (an object once stored), which is always truthy, so it returns before doing
   * anything.
   */
  function DisconnectEffectAsWritten(w: World, roomId: string, playerId: string): (r: (World, Outcome))
    ensures r.0 == w
    ensures r.1 == if roomId in w.games then Done else Failed(CacheError)
  {
    match LoadGame(w.games, roomId)
    case Err(e) => (w, Failed(e))
    case Ok(gs) => (w, Done)
  }

  /**
   * `handlePlayerDisconnect` with the guard it evidently means (return when the player is
   * already disconnected): the seat goes to a medium stand-in bot, the room is stored and,
   * when the seat at the turn is a bot, that bot plays (no lock is held here).
   */
  function DisconnectEffect(w: World, roomId: string, playerId: string): (r: (World, Outcome))
    requires StoreValid(w)
    ensures StoreValid(r.0) && r.0.locks == w.locks && r.0.roomOf == w.roomOf
  {
    match LoadGame(w.games, roomId)
    case Err(e) => (w, Failed(e))
    case Ok(gs) =>
      if playerId in gs.disconnectedPlayers then (w, Done)
      else
        var next := Disconnected(gs, playerId);
        var stored := Save(w.(bots := w.bots[StandIn(playerId) := Medium]), roomId, next);
        if |next.players| > 0 && next.players[next.turnIndex] in stored.bots then
          BotTurnEffect(stored, next, next.players[next.turnIndex])
        else (stored, Done)
  }

  /**
   * `handlePlayerReconnect`: for a disconnected player the stand-in bot is unregistered,
   * the seat and hand go back, and the room is stored; otherwise nothing happens.
   */
  function ReconnectEffect(w: World, roomId: string, playerId: string): (r: (World, Outcome))
    requires StoreValid(w)
    ensures StoreValid(r.0) && r.0.locks == w.locks && r.0.roomOf == w.roomOf
  {
    match LoadGame(w.games, roomId)
    case Err(e) => (w, Failed(e))
    case Ok(gs) =>
      if playerId !in gs.disconnectedPlayers then (w, Done)
      else (Save(w.(bots := w.bots - {StandIn(playerId)}), roomId, Reconnected(gs, playerId)), Done)
  }

  /**
   * Handing a seat to its stand-in and back restores the room, provided the stand-in's id
   * was not already seated or holding a hand.
   */
  lemma ReconnectUndoesDisconnect(gs: GameState, playerId: string)
    requires playerId !in gs.disconnectedPlayers
    requires StandIn(playerId) !in gs.players && StandIn(playerId) !in gs.hands
    ensures Reconnected(Disconnected(gs, playerId), playerId) == gs
  {
    var botId := StandIn(playerId);
    assert |botId| == |playerId| + 4;
    var back := Reconnected(Disconnected(gs, playerId), playerId);
    assert back.players == gs.players by {
      forall i | 0 <= i < |gs.players|
        ensures back.players[i] == gs.players[i]
      {
        assert gs.players[i] != botId;
      }
    }
    assert back.hands == gs.hands;
    assert back.disconnectedPlayers == gs.disconnectedPlayers;
  }

  /**
   * With the corrected guard, a disconnect that hands the turn to no bot, followed by a
   * reconnect, leaves the stores as they were.
   */
  lemma ReconnectAfterDisconnectRestoresWorld(w: World, roomId: string, playerId: string)
    requires StoreValid(w) && roomId in w.games
    requires var gs := w.games[roomId];
             playerId !in gs.disconnectedPlayers &&
             StandIn(playerId) !in gs.players && StandIn(playerId) !in gs.hands && StandIn(playerId) !in w.bots &&
             |gs.players| > 0 && gs.players[gs.turnIndex] != playerId && gs.players[gs.turnIndex] !in w.bots
    ensures DisconnectEffect(w, roomId, playerId).1 == Done
    ensures ReconnectEffect(DisconnectEffect(w, roomId, playerId).0, roomId, playerId) == (w, Done)
  {
    var gs := w.games[roomId];
    var botId := StandIn(playerId);
    var next := Disconnected(gs, playerId);
    assert next.players[next.turnIndex] == gs.players[gs.turnIndex];
    assert gs.players[gs.turnIndex] != botId;
    var stored := Save(w.(bots := w.bots[botId := Medium]), roomId, next);
    assert DisconnectEffect(w, roomId, playerId) == (stored, Done);
    assert LoadGame(stored.games, roomId) == Ok(next);
    ReconnectUndoesDisconnect(gs, playerId);
    assert w.bots[botId := Medium] - {botId} == w.bots;
    assert w.games[roomId := next][roomId := gs] == w.games;
    assert ReconnectEffect(stored, roomId, playerId) == (Save(stored.(bots := stored.bots - {botId}), roomId, gs), Done);
  }

  /**
   * The discrepancy: a connected player's seat in a stored room. The corrected handler
   * hands it to the stand-in bot; the handler as written leaves it with the player.
   */
  lemma DisconnectGuardExample()
    ensures var gs := GameState("r", ["p", "q"], map["p" := [Tile(1, 2)], "q" := [Tile(3, 4)]], [], 1, 0, [],
                                LastAction("", PlayAction), BoardEnds(NoEnd, NoEnd), "", 0, map[], {}, [], true);
            var w := World(map["r" := gs], map[], "t", map[], map[], map[], map[]);
            DisconnectEffectAsWritten(w, "r", "p").0.games["r"].players == ["p", "q"] &&
            DisconnectEffect(w, "r", "p").0.games["r"].players == ["bot_p", "q"]
  {
    var gs := GameState("r", ["p", "q"], map["p" := [Tile(1, 2)], "q" := [Tile(3, 4)]], [], 1, 0, [],
                        LastAction("", PlayAction), BoardEnds(NoEnd, NoEnd), "", 0, map[], {}, [], true);
    var next := Disconnected(gs, "p");
    assert StandIn("p") == "bot_p";
    assert |next.players| == 2 && next.players[0] == "bot_p" && next.players[1] == "q";
    assert next.players == ["bot_p", "q"];
  }

  // ---------------------------------------------------------------------------
  // Turn timers (`startTurnTimer`, `handleTurnTimeout`)

  /**
   * `startTurnTimer`: the room's turn start time is set to `now` and stored, and the room's
   * warning and turn timers are replaced by the new handles.
   */
  function StartTimerEffect(w: World, roomId: string, now: int, warningHandle: nat, turnHandle: nat): (r: (World, Outcome))
    requires StoreValid(w)
    ensures StoreValid(r.0) && r.0.locks == w.locks && r.0.roomOf == w.roomOf
    ensures roomId !in w.games ==> r == (w, Failed(CacheError))
    ensures roomId in w.games ==>
              r.1 == Done && r.0.bots == w.bots &&
              r.0.games == w.games[roomId := w.games[roomId].(turnStartTime := now)] &&
              r.0.turnTimers == w.turnTimers[roomId := turnHandle] &&
              r.0.warningTimers == w.warningTimers[roomId := warningHandle]
  {
    match LoadGame(w.games, roomId)
    case Err(e) => (w, Failed(e))
    case Ok(gs) =>
      (Save(w, roomId, gs.(turnStartTime := now)).(
         turnTimers := w.turnTimers[roomId := turnHandle],
         warningTimers := w.warningTimers[roomId := warningHandle]), Done)
  }

  /**
   * `handleTurnTimeout` on the state captured when the timer was set: the seat at its turn
   * passes, and only when that succeeds is a new timer started.
   */
  function TimeoutEffect(w: World, gs: GameState, now: int, warningHandle: nat, turnHandle: nat): (r: (World, Outcome))
    requires StoreValid(w) && 0 <= gs.turnIndex < |gs.players|
    ensures StoreValid(r.0) && r.0.locks == w.locks && r.0.roomOf == w.roomOf
  {
    var (passed, outcome) := PassEffect(w, gs.roomId, gs.players[gs.turnIndex]);
    if outcome != Done then (passed, outcome)
    else StartTimerEffect(passed, gs.roomId, now, warningHandle, turnHandle)
  }

  /**
   * A timeout never forces a move: when the stored seat at the turn can still play the pass
   * is refused with `MUST_PLAY_TILE`, and when the captured state is stale (the turn has
   * moved on) with `NOT_YOUR_TURN`; either way nothing changes and no new timer is set.
   */
  lemma TimeoutRefusedOutcomes(w: World, gs: GameState, now: int, warningHandle: nat, turnHandle: nat)
    requires StoreValid(w) && 0 <= gs.turnIndex < |gs.players|
    requires gs.roomId !in w.locks && gs.roomId in w.games
    ensures var stored := w.games[gs.roomId];
            var timedOut := gs.players[gs.turnIndex];
            var r := TimeoutEffect(w, gs, now, warningHandle, turnHandle);
            (!IsTurnOf(stored, timedOut) ==> r == (w, Failed(NotYourTurn))) &&
            (IsTurnOf(stored, timedOut) && CanPlayTile(stored, timedOut) ==> r == (w, Failed(MustPlayTile)))
  {
    var roomId, timedOut := gs.roomId, gs.players[gs.turnIndex];
    var stored := w.games[roomId];
    var held := w.(locks := w.locks[roomId := w.lockValue]);
    assert w.locks[roomId := w.lockValue] - {roomId} == w.locks;
    if !IsTurnOf(stored, timedOut) {
      assert LockedPass(held, roomId, timedOut) == (held, Failed(NotYourTurn));
      assert PassEffect(w, roomId, timedOut) == (w, Failed(NotYourTurn));
    } else if CanPlayTile(stored, timedOut) {
      assert LockedPass(held, roomId, timedOut) == (held, Failed(MustPlayTile));
      assert PassEffect(w, roomId, timedOut) == (w, Failed(MustPlayTile));
    }
  }
}
