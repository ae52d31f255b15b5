/**
 * The services that drive a room: `BotManager` (src/game/bot.manager.ts),
 * `PlayerActionService` (src/game/player.action.service.ts) and `GameService`
 * (src/game/game.service.ts). Each method that changes the stores is proved to have
 * exactly the effect the matching function of module `Game` gives it.
 */
module Services {
  import opened Wrappers
  import opened Errors
  import opened Tiles
  import opened State
  import opened GameLogic
  import opened StateStore
  import opened Bots
  import opened Turns
  import opened Timers
  import opened Game

  /** The part of the stores an intent can change, read off the three services that hold it. */
  ghost function WorldOf(store: GameStateManager, bots: BotManager, timers: TimerService): World
    reads store, bots, timers
  {
    World(store.games, store.locks, store.lockValue, store.roomOf, bots.bots, timers.turnTimers, timers.warningTimers)
  }

  /**
   * `BotManager`: the `bot:<id>` table. `PlayBotTurn` receives the `PlayerActionService` it
   * plays through (the source injects it).
   */
  class BotManager {
    /** `bot:<id>` entries: the registered bots and their difficulty. */
    var bots: map<string, Difficulty>

    constructor ()
      ensures bots == map[]
    {
      bots := map[];
    }

    /** `addBot`: registers (or re-registers) `botId`. */
    method AddBot(botId: string, difficulty: Difficulty)
      modifies this
      ensures bots == old(bots)[botId := difficulty]
    {
      bots := bots[botId := difficulty];
    }

    /** The `for (const botId of bots) addBot(botId, difficulty)` loop of `initializeGameWithBots`. */
    method AddBots(botIds: seq<string>, difficulty: Difficulty)
      modifies this
      ensures bots == old(bots) + map b | b in botIds :: difficulty
    {
      for i := 0 to |botIds|
        invariant bots == old(bots) + map b | b in botIds[..i] :: difficulty
      {
        AddBot(botIds[i], difficulty);
        assert botIds[..i + 1] == botIds[..i] + [botIds[i]];
      }
      assert botIds[..|botIds|] == botIds;
    }

    /** `removeBot`: forgets `botId`. */
    method RemoveBot(botId: string)
      modifies this
      ensures bots == old(bots) - {botId}
    {
      bots := bots - {botId};
    }

    /** `isBot`: whether an entry exists for the id. */
    method IsBot(playerId: string) returns (b: bool)
      ensures b <==> playerId in bots
    {
      b := playerId in bots;
    }

    /**
     * `playBotTurn`: an unregistered id does nothing; otherwise the bot decides on the
     * state it was handed and acts through the matching intent.
     */
    method PlayBotTurn(actions: PlayerActionService, gs: GameState, botId: string) returns (r: Outcome)
      requires actions.Valid() && actions.bots == this
      modifies actions.store, this, actions.timers
      ensures actions.Valid()
      ensures (WorldOf(actions.store, this, actions.timers), r) ==
              BotTurnEffect(old(WorldOf(actions.store, this, actions.timers)), gs, botId)
      decreases if gs.roomId in actions.store.locks then 0 else 1, 2
    {
      if botId !in bots {
        return Done;
      }
      var decision := DecideTurn(bots[botId], gs, botId);
      match decision
      case Play(tile, side) =>
        r := actions.PlayTile(gs.roomId, botId, tile, side);
      case Draw =>
        r := actions.DrawTile(gs.roomId, botId);
      case Pass =>
        r := actions.PassTurn(gs.roomId, botId);
    }
  }

  /** `PlayerActionService`: the three intents, each run under the room's lock. */
  class PlayerActionService {
    const store: GameStateManager
    const bots: BotManager
    const timers: TimerService
    const game: GameService

    /** The services share one store, one bot table and one timer table. */
    ghost predicate Valid()
      reads store
    {
      store.Valid() && game.store == store && game.bots == bots && game.timers == timers
    }

    constructor (game: GameService)
      requires game.store.Valid()
      ensures Valid() && this.game == game
      ensures store == game.store && bots == game.bots && timers == game.timers
    {
      this.store, this.bots, this.timers, this.game := game.store, game.bots, game.timers, game;
    }

    /** `playTile`. */
    method PlayTile(roomId: string, playerId: string, tile: Tile, side: Side) returns (r: Outcome)
      requires Valid()
      modifies store, bots, timers
      ensures Valid()
      ensures (WorldOf(store, bots, timers), r) == PlayEffect(old(WorldOf(store, bots, timers)), roomId, playerId, tile, side)
      decreases if roomId in store.locks then 0 else 1, 1
    {
      var acquired := store.AcquireLock(roomId);
      if !acquired {
        return Failed(LockNotAcquired);
      }
      r := PlayLocked(roomId, playerId, tile, side);
      store.ReleaseLock(roomId);
    }

    /** The `try` block of `playTile`; the caller holds the lock. */
    method PlayLocked(roomId: string, playerId: string, tile: Tile, side: Side) returns (r: Outcome)
      requires Valid() && roomId in store.locks
      modifies store, bots, timers
      ensures Valid()
      ensures (WorldOf(store, bots, timers), r) == LockedPlay(old(WorldOf(store, bots, timers)), roomId, playerId, tile, side)
      decreases 0, 4
    {
      var loaded := store.GetGameState(roomId);
      if loaded.Err? {
        return Failed(loaded.error);
      }
      var gs := loaded.value;
      var checked := CheckPlay(gs, playerId, tile, side);
      if checked.Err? {
        return Failed(checked.error);
      }
      var played := checked.value;
      if HasWinner(played) {
        var winner := FirstEmptySeat(played, 0);
        var scores;
        r, scores := game.EndGame(roomId, winner);
        return;
      }
      var saved := Advance(played);
      var lastGameState := store.SetGameState(roomId, saved);
      var nextPlayerId := lastGameState.players[lastGameState.turnIndex];
      var isBot := bots.IsBot(nextPlayerId);
      if isBot {
        r := bots.PlayBotTurn(this, lastGameState, nextPlayerId);
      } else {
        r := Done;
      }
    }

    /** `drawTile`. */
    method DrawTile(roomId: string, playerId: string) returns (r: Outcome)
      requires Valid()
      modifies store, bots, timers
      ensures Valid()
      ensures (WorldOf(store, bots, timers), r) == DrawEffect(old(WorldOf(store, bots, timers)), roomId, playerId)
      decreases if roomId in store.locks then 0 else 1, 1
    {
      var acquired := store.AcquireLock(roomId);
      if !acquired {
        return Failed(LockNotAcquired);
      }
      r := DrawLocked(roomId, playerId);
      store.ReleaseLock(roomId);
    }

    /** The `try` block of `drawTile`; the caller holds the lock. */
    method DrawLocked(roomId: string, playerId: string) returns (r: Outcome)
      requires Valid() && roomId in store.locks
      modifies store, bots, timers
      ensures Valid()
      ensures (WorldOf(store, bots, timers), r) == LockedDraw(old(WorldOf(store, bots, timers)), roomId, playerId)
      decreases 0, 4
    {
      var loaded := store.GetGameState(roomId);
      if loaded.Err? {
        return Failed(loaded.error);
      }
      var gs := loaded.value;
      if !IsTurnOf(gs, playerId) {
        return Failed(NotYourTurn);
      }
      if |gs.players| == 4 {
        return Failed(CannotDrawTilesIn4PlayerGame);
      }
      if |gs.drawPile| == 0 {
        r := PassTurn(roomId, playerId);
        return;
      }
      var drawn := DrawnState(gs, playerId);
      if CanPlayTile(drawn, playerId) {
        var _ := store.SetGameState(roomId, drawn);
        r := Done;
      } else {
        r := PassTurn(roomId, playerId);
      }
    }

    /** `passTurn`. */
    method PassTurn(roomId: string, playerId: string) returns (r: Outcome)
      requires Valid()
      modifies store, bots, timers
      ensures Valid()
      ensures (WorldOf(store, bots, timers), r) == PassEffect(old(WorldOf(store, bots, timers)), roomId, playerId)
      decreases if roomId in store.locks then 0 else 1, 1
    {
      var acquired := store.AcquireLock(roomId);
      if !acquired {
        return Failed(LockNotAcquired);
      }
      r := PassLocked(roomId, playerId);
      store.ReleaseLock(roomId);
    }

    /** The `try` block of `passTurn`; the caller holds the lock. */
    method PassLocked(roomId: string, playerId: string) returns (r: Outcome)
      requires Valid() && roomId in store.locks
      modifies store, bots, timers
      ensures Valid()
      ensures (WorldOf(store, bots, timers), r) == LockedPass(old(WorldOf(store, bots, timers)), roomId, playerId)
      decreases 0, 4
    {
      var loaded := store.GetGameState(roomId);
      if loaded.Err? {
        return Failed(loaded.error);
      }
      var gs := loaded.value;
      if !IsTurnOf(gs, playerId) {
        return Failed(NotYourTurn);
      }
      if CanPlayTile(gs, playerId) {
        return Failed(MustPlayTile);
      }
      var passed := PassedState(gs, playerId);
      if IsGameBlocked(passed) {
        var winner := DetermineWinnerByLowestTile(passed);
        var scores;
        r, scores := game.EndGame(passed.roomId, Some(winner));
        return;
      }
      var saved := Advance(passed);
      var _ := store.SetGameState(roomId, saved);
      var nextPlayerId := saved.players[saved.turnIndex];
      var isBot := bots.IsBot(nextPlayerId);
      if isBot {
        r := bots.PlayBotTurn(this, saved, nextPlayerId);
      } else {
        r := Done;
      }
    }
  }

  /** `GameService`: room set-up, the end of a game, seat hand-over and turn timers. */
  class GameService {
    const store: GameStateManager
    const bots: BotManager
    const timers: TimerService

    constructor (store: GameStateManager, bots: BotManager, timers: TimerService)
      ensures this.store == store && this.bots == bots && this.timers == timers
    {
      this.store, this.bots, this.timers := store, bots, timers;
    }

    /**
     * `endGame`: `winner` is only announced. On success the final scores are every seat's
     * pip sum in the stored room.
     */
    method EndGame(roomId: string, winner: Option<string>) returns (r: Outcome, scores: map<string, int>)
      requires store.Valid()
      modifies store, bots, timers
      ensures store.Valid()
      ensures (WorldOf(store, bots, timers), r) == EndEffect(old(WorldOf(store, bots, timers)), roomId)
      ensures r == Done ==>
                (roomId in old(store.games) &&
                 scores.Keys == (set p | p in old(store.games)[roomId].players) &&
                 forall p | p in scores :: scores[p] == HandScore(Hand(old(store.games)[roomId], p)))
    {
      var loaded := store.GetGameState(roomId);
      if loaded.Err? {
        return Failed(loaded.error), map[];
      }
      var gs := loaded.value;
      timers.ClearTurnTimer(roomId);
      timers.ClearWarningTimer(roomId);
      scores := CalculateFinalScores(gs);
      store.RemoveGameState(roomId);
      UnregisterBots(gs.players);
      r := Done;
    }

    /** The loop of `endGame` that unregisters every seat of the room that is a bot. */
    method UnregisterBots(players: seq<string>)
      modifies bots
      ensures bots.bots == old(bots.bots) - set p | p in players
    {
      var i := 0;
      while i < |players|
        invariant 0 <= i <= |players|
        invariant bots.bots == old(bots.bots) - set p | p in players[..i]
      {
        var playerId := players[i];
        var isBot := bots.IsBot(playerId);
        if isBot {
          bots.RemoveBot(playerId);
        }
        assert players[..i + 1] == players[..i] + [playerId];
        i := i + 1;
      }
      assert players[..i] == players;
    }

    /** `findFirstPlayer`; `pick` stands for `Math.floor(Math.random() * players.length)`. */
    method FindFirstPlayer(gs: GameState, pick: nat) returns (i: int)
      requires if |gs.players| == 0 then pick == 0 else pick < |gs.players|
      ensures ChosenOpener(gs, i, pick)
      ensures |gs.players| > 0 ==> 0 <= i < |gs.players|
    {
      if |gs.players| == 4 {
        var k := 0;
        while k < |gs.players|
          invariant 0 <= k <= |gs.players|
          invariant forall j | 0 <= j < k :: !HoldsDoubleSix(gs, j)
        {
          if Tile(6, 6) in Hand(gs, gs.players[k]) {
            assert HoldsDoubleSix(gs, k);
            return k;
          }
          k := k + 1;
        }
      }
      return pick;
    }

    /**
     * `createGameRoom`: the room is created and dealt, the opener is chosen and stored as
     * the turn index (`currentTurn` keeps its initial empty value), and the room is stored.
     */
    method CreateGameRoom(players: seq<string>, betAmount: int, roomId: string, shuffled: seq<Tile>, now: int, pick: nat)
      returns (gs: GameState)
      requires store.Valid()
      requires if |players| == 0 then pick == 0 else pick < |players|
      modifies store
      ensures store.Valid()
      ensures DealtRoom(gs, roomId, players, betAmount, shuffled, now)
      ensures ChosenOpener(gs, gs.turnIndex, pick)
      ensures store.games == old(store.games)[roomId := gs]
      ensures store.roomOf == old(store.roomOf) + map p | p in players :: roomId
      ensures store.locks == old(store.locks)
    {
      ghost var before := store.games;
      var created := store.CreateGameState(players, betAmount, roomId, shuffled, now);
      var first := FindFirstPlayer(created, pick);
      gs := created.(turnIndex := first);
      OpenerKeepsDeal(created, first, pick, roomId, players, betAmount, shuffled, now);
      var _ := store.SetGameState(roomId, gs);
      StoreAgain(before, roomId, created, gs);
    }

    /**
     * `initializeGameWithBots`: the humans are seated first and then `botCount` bots named
     * `bot_1`, `bot_2`, …; the room is created, and every bot is registered with the
     * requested difficulty.
     */
    method InitializeGameWithBots(humanPlayers: seq<string>, botCount: nat, betAmount: int, botDifficulty: Difficulty,
                                  roomId: string, shuffled: seq<Tile>, now: int, pick: nat)
      returns (gs: GameState)
      requires store.Valid()
      requires if |humanPlayers| + botCount == 0 then pick == 0 else pick < |humanPlayers| + botCount
      modifies store, bots
      ensures store.Valid()
      ensures gs.players == humanPlayers + BotNames(botCount)
      ensures gs.hands.Keys == set p | p in gs.players
      ensures ChosenOpener(gs, gs.turnIndex, pick)
      ensures store.games == old(store.games)[roomId := gs]
      ensures bots.bots == old(bots.bots) + map b | b in BotNames(botCount) :: botDifficulty
    {
      var botIds := BotNames(botCount);
      var allPlayers := humanPlayers + botIds;
      gs := CreateGameRoom(allPlayers, betAmount, roomId, shuffled, now, pick);
      bots.AddBots(botIds, botDifficulty);
    }

    /**
     * `handlePlayerDisconnect`, with the guard corrected to return for a player who is
     * already disconnected (see `DisconnectEffectAsWritten` for the code as written).
     */
    method HandlePlayerDisconnect(actions: PlayerActionService, roomId: string, playerId: string) returns (r: Outcome)
      requires actions.Valid() && actions.game == this
      modifies store, bots, timers
      ensures actions.Valid()
      ensures (WorldOf(store, bots, timers), r) == DisconnectEffect(old(WorldOf(store, bots, timers)), roomId, playerId)
    {
      var loaded := store.GetGameState(roomId);
      if loaded.Err? {
        return Failed(loaded.error);
      }
      var gs := loaded.value;
      if playerId in gs.disconnectedPlayers {
        return Done;
      }
      bots.AddBot(StandIn(playerId), Medium);
      var next := Disconnected(gs, playerId);
      var _ := store.SetGameState(roomId, next);
      if |next.players| == 0 {
        return Done;
      }
      var nextPlayerId := next.players[next.turnIndex];
      var isBot := bots.IsBot(nextPlayerId);
      if isBot {
        r := bots.PlayBotTurn(actions, next, nextPlayerId);
      } else {
        r := Done;
      }
    }

    /** `handlePlayerReconnect`. */
    method HandlePlayerReconnect(roomId: string, playerId: string) returns (r: Outcome)
      requires store.Valid()
      modifies store, bots
      ensures store.Valid()
      ensures (WorldOf(store, bots, timers), r) == ReconnectEffect(old(WorldOf(store, bots, timers)), roomId, playerId)
    {
      var loaded := store.GetGameState(roomId);
      if loaded.Err? {
        return Failed(loaded.error);
      }
      var gs := loaded.value;
      if playerId in gs.disconnectedPlayers {
        bots.RemoveBot(StandIn(playerId));
        var _ := store.SetGameState(roomId, Reconnected(gs, playerId));
      }
      r := Done;
    }

    /**
     * `startTurnTimer`; `now` stands for `Date.now()` and the handles for what
     * `setTimeout` returns.
     */
    method StartTurnTimer(roomId: string, now: int, warningHandle: nat, turnHandle: nat) returns (r: Outcome)
      requires store.Valid()
      modifies store, timers
      ensures store.Valid()
      ensures (WorldOf(store, bots, timers), r) ==
              StartTimerEffect(old(WorldOf(store, bots, timers)), roomId, now, warningHandle, turnHandle)
    {
      var loaded := store.GetGameState(roomId);
      if loaded.Err? {
        return Failed(loaded.error);
      }
      var gs := loaded.value.(turnStartTime := now);
      var _ := store.SetGameState(roomId, gs);
      timers.ClearTurnTimer(roomId);
      timers.ClearWarningTimer(roomId);
      timers.SetWarningTimer(roomId, warningHandle);
      timers.SetTurnTimer(roomId, turnHandle);
      assert (old(timers.turnTimers) - {roomId})[roomId := turnHandle] == old(timers.turnTimers)[roomId := turnHandle];
      assert (old(timers.warningTimers) - {roomId})[roomId := warningHandle] == old(timers.warningTimers)[roomId := warningHandle];
      r := Done;
    }

    /** `handleTurnTimeout`, run on the state the timer captured. */
    method HandleTurnTimeout(actions: PlayerActionService, gs: GameState, now: int, warningHandle: nat, turnHandle: nat)
      returns (r: Outcome)
      requires actions.Valid() && actions.game == this
      requires 0 <= gs.turnIndex < |gs.players|
      modifies store, bots, timers
      ensures actions.Valid()
      ensures (WorldOf(store, bots, timers), r) ==
              TimeoutEffect(old(WorldOf(store, bots, timers)), gs, now, warningHandle, turnHandle)
    {
      var currentPlayerId := gs.players[gs.turnIndex];
      r := actions.PassTurn(gs.roomId, currentPlayerId);
      if r != Done {
        return;
      }
      r := StartTurnTimer(gs.roomId, now, warningHandle, turnHandle);
    }
  }
}
