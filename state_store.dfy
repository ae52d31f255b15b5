/**
 * `GameStateManager` (src/game/game.state.manager.ts): the key-value store behind the
 * game, seen as three tables (`game:<roomId>`, `player:<id>:room`, `lock:<roomId>`),
 * the dealing done when a room is created, and the room lock.
 */
module StateStore {
  import opened Wrappers
  import opened Errors
  import opened Tiles
  import opened State

  const HandSize: nat := 7

  function Min(a: int, b: int): int {
    if a < b then a else b
  }

  /** The tiles `allTiles.splice(0, 7)` hands to the seat dealt `k`-th from the shuffled `deck`. */
  function DealtSlice(deck: seq<Tile>, k: nat): seq<Tile> {
    deck[Min(7 * k, |deck|)..Min(7 * k + 7, |deck|)]
  }

  /** The multiset of tiles held by the seats, seat by seat. */
  function SeatBag(players: seq<string>, hands: map<string, seq<Tile>>): multiset<Tile> {
    if players == [] then multiset{}
    else SeatBag(players[..|players| - 1], hands)
         + (if players[|players| - 1] in hands then multiset(hands[players[|players| - 1]]) else multiset{})
  }

  /** A tile in the seats' bag is in some seat's hand. */
  lemma {:induction false} SeatBagMember(players: seq<string>, hands: map<string, seq<Tile>>, x: Tile)
    requires x in SeatBag(players, hands)
    ensures exists k | 0 <= k < |players| :: players[k] in hands && x in hands[players[k]]
    decreases |players|
  {
    var n := |players|;
    var last := players[n - 1];
    if last in hands && x in multiset(hands[last]) {
      assert players[n - 1] in hands && x in hands[players[n - 1]];
    } else {
      var init := players[..n - 1];
      SeatBagMember(init, hands, x);
      var k :| 0 <= k < |init| && init[k] in hands && x in hands[init[k]];
      assert players[k] == init[k];
    }
  }

  /** The multiset of the first `n` seven-tile slices of `deck`. */
  function DeckSlices(deck: seq<Tile>, n: nat): multiset<Tile>
    requires 7 * n <= |deck|
  {
    if n == 0 then multiset{} else DeckSlices(deck, n - 1) + multiset(deck[7 * n - 7..7 * n])
  }

  /** The first `n` seven-tile slices are the first `7 * n` tiles of the deck. */
  lemma {:induction false} DeckSlicesPrefix(deck: seq<Tile>, n: nat)
    requires 7 * n <= |deck|
    ensures DeckSlices(deck, n) == multiset(deck[..7 * n])
  {
    if n == 0 {
      assert deck[..0] == [];
    } else {
      var lo, mid := 7 * n - 7, 7 * n;
      assert 7 * (n - 1) == lo;
      DeckSlicesPrefix(deck, n - 1);
      PrefixSplit(deck, lo, mid);
    }
  }

  /** A prefix is the shorter prefix followed by the slice between them. */
  lemma PrefixSplit(deck: seq<Tile>, lo: nat, mid: nat)
    requires lo <= mid <= |deck|
    ensures multiset(deck[..mid]) == multiset(deck[..lo]) + multiset(deck[lo..mid])
  {
    assert deck[..mid] == deck[..lo] + deck[lo..mid];
  }

  /** The first `n` seven-tile slices and the rest of the deck together are the whole deck. */
  lemma DeckSlicesPartition(deck: seq<Tile>, n: nat)
    requires 7 * n <= |deck|
    ensures DeckSlices(deck, n) + multiset(deck[7 * n..]) == multiset(deck)
  {
    DeckSlicesPrefix(deck, n);
    var m := 7 * n;
    assert deck == deck[..m] + deck[m..];
  }

  /** Seats dealt slice by slice hold exactly the dealt slices. */
  lemma {:induction false} SeatBagIsDeckSlices(deck: seq<Tile>, players: seq<string>, hands: map<string, seq<Tile>>)
    requires 7 * |players| <= |deck|
    requires forall j | 0 <= j < |players| :: players[j] in hands && hands[players[j]] == deck[7 * j..7 * j + 7]
    ensures SeatBag(players, hands) == DeckSlices(deck, |players|)
    decreases |players|
  {
    if players != [] {
      var n := |players|;
      var init := players[..n - 1];
      forall j | 0 <= j < |init|
        ensures init[j] in hands && hands[init[j]] == deck[7 * j..7 * j + 7]
      {
        assert init[j] == players[j];
      }
      SeatBagIsDeckSlices(deck, init, hands);
      assert 7 * (n - 1) == 7 * n - 7;
      assert hands[players[n - 1]] == deck[7 * n - 7..7 * n];
    }
  }

  /** The lock table after `SET lock:<key> <token> NX`, and whether the set happened. */
  function TryAcquire(locks: map<string, string>, key: string, token: string): (r: (map<string, string>, bool))
    ensures r.1 <==> key !in locks
    ensures r.1 ==> r.0 == locks[key := token]
    ensures !r.1 ==> r.0 == locks
  {
    if key in locks then (locks, false) else (locks[key := token], true)
  }

  /** The lock table after the compare-and-delete of `releaseLock` with `token`. */
  function Release(locks: map<string, string>, key: string, token: string): (r: map<string, string>)
    ensures key in locks && locks[key] == token ==> r == locks - {key}
    ensures !(key in locks && locks[key] == token) ==> r == locks
  {
    if key in locks && locks[key] == token then locks - {key} else locks
  }

  /** A held lock cannot be acquired again, whatever token the second caller uses. */
  lemma AcquireExcludes(locks: map<string, string>, key: string, t1: string, t2: string)
    requires TryAcquire(locks, key, t1).1
    ensures !TryAcquire(TryAcquire(locks, key, t1).0, key, t2).1
  {
  }

  /** Acquiring a free lock and releasing it with the same token restores the table. */
  lemma AcquireReleaseRoundTrip(locks: map<string, string>, key: string, token: string)
    requires key !in locks
    ensures Release(TryAcquire(locks, key, token).0, key, token) == locks
  {
    assert locks[key := token] - {key} == locks;
  }

  /** A release with another token leaves a held lock in place. */
  lemma ForeignReleaseKeepsLock(locks: map<string, string>, key: string, owner: string, other: string)
    requires owner != other && key !in locks
    ensures Release(TryAcquire(locks, key, owner).0, key, other) == locks[key := owner]
  {
  }

  /** `getGameState`: the stored state, or `CACHE_ERROR` for any failure, a missing room included. */
  function LoadGame(games: map<string, GameState>, roomId: string): (r: Result<GameState>)
    ensures roomId in games ==> r == Ok(games[roomId])
    ensures roomId !in games ==> r == Err(CacheError)
  {
    // the `GAME_NOT_FOUND` thrown inside the `try` is replaced by the `catch`
    var inner: Result<GameState> := if roomId in games then Ok(games[roomId]) else Err(GameNotFound);
    if inner.Err? then Err(CacheError) else inner
  }

  /** The state `createGameState` builds before any tile is dealt. */
  function InitialState(roomId: string, players: seq<string>, betAmount: int, now: int): GameState {
    GameState(
      roomId := roomId,
      players := players,
      hands := map[],
      board := [],
      turnIndex := 0,
      betAmount := betAmount,
      drawPile := [],
      lastAction := LastAction("", PlayAction),
      boardEnds := BoardEnds(NoEnd, NoEnd),
      currentTurn := "",
      turnStartTime := now,
      scores := map[],
      disconnectedPlayers := {},
      moveHistory := [],
      isFirstPlay := true)
  }

  /** Storing a room a second time under the same id leaves only the second record. */
  lemma StoreAgain(games: map<string, GameState>, roomId: string, first: GameState, second: GameState)
    ensures games[roomId := first][roomId := second] == games[roomId := second]
  {
  }

  /**
   * A room as `createGameState` builds it, whatever its turn index: the initial state with
   * every seat's hand dealt from the next 7 tiles of `shuffled`, and the rest of the deck
   * as the draw pile below 4 seats (none at 4).
   */
  predicate DealtRoom(gs: GameState, roomId: string, players: seq<string>, betAmount: int, shuffled: seq<Tile>, now: int) {
    && gs == InitialState(roomId, players, betAmount, now).(hands := gs.hands, drawPile := gs.drawPile, turnIndex := gs.turnIndex)
    && gs.hands.Keys == (set p | p in players)
    && (Distinct(players) ==> forall j | 0 <= j < |players| :: gs.hands[players[j]] == DealtSlice(shuffled, j))
    && gs.drawPile == (if |players| < 4 then shuffled[Min(7 * |players|, |shuffled|)..] else [])
  }

  /**
   * The dealing loop of `createGameState`: seat by seat, `splice(0, 7)` moves the next
   * (up to) 7 tiles of the deck into the seat's hand; the rest of the deck is returned.
   */
  method Deal(players: seq<string>, deck: seq<Tile>) returns (hands: map<string, seq<Tile>>, rest: seq<Tile>)
    ensures hands.Keys == set p | p in players
    ensures rest == deck[Min(7 * |players|, |deck|)..]
    ensures Distinct(players) ==> forall j | 0 <= j < |players| :: hands[players[j]] == DealtSlice(deck, j)
  {
    hands := EmptyHands(players);
    rest := deck;
    for i := 0 to |players|
      invariant hands.Keys == set p | p in players
      invariant rest == deck[Min(7 * i, |deck|)..]
      invariant Distinct(players) ==> forall j | 0 <= j < i :: players[j] in hands && hands[players[j]] == DealtSlice(deck, j)
    {
      hands, rest := DealSeat(players, deck, hands, rest, i);
    }
  }

  /** One pass of the dealing loop: seat `i` takes `splice(0, 7)` of what is left. */
  method DealSeat(players: seq<string>, deck: seq<Tile>, hands: map<string, seq<Tile>>, rest: seq<Tile>, i: nat)
    returns (dealt: map<string, seq<Tile>>, left: seq<Tile>)
    requires i < |players|
    requires hands.Keys == set p | p in players
    requires rest == deck[Min(7 * i, |deck|)..]
    requires Distinct(players) ==> forall j | 0 <= j < i :: players[j] in hands && hands[players[j]] == DealtSlice(deck, j)
    ensures dealt.Keys == set p | p in players
    ensures left == deck[Min(7 * (i + 1), |deck|)..]
    ensures Distinct(players) ==> forall j | 0 <= j < i + 1 :: players[j] in dealt && dealt[players[j]] == DealtSlice(deck, j)
  {
    var k := Min(HandSize, |rest|);
    SpliceStep(deck, i);
    if Distinct(players) {
      DealStep(players, deck, hands, i);
    }
    assert players[i] in hands;
    dealt := hands[players[i] := rest[..k]];
    left := rest[k..];
  }

  /** Dealing seat `i` its slice keeps the slices of the seats dealt before it. */
  lemma DealStep(players: seq<string>, deck: seq<Tile>, hands: map<string, seq<Tile>>, i: nat)
    requires i < |players| && Distinct(players)
    requires forall j | 0 <= j < i :: players[j] in hands && hands[players[j]] == DealtSlice(deck, j)
    ensures var dealt := hands[players[i] := DealtSlice(deck, i)];
            forall j | 0 <= j < i + 1 :: players[j] in dealt && dealt[players[j]] == DealtSlice(deck, j)
  {
    var dealt := hands[players[i] := DealtSlice(deck, i)];
    forall j | 0 <= j < i + 1
      ensures players[j] in dealt && dealt[players[j]] == DealtSlice(deck, j)
    {
      if j < i {
        assert players[j] != players[i];
      }
    }
  }

  /** The first loop of `createGameState`: an empty hand for every seat. */
  method EmptyHands(players: seq<string>) returns (hands: map<string, seq<Tile>>)
    ensures hands.Keys == set p | p in players
  {
    hands := map[];
    for i := 0 to |players|
      invariant hands.Keys == set p | p in players[..i]
    {
      hands := hands[players[i] := []];
      assert players[..i + 1] == players[..i] + [players[i]];
    }
    assert players[..|players|] == players;
  }

  /** `splice(0, 7)` on what is left after `i` seats takes the `i`-th slice and leaves the rest after `i + 1` seats. */
  lemma SpliceStep(deck: seq<Tile>, i: nat)
    ensures var rest := deck[Min(7 * i, |deck|)..];
            var k := Min(HandSize, |rest|);
            rest[..k] == DealtSlice(deck, i) && rest[k..] == deck[Min(7 * (i + 1), |deck|)..]
  {
  }

  /** The mapping loop of `createGameState`: `player:<id>:room` set to the room for every seat. */
  method MapSeats(roomOf: map<string, string>, players: seq<string>, roomId: string) returns (mapped: map<string, string>)
    ensures mapped == roomOf + map p | p in players :: roomId
  {
    mapped := roomOf;
    for i := 0 to |players|
      invariant mapped == roomOf + map p | p in players[..i] :: roomId
    {
      mapped := mapped[players[i] := roomId];
      assert players[..i + 1] == players[..i] + [players[i]];
    }
    assert players[..|players|] == players;
  }

  class GameStateManager {
    /** `game:<roomId>` entries. */
    var games: map<string, GameState>
    /** `player:<playerId>:room` entries. */
    var roomOf: map<string, string>
    /** `lock:<roomId>` entries and the token stored in each. */
    var locks: map<string, string>
    /** `LOCK_VALUE`: one token per manager instance, drawn when it is created. */
    const lockValue: string

    /** Every stored room is filed under its own id and has a usable turn index. */
    ghost predicate Valid()
      reads this
    {
      forall r | r in games :: games[r].roomId == r && WellFormed(games[r])
    }

    constructor (token: string)
      ensures Valid()
      ensures games == map[] && roomOf == map[] && locks == map[] && lockValue == token
    {
      games, roomOf, locks := map[], map[], map[];
      lockValue := token;
    }

    /**
     * `createGameState`: every seat receives the next 7 tiles of the shuffled set, the
     * remainder becomes the draw pile only with fewer than 4 seats, and every seat is
     * mapped to the new room. `roomId` stands for `generateRoomId()` and `shuffled` for
     * the result of `shuffleArray(generateAllTiles())`; `now` is `Date.now()`.
     */
    method CreateGameState(players: seq<string>, betAmount: int, roomId: string, shuffled: seq<Tile>, now: int)
      returns (gs: GameState)
      requires Valid()
      modifies this
      ensures Valid()
      ensures DealtRoom(gs, roomId, players, betAmount, shuffled, now) && gs.turnIndex == 0
      ensures games == old(games)[roomId := gs]
      ensures roomOf == old(roomOf) + map p | p in players :: roomId
      ensures locks == old(locks)
    {
      gs := InitialState(roomId, players, betAmount, now);

      var hands, allTiles := Deal(players, shuffled);
      gs := gs.(hands := hands);

      if |players| < 4 {
        gs := gs.(drawPile := allTiles);
      }

      roomOf := MapSeats(roomOf, players, roomId);

      games := games[roomId := gs];
    }

    /** `setGameState`: stores the state under the room and returns it. */
    method SetGameState(roomId: string, updatedState: GameState) returns (stored: GameState)
      requires Valid()
      requires updatedState.roomId == roomId && WellFormed(updatedState)
      modifies this`games
      ensures Valid()
      ensures stored == updatedState
      ensures games == old(games)[roomId := updatedState]
      ensures roomOf == old(roomOf) && locks == old(locks)
    {
      games := games[roomId := updatedState];
      stored := updatedState;
    }

    method GetGameState(roomId: string) returns (r: Result<GameState>)
      ensures r == LoadGame(games, roomId)
    {
      if roomId in games {
        r := Ok(games[roomId]);
      } else {
        r := Err(GameNotFound);
      }
      if r.Err? {
        r := Err(CacheError);
      }
    }

    method GetRoomIdByPlayerId(playerId: string) returns (roomId: Option<string>)
      ensures roomId.Some? <==> playerId in roomOf
      ensures roomId.Some? ==> roomId.value == roomOf[playerId]
    {
      roomId := if playerId in roomOf then Some(roomOf[playerId]) else None;
    }

    method RemoveGameState(roomId: string)
      requires Valid()
      modifies this`games
      ensures Valid()
      ensures games == old(games) - {roomId}
      ensures roomOf == old(roomOf) && locks == old(locks)
    {
      games := games - {roomId};
    }

    /** `removePlayerRoomMapping`: deletes the listed seats' room entries and no others. */
    method RemovePlayerRoomMapping(playerIds: seq<string>)
      modifies this`roomOf
      ensures roomOf == old(roomOf) - set p | p in playerIds
      ensures games == old(games) && locks == old(locks)
    {
      for i := 0 to |playerIds|
        invariant roomOf == old(roomOf) - set p | p in playerIds[..i]
      {
        roomOf := roomOf - {playerIds[i]};
        assert playerIds[..i + 1] == playerIds[..i] + [playerIds[i]];
      }
      assert playerIds[..|playerIds|] == playerIds;
    }

    /** `acquireLock`: `SET lock:<key> LOCK_VALUE NX`; succeeds exactly when no lock is stored. */
    method AcquireLock(key: string) returns (acquired: bool)
      modifies this`locks
      ensures acquired <==> key !in old(locks)
      ensures (locks, acquired) == TryAcquire(old(locks), key, lockValue)
      ensures games == old(games) && roomOf == old(roomOf)
    {
      var r := TryAcquire(locks, key, lockValue);
      locks, acquired := r.0, r.1;
    }

    /** `releaseLock`: deletes the lock only when it holds this manager's `LOCK_VALUE`. */
    method ReleaseLock(key: string)
      modifies this`locks
      ensures locks == Release(old(locks), key, lockValue)
      ensures games == old(games) && roomOf == old(roomOf)
    {
      if key in locks && locks[key] == lockValue {
        locks := locks - {key};
      }
    }
  }

  /**
   * Dealing a 28-tile deck to at most 4 distinct seats gives every seat a full hand of 7,
   * and the hands together with the draw pile are the deck.
   */
  lemma DealConservesDeck(players: seq<string>, deck: seq<Tile>, gs: GameState)
    requires |deck| == 28
    requires Distinct(players) && |players| <= 4
    requires forall j | 0 <= j < |players| :: players[j] in gs.hands && gs.hands[players[j]] == DealtSlice(deck, j)
    requires gs.drawPile == if |players| < 4 then deck[Min(7 * |players|, |deck|)..] else []
    ensures forall j | 0 <= j < |players| :: |gs.hands[players[j]]| == HandSize
    ensures |players| < 4 ==> 7 * |players| + |gs.drawPile| == 28
    ensures |players| < 4 ==> SeatBag(players, gs.hands) + multiset(gs.drawPile) == multiset(deck)
    ensures |players| == 4 ==> gs.drawPile == [] && SeatBag(players, gs.hands) == multiset(deck)
  {
    forall j | 0 <= j < |players|
      ensures gs.hands[players[j]] == deck[7 * j..7 * j + 7]
    {
    }
    SeatBagIsDeckSlices(deck, players, gs.hands);
    DeckSlicesPartition(deck, |players|);
    if |players| == 4 {
      assert deck[28..] == [];
    }
  }

  /** When the deck is a shuffle of the set, the seats and the pile hold the 28 tiles exactly once. */
  lemma DealtStateConservesTiles(players: seq<string>, shuffled: seq<Tile>, gs: GameState)
    requires multiset(shuffled) == multiset(AllTiles())
    requires Distinct(players) && |players| <= 4
    requires forall j | 0 <= j < |players| :: players[j] in gs.hands && gs.hands[players[j]] == DealtSlice(shuffled, j)
    requires gs.drawPile == if |players| < 4 then shuffled[Min(7 * |players|, |shuffled|)..] else []
    ensures |players| < 4 ==> SeatBag(players, gs.hands) + multiset(gs.drawPile) == multiset(AllTiles())
    ensures |players| == 4 ==> gs.drawPile == [] && SeatBag(players, gs.hands) == multiset(AllTiles())
  {
    AllTilesCount();
    assert |shuffled| == |multiset(shuffled)| == 28;
    DealConservesDeck(players, shuffled, gs);
  }
}
