/**
 * `MatchmakingProcessor` (src/matchmaking/matchmaking.processor.ts): the worker that
 * consumes the `matchmaking` queue, keeps the waiting list, groups it by bet and turns a
 * group into a room.
 */
module MatchmakingWorker {
  import opened Wrappers
  import opened Tiles
  import opened State
  import opened StateStore
  import opened Bots
  import opened Game
  import opened Services
  import opened Matchmaking

  /** A waiting-list entry. */
  datatype Player = Player(playerId: string, betAmount: int, minPlayers: Option<int>, kind: string)

  /** The entry a `handle-matchmaking` job puts on the waiting list. */
  function PlayerOf(data: JobData): Player {
    Player(data.playerId, data.betAmount, data.minPlayers, data.kind)
  }

  /** A human request comes back from the queue as a waiting entry with `minPlayers` 2. */
  lemma HumanRequestBecomesWaitingEntry(playerId: string, betAmount: int, delay: int, minPlayers: int,
                                        kind: string, botDifficulty: Difficulty)
    ensures var job := QueuedJob(playerId, betAmount, delay, minPlayers, false, kind, botDifficulty);
            job.name == HandleMatchmaking && PlayerOf(job.data) == Player(playerId, betAmount, Some(2), kind)
  {
  }

  // ---------------------------------------------------------------------------
  // Grouping (`groupByBetAmount`, `groupByMinPlayers`)

  /**
   * The `reduce` of both groupings: each player, in order, is pushed onto the group of its
   * key, which is created when missing.
   */
  function GroupBy<K(==)>(players: seq<Player>, key: Player -> K): map<K, seq<Player>> {
    if players == [] then map[]
    else
      var groups := GroupBy(players[..|players| - 1], key);
      var p := players[|players| - 1];
      groups[key(p) := (if key(p) in groups then groups[key(p)] else []) + [p]]
  }

  /** The players whose key is `k`, in their order. */
  function Having<K(==)>(players: seq<Player>, key: Player -> K, k: K): seq<Player> {
    if players == [] then []
    else Having(players[..|players| - 1], key, k) + (if key(players[|players| - 1]) == k then [players[|players| - 1]] else [])
  }

  /**
   * The groups are keyed by exactly the keys that occur, and each group is the players
   * with that key in their original order.
   */
  lemma {:induction false} GroupByIsPartition<K>(players: seq<Player>, key: Player -> K)
    ensures forall i | 0 <= i < |players| :: key(players[i]) in GroupBy(players, key)
    ensures forall k | k in GroupBy(players, key) :: exists i | 0 <= i < |players| :: key(players[i]) == k
    ensures forall k | k in GroupBy(players, key) :: GroupBy(players, key)[k] == Having(players, key, k)
    decreases |players|
  {
    if players != [] {
      var init := players[..|players| - 1];
      var p := players[|players| - 1];
      GroupByIsPartition(init, key);
      var groups := GroupBy(init, key);
      forall i | 0 <= i < |players|
        ensures key(players[i]) in GroupBy(players, key)
      {
        if i < |init| {
          assert players[i] == init[i];
        }
      }
      forall k | k in GroupBy(players, key)
        ensures exists i | 0 <= i < |players| :: key(players[i]) == k
      {
        if k in groups {
          var i :| 0 <= i < |init| && key(init[i]) == k;
          assert players[i] == init[i];
        } else {
          assert key(players[|players| - 1]) == k;
        }
      }
      if key(p) !in groups {
        forall j | 0 <= j < |init|
          ensures key(init[j]) != key(p)
        {
          assert key(init[j]) in groups;
        }
        HavingAbsent(init, key, key(p));
      }
    }
  }

  /** No player with key `k` means an empty selection. */
  lemma {:induction false} HavingAbsent<K>(players: seq<Player>, key: Player -> K, k: K)
    requires forall i | 0 <= i < |players| :: key(players[i]) != k
    ensures Having(players, key, k) == []
    decreases |players|
  {
    if players != [] {
      HavingAbsent(players[..|players| - 1], key, k);
    }
  }

  /** A selection holds exactly the players with that key. */
  lemma {:induction false} HavingMembers<K>(players: seq<Player>, key: Player -> K, k: K)
    ensures forall x :: x in Having(players, key, k) <==> x in players && key(x) == k
    decreases |players|
  {
    if players != [] {
      var init := players[..|players| - 1];
      HavingMembers(init, key, k);
      assert players == init + [players[|players| - 1]];
    }
  }

  /** `groupByBetAmount`. */
  function GroupByBetAmount(players: seq<Player>): map<int, seq<Player>> {
    GroupBy(players, (p: Player) => p.betAmount)
  }

  /** `groupByMinPlayers`. */
  function GroupByMinPlayers(players: seq<Player>): map<Option<int>, seq<Player>> {
    GroupBy(players, (p: Player) => p.minPlayers)
  }

  /** Every waiting player sits in exactly the group of its bet, and every group is non-empty. */
  lemma GroupByBetAmountSpec(players: seq<Player>)
    ensures forall i | 0 <= i < |players| :: players[i].betAmount in GroupByBetAmount(players)
    ensures forall b, x | b in GroupByBetAmount(players) :: x in GroupByBetAmount(players)[b] <==> x in players && x.betAmount == b
    ensures forall b | b in GroupByBetAmount(players) :: GroupByBetAmount(players)[b] != []
  {
    var key := (p: Player) => p.betAmount;
    GroupByIsPartition(players, key);
    forall b | b in GroupByBetAmount(players)
      ensures forall x :: x in GroupByBetAmount(players)[b] <==> x in players && x.betAmount == b
      ensures GroupByBetAmount(players)[b] != []
    {
      HavingMembers(players, key, b);
      var i :| 0 <= i < |players| && key(players[i]) == b;
      assert players[i] in GroupByBetAmount(players)[b];
    }
  }

  /** Every waiting player sits in exactly the group of its `minPlayers`. */
  lemma GroupByMinPlayersSpec(players: seq<Player>)
    ensures forall i | 0 <= i < |players| :: players[i].minPlayers in GroupByMinPlayers(players)
    ensures forall m, x | m in GroupByMinPlayers(players) :: x in GroupByMinPlayers(players)[m] <==> x in players && x.minPlayers == m
  {
    var key := (p: Player) => p.minPlayers;
    GroupByIsPartition(players, key);
    forall m | m in GroupByMinPlayers(players)
      ensures forall x :: x in GroupByMinPlayers(players)[m] <==> x in players && x.minPlayers == m
    {
      HavingMembers(players, key, m);
    }
  }

  // ---------------------------------------------------------------------------
  // Removal (`removePlayerState`)

  /** `waitingPlayers.filter((player) => player.playerId !== playerId)`. */
  function Without(waiting: seq<Player>, playerId: string): seq<Player> {
    if waiting == [] then []
    else (if waiting[0].playerId == playerId then [] else [waiting[0]]) + Without(waiting[1..], playerId)
  }

  /** The entries of every listed id removed, one id after the other. */
  function WithoutAll(waiting: seq<Player>, playerIds: seq<string>): seq<Player> {
    if playerIds == [] then waiting
    else Without(WithoutAll(waiting, playerIds[..|playerIds| - 1]), playerIds[|playerIds| - 1])
  }

  /** Removal keeps exactly the entries of other players, in order, and only shortens the list. */
  lemma {:induction false} WithoutSpec(waiting: seq<Player>, playerId: string)
    ensures forall x :: x in Without(waiting, playerId) <==> x in waiting && x.playerId != playerId
    ensures |Without(waiting, playerId)| <= |waiting|
    ensures (forall i | 0 <= i < |waiting| :: waiting[i].playerId != playerId) ==> Without(waiting, playerId) == waiting
    decreases |waiting|
  {
    if waiting != [] {
      WithoutSpec(waiting[1..], playerId);
      assert waiting == [waiting[0]] + waiting[1..];
      if forall i | 0 <= i < |waiting| :: waiting[i].playerId != playerId {
        assert forall i | 0 <= i < |waiting[1..]| :: waiting[1..][i].playerId != playerId by {
          forall i | 0 <= i < |waiting[1..]|
            ensures waiting[1..][i].playerId != playerId
          {
            assert waiting[1..][i] == waiting[i + 1];
          }
        }
      }
    }
  }

  /** After the removals no listed id is left, and every other entry is kept. */
  lemma {:induction false} WithoutAllSpec(waiting: seq<Player>, playerIds: seq<string>)
    ensures forall x :: x in WithoutAll(waiting, playerIds) <==> x in waiting && x.playerId !in playerIds
    decreases |playerIds|
  {
    if playerIds != [] {
      var init := playerIds[..|playerIds| - 1];
      WithoutAllSpec(waiting, init);
      WithoutSpec(WithoutAll(waiting, init), playerIds[|playerIds| - 1]);
      assert playerIds == init + [playerIds[|playerIds| - 1]];
    }
  }

  // ---------------------------------------------------------------------------
  // Match selection (`checkForMatch` and its timeout)

  /** `currentPlayers.splice(0, Math.min(currentPlayers.length, 4))`: the first players, at most 4. */
  function Selected(group: seq<Player>): (matched: seq<Player>)
    ensures |matched| == Min(|group|, 4) && matched == group[..|matched|]
    ensures |group| >= 2 ==> 2 <= |matched| <= 4
  {
    group[..Min(|group|, 4)]
  }

  /** The ids of the matched players, in order. */
  function Ids(players: seq<Player>): seq<string> {
    seq(|players|, i requires 0 <= i < |players| => players[i].playerId)
  }

  /** `for (const betAmount in betGroups)` enumerates the bets in ascending order. */
  predicate IsKeyOrder(order: seq<int>, groups: map<int, seq<Player>>) {
    (forall i | 0 <= i < |order| :: order[i] in groups) && (forall b | b in groups :: b in order) &&
    (forall i, j | 0 <= i < j < |order| :: order[i] < order[j])
  }

  /**
   * The group the single `matchmakingTimeout` is left holding after the bets in `order`
   * have been visited: each group of at least 2 clears the previous timeout and sets its
   * own, so the last such group wins; with none, the earlier timeout stays.
   */
  function LastQualifying(groups: map<int, seq<Player>>, order: seq<int>, prior: Option<seq<Player>>): Option<seq<Player>>
    requires forall i | 0 <= i < |order| :: order[i] in groups
  {
    if order == [] then prior
    else if |groups[order[|order| - 1]]| >= 2 then Some(groups[order[|order| - 1]])
    else LastQualifying(groups, order[..|order| - 1], prior)
  }

  /**
   * The pending group is the earlier one exactly when no group has 2 players; otherwise
   * it is the group of the highest-placed bet with at least 2 players, and every other
   * qualifying bet loses its timeout.
   */
  lemma {:induction false} LastQualifyingSpec(groups: map<int, seq<Player>>, order: seq<int>, prior: Option<seq<Player>>)
    requires forall i | 0 <= i < |order| :: order[i] in groups
    ensures (forall i | 0 <= i < |order| :: |groups[order[i]]| < 2) ==> LastQualifying(groups, order, prior) == prior
    ensures (exists i | 0 <= i < |order| :: |groups[order[i]]| >= 2) ==>
              exists j | 0 <= j < |order| ::
                |groups[order[j]]| >= 2 && LastQualifying(groups, order, prior) == Some(groups[order[j]]) &&
                forall m | j < m < |order| :: |groups[order[m]]| < 2
    decreases |order|
  {
    if forall i | 0 <= i < |order| :: |groups[order[i]]| < 2 {
      LastQualifyingNone(groups, order, prior);
    } else {
      var i :| 0 <= i < |order| && |groups[order[i]]| >= 2;
      LastQualifyingSome(groups, order, prior, i);
    }
  }

  /** With no bet group of at least 2 players, the earlier pending group stays. */
  lemma {:induction false} LastQualifyingNone(groups: map<int, seq<Player>>, order: seq<int>, prior: Option<seq<Player>>)
    requires forall i | 0 <= i < |order| :: order[i] in groups
    requires forall i | 0 <= i < |order| :: |groups[order[i]]| < 2
    ensures LastQualifying(groups, order, prior) == prior
    decreases |order|
  {
    if order != [] {
      var init := order[..|order| - 1];
      assert forall i | 0 <= i < |init| :: init[i] == order[i];
      LastQualifyingNone(groups, init, prior);
    }
  }

  /**
   * With a bet group of at least 2 players at position `i`, the pending group is that of
   * the last such position.
   */
  lemma {:induction false} LastQualifyingSome(groups: map<int, seq<Player>>, order: seq<int>, prior: Option<seq<Player>>, i: int)
    requires forall k | 0 <= k < |order| :: order[k] in groups
    requires 0 <= i < |order| && |groups[order[i]]| >= 2
    ensures exists j | 0 <= j < |order| ::
              |groups[order[j]]| >= 2 && LastQualifying(groups, order, prior) == Some(groups[order[j]]) &&
              forall m | j < m < |order| :: |groups[order[m]]| < 2
    decreases |order|
  {
    var n := |order|;
    if |groups[order[n - 1]]| < 2 {
      var init := order[..n - 1];
      assert forall k | 0 <= k < |init| :: init[k] == order[k];
      LastQualifyingSome(groups, init, prior, i);
      var j :| 0 <= j < |init| && |groups[init[j]]| >= 2 && LastQualifying(groups, init, prior) == Some(groups[init[j]]) &&
               forall m | j < m < |init| :: |groups[init[m]]| < 2;
      assert LastQualifying(groups, order, prior) == LastQualifying(groups, init, prior);
      forall m | j < m < n
        ensures |groups[order[m]]| < 2
      {
        if m < n - 1 {
          assert order[m] == init[m];
        }
      }
      assert |groups[order[j]]| >= 2 && LastQualifying(groups, order, prior) == Some(groups[order[j]]);
    } else {
      assert LastQualifying(groups, order, prior) == Some(groups[order[n - 1]]);
    }
  }

  // ---------------------------------------------------------------------------
  // Bot games (`handleCreateGameWithBots`)

  /**
   * The bot count `process` hands to `handleCreateGameWithBots` as written: it reads the
   * payload's `minPlayers`, which a bot request never sets, so the parameter's default 3
   * applies.
   */
  function BotCountAsWritten(data: JobData): nat {
    if data.minPlayers.Some? && data.minPlayers.value >= 0 then data.minPlayers.value else 3
  }

  /** The bot count the request carries (`botCount`), a missing or negative one read as before. */
  function BotCount(data: JobData): nat {
    if data.botCount.Some? && data.botCount.value >= 0 then data.botCount.value else 3
  }

  /** The difficulty handed on; a missing one takes `initializeGameWithBots`'s default. */
  function DifficultyOf(data: JobData): Difficulty {
    if data.botDifficulty.Some? then data.botDifficulty.value else Medium
  }

  /** As written, a request for one bot produces a room with three bots. */
  lemma BotCountAsWrittenExample()
    ensures BotCountAsWritten(QueuedJob("p", 10, 500, 1, true, "REAL", Hard).data) == 3
  {
  }

  /** With the count read from `botCount`, a bot request gets the number of bots it asked for. */
  lemma BotRequestRoundTrip(playerId: string, betAmount: int, delay: int, minPlayers: nat, kind: string, botDifficulty: Difficulty)
    ensures var job := QueuedJob(playerId, betAmount, delay, minPlayers, true, kind, botDifficulty);
            job.name == CreateGameWithBots && BotCount(job.data) == minPlayers && DifficultyOf(job.data) == botDifficulty
  {
  }

  // ---------------------------------------------------------------------------
  // The worker

  class MatchmakingProcessor {
    const game: GameService
    /** `waitingPlayers`. */
    var waitingPlayers: seq<Player>
    /** The group the pending `matchmakingTimeout` will try to match, if one is pending. */
    var pending: Option<seq<Player>>

    constructor (game: GameService)
      ensures this.game == game && waitingPlayers == [] && pending == None
    {
      this.game := game;
      waitingPlayers, pending := [], None;
    }

    /** `removePlayerState`. */
    method RemovePlayerState(playerId: string)
      modifies this`waitingPlayers
      ensures waitingPlayers == Without(old(waitingPlayers), playerId)
    {
      waitingPlayers := Without(waitingPlayers, playerId);
    }

    /**
     * `checkForMatch`, with `order` the order in which `for…in` visits the bets (ascending
     * for integer bets).
     */
    method CheckForMatch(order: seq<int>)
      requires IsKeyOrder(order, GroupByBetAmount(waitingPlayers))
      modifies this`pending
      ensures pending == LastQualifying(GroupByBetAmount(waitingPlayers), order, old(pending))
    {
      var betGroups := GroupByBetAmount(waitingPlayers);
      for i := 0 to |order|
        invariant pending == LastQualifying(betGroups, order[..i], old(pending))
      {
        assert order[..i + 1][..i] == order[..i];
        if |betGroups[order[i]]| >= 2 {
          pending := Some(betGroups[order[i]]);
        }
      }
      assert order[..|order|] == order;
    }

    /**
     * `createMatch`: a room is created for the players' ids at the first player's bet,
     * and every matched player's entries leave the waiting list.
     */
    method CreateMatch(players: seq<Player>, roomId: string, shuffled: seq<Tile>, now: int, pick: nat) returns (gs: GameState)
      requires game.store.Valid()
      requires 0 < |players| && pick < |players|
      modifies this`waitingPlayers, game.store
      ensures game.store.Valid()
      ensures gs.players == Ids(players) && gs.betAmount == players[0].betAmount && gs.roomId == roomId
      ensures game.store.games == old(game.store.games)[roomId := gs]
      ensures waitingPlayers == WithoutAll(old(waitingPlayers), Ids(players))
    {
      gs := game.CreateGameRoom(Ids(players), players[0].betAmount, roomId, shuffled, now, pick);
      RemoveMatched(Ids(players));
    }

    /** `players.forEach((player) => this.removePlayerState(player.playerId))`. */
    method RemoveMatched(playerIds: seq<string>)
      modifies this`waitingPlayers
      ensures waitingPlayers == WithoutAll(old(waitingPlayers), playerIds)
    {
      for i := 0 to |playerIds|
        invariant waitingPlayers == WithoutAll(old(waitingPlayers), playerIds[..i])
      {
        RemovePlayerState(playerIds[i]);
        assert playerIds[..i + 1][..i] == playerIds[..i];
      }
      assert playerIds[..|playerIds|] == playerIds;
    }

    /**
     * The `matchmakingTimeout` firing: its group, if it still has 2 players, loses its
     * first (at most 4) players to a new room.
     */
    method FireMatchTimeout(roomId: string, shuffled: seq<Tile>, now: int, pick: nat)
      requires game.store.Valid()
      requires pending.Some? ==> pick < Min(|pending.value|, 4)
      modifies this, game.store
      ensures game.store.Valid()
      ensures pending == None
      ensures old(pending).Some? && |old(pending).value| >= 2 ==>
                var matched := Selected(old(pending).value);
                roomId in game.store.games && game.store.games[roomId].players == Ids(matched) &&
                waitingPlayers == WithoutAll(old(waitingPlayers), Ids(matched))
      ensures old(pending).None? || |old(pending).value| < 2 ==>
                waitingPlayers == old(waitingPlayers) && game.store.games == old(game.store.games)
    {
      if pending.Some? && |pending.value| >= 2 {
        var matched := Selected(pending.value);
        var _ := CreateMatch(matched, roomId, shuffled, now, pick);
      }
      pending := None;
    }

    /**
     * `handleCreateGameWithBots`: a room with the player and `botCount` bots. `roomId`,
     * `shuffled`, `now` and `pick` stand for the room's random inputs.
     */
    method HandleCreateGameWithBots(playerId: string, botCount: nat, betAmount: int, botDifficulty: Difficulty,
                                    roomId: string, shuffled: seq<Tile>, now: int, pick: nat) returns (gs: GameState)
      requires game.store.Valid()
      requires pick < 1 + botCount
      modifies game.store, game.bots
      ensures game.store.Valid()
      ensures gs.players == [playerId] + BotNames(botCount)
      ensures game.store.games == old(game.store.games)[roomId := gs]
      ensures game.bots.bots == old(game.bots.bots) + map b | b in BotNames(botCount) :: botDifficulty
    {
      gs := game.InitializeGameWithBots([playerId], botCount, betAmount, botDifficulty, roomId, shuffled, now, pick);
    }

    /**
     * `process`: a `handle-matchmaking` job appends one waiting entry and checks for a
     * match; a `create-game-with-bots` job creates a bot room with the count its payload
     * asked for; any other job is ignored.
     */
    method Process(job: Job, order: seq<int>, roomId: string, shuffled: seq<Tile>, now: int, pick: nat)
      requires game.store.Valid()
      requires job.name == HandleMatchmaking ==> IsKeyOrder(order, GroupByBetAmount(waitingPlayers + [PlayerOf(job.data)]))
      requires job.name == CreateGameWithBots ==> pick < 1 + BotCount(job.data)
      modifies this, game.store, game.bots
      ensures game.store.Valid()
      ensures job.name == HandleMatchmaking ==>
                waitingPlayers == old(waitingPlayers) + [PlayerOf(job.data)] &&
                pending == LastQualifying(GroupByBetAmount(waitingPlayers), order, old(pending))
      ensures job.name == CreateGameWithBots ==>
                waitingPlayers == old(waitingPlayers) && roomId in game.store.games &&
                game.store.games[roomId].players == [job.data.playerId] + BotNames(BotCount(job.data))
      ensures job.name != HandleMatchmaking && job.name != CreateGameWithBots ==>
                waitingPlayers == old(waitingPlayers) && game.store.games == old(game.store.games)
    {
      if job.name == HandleMatchmaking {
        waitingPlayers := waitingPlayers + [PlayerOf(job.data)];
        CheckForMatch(order);
      } else if job.name == CreateGameWithBots {
        var _ := HandleCreateGameWithBots(job.data.playerId, BotCount(job.data), job.data.betAmount, DifficultyOf(job.data),
                                          roomId, shuffled, now, pick);
      }
    }
  }
}
