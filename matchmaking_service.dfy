/**
 * `MatchmakingService` (src/matchmaking/matchmaking.service.ts): the set of players
 * currently in matchmaking and the jobs it adds to the `matchmaking` queue.
 */
module Matchmaking {
  import opened Wrappers
  import opened Bots

  /** The payload of a queue job; a field its producer does not set is `None` (`undefined`). */
  datatype JobData = JobData(
    playerId: string,
    betAmount: int,
    minPlayers: Option<int>,
    botCount: Option<int>,
    kind: string,
    botDifficulty: Option<Difficulty>)

  /** A queued job: its name, its payload and its delay in milliseconds. */
  datatype Job = Job(name: string, data: JobData, delay: int)

  const HandleMatchmaking: string := "handle-matchmaking"
  const CreateGameWithBots: string := "create-game-with-bots"

  datatype MatchmakingError = AlreadyInMatchmaking | NotInMatchmaking

  /** Completion of a service call, or the `Error` it throws. */
  datatype Status = Success | Failure(error: MatchmakingError)

  /**
   * The job `addPlayerToQueue` enqueues: a bot request carries `botCount = minPlayers`
   * and the kind `DEMO`; a human request forces `minPlayers` to 2.
   */
  function QueuedJob(playerId: string, betAmount: int, delay: int, minPlayers: int, isBot: bool,
                     kind: string, botDifficulty: Difficulty): Job
  {
    if isBot then
      Job(CreateGameWithBots, JobData(playerId, betAmount, None, Some(minPlayers), "DEMO", Some(botDifficulty)), delay)
    else
      Job(HandleMatchmaking, JobData(playerId, betAmount, Some(2), None, kind, None), delay)
  }

  class MatchmakingService {
    /** `activePlayers`. */
    var activePlayers: set<string>
    /** The jobs added to the `matchmaking` queue, oldest first. */
    var queue: seq<Job>

    /** A player counted as in matchmaking has a job in the queue. */
    ghost predicate Valid()
      reads this
    {
      forall p | p in activePlayers :: exists i | 0 <= i < |queue| :: queue[i].data.playerId == p
    }

    constructor ()
      ensures Valid()
      ensures activePlayers == {} && queue == []
    {
      activePlayers, queue := {}, [];
    }

    /**
     * `addPlayerToQueue`. An active player is refused. Otherwise the player is marked
     * active and the job enqueued; when the queue refuses the job (`queueAccepts` false)
     * the mark is taken back and the error is swallowed.
     */
    method AddPlayerToQueue(playerId: string, betAmount: int, delay: int, minPlayers: int, isBot: bool,
                            kind: string, botDifficulty: Difficulty, queueAccepts: bool) returns (s: Status)
      requires Valid()
      modifies this
      ensures Valid()
      ensures playerId in old(activePlayers) ==>
                s == Failure(AlreadyInMatchmaking) && activePlayers == old(activePlayers) && queue == old(queue)
      ensures playerId !in old(activePlayers) && queueAccepts ==>
                s == Success && activePlayers == old(activePlayers) + {playerId} &&
                queue == old(queue) + [QueuedJob(playerId, betAmount, delay, minPlayers, isBot, kind, botDifficulty)]
      ensures playerId !in old(activePlayers) && !queueAccepts ==>
                s == Success && activePlayers == old(activePlayers) && queue == old(queue)
    {
      if playerId in activePlayers {
        return Failure(AlreadyInMatchmaking);
      }
      activePlayers := activePlayers + {playerId};
      if queueAccepts {
        var before := queue;
        queue := queue + [QueuedJob(playerId, betAmount, delay, minPlayers, isBot, kind, botDifficulty)];
        forall p | p in activePlayers
          ensures exists i | 0 <= i < |queue| :: queue[i].data.playerId == p
        {
          if p == playerId {
            assert queue[|queue| - 1].data.playerId == p;
          } else {
            var i :| 0 <= i < |before| && before[i].data.playerId == p;
            assert queue[i] == before[i];
          }
        }
      } else {
        activePlayers := activePlayers - {playerId};
      }
      s := Success;
    }

    /** `removePlayerFromQueue`: an active player is unmarked; any other is refused. */
    method RemovePlayerFromQueue(playerId: string) returns (s: Status)
      requires Valid()
      modifies this`activePlayers
      ensures Valid()
      ensures s == Success <==> playerId in old(activePlayers)
      ensures s != Success ==> s == Failure(NotInMatchmaking)
      ensures activePlayers == old(activePlayers) - {playerId}
    {
      if playerId in activePlayers {
        ghost var before := activePlayers;
        activePlayers := activePlayers - {playerId};
        forall p | p in activePlayers
          ensures exists i | 0 <= i < |queue| :: queue[i].data.playerId == p
        {
          assert p in before;
          assert p in old(activePlayers);
        }
        s := Success;
      } else {
        s := Failure(NotInMatchmaking);
      }
    }

    /** `handlePlayerDisconnect`: unmarks an active player; otherwise nothing happens. */
    method HandlePlayerDisconnect(playerId: string)
      requires Valid()
      modifies this`activePlayers
      ensures Valid()
      ensures activePlayers == old(activePlayers) - {playerId}
    {
      if playerId in activePlayers {
        var _ := RemovePlayerFromQueue(playerId);
      }
    }
  }
}
