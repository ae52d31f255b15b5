/**
 * `TimerService` (src/game/time.service.ts): the pending turn and warning timers of each
 * room. A timer is identified by the handle `setTimeout` returned.
 */
module Timers {

  class TimerService {
    var turnTimers: map<string, nat>
    var warningTimers: map<string, nat>

    constructor ()
      ensures turnTimers == map[] && warningTimers == map[]
    {
      turnTimers, warningTimers := map[], map[];
    }

    /** Records the room's turn timer, replacing any earlier entry. */
    method SetTurnTimer(roomId: string, timer: nat)
      modifies this`turnTimers
      ensures turnTimers == old(turnTimers)[roomId := timer] && warningTimers == old(warningTimers)
    {
      turnTimers := turnTimers[roomId := timer];
    }

    /** Cancels and forgets the room's turn timer, if it has one. */
    method ClearTurnTimer(roomId: string)
      modifies this`turnTimers
      ensures turnTimers == old(turnTimers) - {roomId} && warningTimers == old(warningTimers)
    {
      if roomId in turnTimers {
        turnTimers := turnTimers - {roomId};
      }
    }

    /** Records the room's warning timer, replacing any earlier entry. */
    method SetWarningTimer(roomId: string, timer: nat)
      modifies this`warningTimers
      ensures warningTimers == old(warningTimers)[roomId := timer] && turnTimers == old(turnTimers)
    {
      warningTimers := warningTimers[roomId := timer];
    }

    /** Cancels and forgets the room's warning timer, if it has one. */
    method ClearWarningTimer(roomId: string)
      modifies this`warningTimers
      ensures warningTimers == old(warningTimers) - {roomId} && turnTimers == old(turnTimers)
    {
      if roomId in warningTimers {
        warningTimers := warningTimers - {roomId};
      }
    }
  }
}
