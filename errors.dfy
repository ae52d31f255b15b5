/**
 * The error codes a `GameError` carries (src/game/errors/game-error.ts) and the
 * result shapes of the services that throw them.
 */
module Errors {
  datatype GameError =
    | LockNotAcquired
    | NotYourTurn
    | TileNotInHand
    | InvalidMove
    | InvalidBoardState
    | CannotDrawTilesIn4PlayerGame
    | MustPlayTile
    | GameNotFound
    | CacheError

  /** A value, or the `GameError` thrown instead of returning it. */
  datatype Result<+T> = Ok(value: T) | Err(error: GameError)

  /** Completion of an `async` method that returns nothing, or the error it throws. */
  datatype Outcome = Done | Failed(error: GameError)
}
