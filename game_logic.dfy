/**
 * The rules engine `GameLogicService` (src/game/game.logic.service.ts): move legality,
 * "can this seat act", hand membership, blocked-game and winner detection, scores.
 */
module GameLogic {
  import opened Wrappers
  import opened Errors
  import opened Tiles
  import opened State

  /**
   * `isValidMove`: any tile is accepted on an empty board; otherwise the tile must
   * share a pip with the end it is played at. A non-empty board with a -1 end is
   * reported as corrupt.
   */
  function IsValidMove(gs: GameState, tile: Tile, side: Side): (r: Result<bool>)
    ensures gs.board == [] ==> r == Ok(true)
    ensures r.Err? <==> gs.board != [] && (gs.boardEnds.left == NoEnd || gs.boardEnds.right == NoEnd)
    ensures r.Err? ==> r.error == InvalidBoardState
    ensures gs.board != [] && r.Ok? ==>
              (r.value <==> tile.left == EndAt(gs.boardEnds, side) || tile.right == EndAt(gs.boardEnds, side))
  {
    if |gs.board| == 0 then Ok(true)
    else
      var boardLeft, boardRight := gs.boardEnds.left, gs.boardEnds.right;
      if boardLeft == NoEnd || boardRight == NoEnd then Err(InvalidBoardState)
      else if side == Left then Ok(tile.left == boardLeft || tile.right == boardLeft)
      else Ok(tile.left == boardRight || tile.right == boardRight)
  }

  /** Legality does not depend on the orientation the tile is offered in. */
  lemma IsValidMoveFlip(gs: GameState, tile: Tile, side: Side)
    ensures IsValidMove(gs, Flip(tile), side) == IsValidMove(gs, tile, side)
  {
  }

  /** Some tile of `hand` shares a pip with the left or the right end. */
  predicate AnyTouches(hand: seq<Tile>, left: int, right: int) {
    exists i | 0 <= i < |hand| ::
      hand[i].left == left || hand[i].right == left || hand[i].left == right || hand[i].right == right
  }

  /**
   * `canPlayTile`: before the first play a 4-seat game lets only the holder of 6:6 act and
   * any other game lets every seat act; afterwards the seat must hold a tile touching an end.
   */
  function CanPlayTile(gs: GameState, playerId: string): (r: bool)
    ensures gs.isFirstPlay && |gs.players| == 4 ==> (r <==> Tile(6, 6) in Hand(gs, playerId))
    ensures gs.isFirstPlay && |gs.players| != 4 ==> r
    ensures !gs.isFirstPlay ==>
              (r <==> exists i | 0 <= i < |Hand(gs, playerId)| ::
                        Touches(Hand(gs, playerId)[i], gs.boardEnds.left) || Touches(Hand(gs, playerId)[i], gs.boardEnds.right))
  {
    var hand := Hand(gs, playerId);
    if gs.isFirstPlay then
      if |gs.players| == 4 then
        exists i | 0 <= i < |hand| :: hand[i].left == 6 && hand[i].right == 6
      else true
    else
      AnyTouches(hand, gs.boardEnds.left, gs.boardEnds.right)
  }

  /**
   * After the first play, on a board whose ends are set, a seat can act exactly when one
   * of its tiles is a valid move at one of the two ends.
   */
  lemma CanPlayIffSomeValidMove(gs: GameState, playerId: string)
    requires !gs.isFirstPlay && gs.board != []
    requires gs.boardEnds.left != NoEnd && gs.boardEnds.right != NoEnd
    ensures CanPlayTile(gs, playerId) <==>
              exists i, side | 0 <= i < |Hand(gs, playerId)| :: IsValidMove(gs, Hand(gs, playerId)[i], side) == Ok(true)
  {
    var hand := Hand(gs, playerId);
    if CanPlayTile(gs, playerId) {
      var i :| 0 <= i < |hand| && (Touches(hand[i], gs.boardEnds.left) || Touches(hand[i], gs.boardEnds.right));
      if Touches(hand[i], gs.boardEnds.left) {
        assert IsValidMove(gs, hand[i], Left) == Ok(true);
      } else {
        assert IsValidMove(gs, hand[i], Right) == Ok(true);
      }
    }
    if exists i, side | 0 <= i < |hand| :: IsValidMove(gs, hand[i], side) == Ok(true) {
      var i, side :| 0 <= i < |hand| && IsValidMove(gs, hand[i], side) == Ok(true);
      assert hand[i] in hand;
    }
  }

  /** `playerHasTile`: membership that treats (a,b) and (b,a) as the same tile. */
  function PlayerHasTile(gs: GameState, playerId: string, tile: Tile): (r: bool)
    ensures r <==> (tile in Hand(gs, playerId) || Flip(tile) in Hand(gs, playerId))
  {
    HasSameTile(Hand(gs, playerId), tile)
  }

  /** `isGameBlocked`: no seat holds a tile touching either end (the draw pile and `isFirstPlay` are not looked at). */
  function IsGameBlocked(gs: GameState): (r: bool)
    ensures r <==> forall i, k | 0 <= i < |gs.players| && 0 <= k < |Hand(gs, gs.players[i])| ::
                      !Touches(Hand(gs, gs.players[i])[k], gs.boardEnds.left) &&
                      !Touches(Hand(gs, gs.players[i])[k], gs.boardEnds.right)
  {
    forall i | 0 <= i < |gs.players| :: !AnyTouches(Hand(gs, gs.players[i]), gs.boardEnds.left, gs.boardEnds.right)
  }

  /** After the first play, a game is blocked exactly when no seat can act. */
  lemma BlockedIffNobodyCanPlay(gs: GameState)
    requires !gs.isFirstPlay
    ensures IsGameBlocked(gs) <==> forall i | 0 <= i < |gs.players| :: !CanPlayTile(gs, gs.players[i])
  {
  }

  /**
   * Before any play both ends are -1, which no standard tile touches: the game reads as
   * blocked whatever the seats hold.
   */
  lemma OpeningBoardReadsBlocked(gs: GameState)
    requires gs.boardEnds == BoardEnds(NoEnd, NoEnd)
    requires forall p | p in gs.hands :: forall k | 0 <= k < |gs.hands[p]| :: PipsInRange(gs.hands[p][k])
    ensures IsGameBlocked(gs)
  {
  }

  // ---------------------------------------------------------------------------
  // checkWinner

  /** The first seat, from index `from` on, whose hand is empty. */
  function FirstEmptySeat(gs: GameState, from: nat): Option<string>
    decreases |gs.players| - from
  {
    if from >= |gs.players| then None
    else if Hand(gs, gs.players[from]) == [] then Some(gs.players[from])
    else FirstEmptySeat(gs, from + 1)
  }

  /** `FirstEmptySeat` finds the first seat in seat order with an empty hand, and only fails when there is none. */
  lemma {:induction false} FirstEmptySeatSpec(gs: GameState, from: nat)
    ensures FirstEmptySeat(gs, from).None? <==>
              forall i | from <= i < |gs.players| :: Hand(gs, gs.players[i]) != []
    ensures FirstEmptySeat(gs, from).Some? ==>
              exists k | from <= k < |gs.players| ::
                gs.players[k] == FirstEmptySeat(gs, from).value && Hand(gs, gs.players[k]) == [] &&
                forall i | from <= i < k :: Hand(gs, gs.players[i]) != []
    decreases |gs.players| - from
  {
    if from < |gs.players| {
      if Hand(gs, gs.players[from]) == [] {
        assert FirstEmptySeat(gs, from) == Some(gs.players[from]);
      } else {
        FirstEmptySeatSpec(gs, from + 1);
        assert FirstEmptySeat(gs, from) == FirstEmptySeat(gs, from + 1);
        if FirstEmptySeat(gs, from).Some? {
          var k :| from + 1 <= k < |gs.players| &&
                   gs.players[k] == FirstEmptySeat(gs, from).value && Hand(gs, gs.players[k]) == [] &&
                   forall i | from + 1 <= i < k :: Hand(gs, gs.players[i]) != [];
          assert forall i | from <= i < k :: Hand(gs, gs.players[i]) != [];
        }
      }
    }
  }

  /** `checkWinner`: the first seat in seat order with an empty hand, else null. */
  method CheckWinner(gs: GameState) returns (winner: Option<string>)
    ensures winner == FirstEmptySeat(gs, 0)
  {
    var i := 0;
    while i < |gs.players|
      invariant 0 <= i <= |gs.players|
      invariant FirstEmptySeat(gs, i) == FirstEmptySeat(gs, 0)
    {
      var playerId := gs.players[i];
      if |Hand(gs, playerId)| == 0 {
        return Some(playerId);
      }
      i := i + 1;
    }
    return None;
  }

  // ---------------------------------------------------------------------------
  // determineWinnerByLowestTile and calculateFinalScores

  function SeatScore(gs: GameState, i: int): int
    requires 0 <= i < |gs.players|
  {
    HandScore(Hand(gs, gs.players[i]))
  }

  /** Seat `i` has the minimal pip sum, and every earlier seat has a strictly larger one. */
  predicate IsLowestSeat(gs: GameState, i: int)
    requires 0 <= i < |gs.players|
  {
    (forall j | 0 <= j < |gs.players| :: SeatScore(gs, i) <= SeatScore(gs, j)) &&
    (forall j | 0 <= j < i :: SeatScore(gs, j) > SeatScore(gs, i))
  }

  /**
   * `determineWinnerByLowestTile`: the seat with the lowest pip sum; on a tie the earliest
   * seat wins, because only a strictly lower sum replaces the current choice.
   */
  method DetermineWinnerByLowestTile(gs: GameState) returns (winner: string)
    requires |gs.players| > 0
    ensures exists i | 0 <= i < |gs.players| :: gs.players[i] == winner && IsLowestSeat(gs, i)
  {
    var lowestSum: Option<int> := None;  // `Infinity`
    winner := gs.players[0];
    ghost var best := 0;
    var i := 0;
    while i < |gs.players|
      invariant 0 <= i <= |gs.players|
      invariant 0 <= best < |gs.players| && winner == gs.players[best]
      invariant i == 0 <==> lowestSum.None?
      invariant i > 0 ==> best < i && lowestSum == Some(SeatScore(gs, best))
      invariant forall j | 0 <= j < i :: SeatScore(gs, best) <= SeatScore(gs, j)
      invariant forall j | 0 <= j < best :: SeatScore(gs, j) > SeatScore(gs, best)
    {
      var sum := HandScore(Hand(gs, gs.players[i]));
      if lowestSum.None? || sum < lowestSum.value {
        lowestSum := Some(sum);
        winner := gs.players[i];
        best := i;
      }
      i := i + 1;
    }
  }

  /** `calculateFinalScores`: every seat mapped to the pip sum of its hand. */
  method CalculateFinalScores(gs: GameState) returns (scores: map<string, int>)
    ensures scores.Keys == set p | p in gs.players
    ensures forall p | p in scores :: scores[p] == HandScore(Hand(gs, p))
  {
    scores := map[];
    var i := 0;
    while i < |gs.players|
      invariant 0 <= i <= |gs.players|
      invariant scores.Keys == set p | p in gs.players[..i]
      invariant forall p | p in scores :: scores[p] == HandScore(Hand(gs, p))
    {
      var playerId := gs.players[i];
      scores := scores[playerId := HandScore(Hand(gs, playerId))];
      assert gs.players[..i + 1] == gs.players[..i] + [playerId];
      i := i + 1;
    }
    assert gs.players[..i] == gs.players;
  }
}
