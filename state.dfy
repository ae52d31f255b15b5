/**
 * The room record the engine loads, changes and stores
 * (src/game/interfaces/game-state.interface.ts, src/game/interfaces/move-history.interface.ts).
 */
module State {
  import opened Tiles

  datatype Action = PlayAction | DrawAction | PassAction

  datatype LastAction = LastAction(playerId: string, action: Action)

  /** One `moveHistory` entry; the engine only ever appends plays. */
  datatype Move = Move(playerId: string, action: Action, tile: Tile, side: Side)

  /** The two open pip values; -1 stands for "no tile there yet". */
  datatype BoardEnds = BoardEnds(left: int, right: int)

  const NoEnd: int := -1

  datatype GameState = GameState(
    roomId: string,
    players: seq<string>,
    hands: map<string, seq<Tile>>,
    board: seq<Tile>,
    turnIndex: int,
    betAmount: int,
    drawPile: seq<Tile>,
    lastAction: LastAction,
    boardEnds: BoardEnds,
    currentTurn: string,
    turnStartTime: int,
    scores: map<string, int>,
    disconnectedPlayers: set<string>,
    moveHistory: seq<Move>,
    isFirstPlay: bool
  )

  /** The hand stored for a seat; a seat without an entry reads as an empty hand. */
  function Hand(gs: GameState, playerId: string): seq<Tile> {
    if playerId in gs.hands then gs.hands[playerId] else []
  }

  /** The turn index names a seat whenever there are seats. */
  predicate WellFormed(gs: GameState) {
    0 <= gs.turnIndex && (|gs.players| > 0 ==> gs.turnIndex < |gs.players|)
  }

  /** `gameState.players[gameState.turnIndex] === playerId` (an index out of range reads `undefined`). */
  predicate IsTurnOf(gs: GameState, playerId: string) {
    0 <= gs.turnIndex < |gs.players| && gs.players[gs.turnIndex] == playerId
  }

  /** The pip values of the board ends, one per side. */
  function EndAt(ends: BoardEnds, side: Side): int {
    if side == Left then ends.left else ends.right
  }

  /** Total number of tiles held by the seats, counted seat by seat. */
  function SeatTileCount(players: seq<string>, hands: map<string, seq<Tile>>): nat {
    if players == [] then 0
    else SeatTileCount(players[..|players| - 1], hands)
         + (if players[|players| - 1] in hands then |hands[players[|players| - 1]]| else 0)
  }

  /** Tiles in the seats' hands, on the board and in the draw pile. */
  function TotalTiles(gs: GameState): nat {
    SeatTileCount(gs.players, gs.hands) + |gs.board| + |gs.drawPile|
  }

  predicate Distinct(xs: seq<string>) {
    forall i, j | 0 <= i < j < |xs| :: xs[i] != xs[j]
  }

  /** Changing one seat's hand changes the seat total by the difference of the two hand sizes. */
  lemma {:induction false} SeatTileCountUpdate(players: seq<string>, hands: map<string, seq<Tile>>, p: string, h: seq<Tile>)
    requires Distinct(players)
    requires p in players && p in hands
    ensures SeatTileCount(players, hands[p := h]) == SeatTileCount(players, hands) - |hands[p]| + |h|
    decreases |players|
  {
    var init := players[..|players| - 1];
    var last := players[|players| - 1];
    assert Distinct(init);
    if last == p {
      assert p !in init;
      SeatTileCountUnaffected(init, hands, p, h);
    } else {
      assert p in init by {
        var k :| 0 <= k < |players| && players[k] == p;
        assert k < |players| - 1;
        assert init[k] == p;
      }
      SeatTileCountUpdate(init, hands, p, h);
    }
  }

  /** A hand that belongs to no seat does not count. */
  lemma {:induction false} SeatTileCountUnaffected(players: seq<string>, hands: map<string, seq<Tile>>, p: string, h: seq<Tile>)
    requires p !in players
    ensures SeatTileCount(players, hands[p := h]) == SeatTileCount(players, hands)
    decreases |players|
  {
    if players != [] {
      SeatTileCountUnaffected(players[..|players| - 1], hands, p, h);
    }
  }
}
