/**
 * What one move does to the room record (src/game/player.action.service.ts):
 * `executeTilePlay`, `nextTurn`, the checks `playTile` makes before a play, and the
 * record changes of a draw and a pass.
 */
module Turns {
  import opened Wrappers
  import opened Errors
  import opened Tiles
  import opened State
  import opened GameLogic

  // ---------------------------------------------------------------------------
  // nextTurn

  /** `nextTurn`: the turn passes to the next seat, wrapping round after the last. */
  function Advance(gs: GameState): (r: GameState)
    requires WellFormed(gs) && |gs.players| > 0
    ensures WellFormed(r) && IsTurnOf(r, r.currentTurn)
    ensures r.turnIndex == if gs.turnIndex + 1 < |gs.players| then gs.turnIndex + 1 else 0
    ensures r == gs.(turnIndex := r.turnIndex, currentTurn := r.currentTurn)
  {
    WrapStep(gs.turnIndex, |gs.players|);
    var i := (gs.turnIndex + 1) % |gs.players|;
    gs.(turnIndex := i, currentTurn := gs.players[i])
  }

  /** `k` turns in a row. */
  function AdvanceN(gs: GameState, k: nat): (r: GameState)
    requires WellFormed(gs) && |gs.players| > 0
    ensures WellFormed(r) && r.players == gs.players
  {
    if k == 0 then gs else Advance(AdvanceN(gs, k - 1))
  }

  /** Within one round, after `k` turns the seat at the turn is `k` seats further on, counted round the table. */
  lemma {:induction false} AdvanceNIndex(gs: GameState, k: nat)
    requires WellFormed(gs) && |gs.players| > 0
    requires k <= |gs.players|
    ensures AdvanceN(gs, k).turnIndex ==
              if gs.turnIndex + k < |gs.players| then gs.turnIndex + k else gs.turnIndex + k - |gs.players|
  {
    if k > 0 {
      AdvanceNIndex(gs, k - 1);
    }
  }

  /** `(i + 1) % n` for a seat index `i`. */
  lemma WrapStep(i: int, n: int)
    requires 0 <= i < n
    ensures (i + 1) % n == if i + 1 < n then i + 1 else 0
  {
  }

  /** Every seat gets the turn within one round, and after a full round the turn is back where it started. */
  lemma AdvanceVisitsEverySeat(gs: GameState, j: nat)
    requires WellFormed(gs) && |gs.players| > 0
    requires j < |gs.players|
    ensures AdvanceN(gs, |gs.players|).turnIndex == gs.turnIndex
    ensures exists k | 0 <= k < |gs.players| :: AdvanceN(gs, k).turnIndex == j
  {
    var n := |gs.players|;
    AdvanceNIndex(gs, n);
    var k: nat := if j >= gs.turnIndex then j - gs.turnIndex else j + n - gs.turnIndex;
    AdvanceNIndex(gs, k);
  }

  // ---------------------------------------------------------------------------
  // executeTilePlay

  /**
   * The orientation a played tile is put down in: at the left end it is turned round
   * unless its right pip already faces the end, at the right end unless its left pip does.
   */
  function Oriented(tile: Tile, side: Side, ends: BoardEnds): (t: Tile)
    ensures t == tile || t == Flip(tile)
    ensures side == Left && Touches(tile, ends.left) ==> t.right == ends.left
    ensures side == Right && Touches(tile, ends.right) ==> t.left == ends.right
  {
    if side == Left then (if tile.right != ends.left then Flip(tile) else tile)
    else (if tile.left != ends.right then Flip(tile) else tile)
  }

  /**
   * The board, ends, last action, history and first-play flag after `tile` goes down at
   * `side`. The double rule writes the end just written again, and sets both ends when
   * the double is the only tile on the board.
   */
  function Place(gs: GameState, playerId: string, tile: Tile, side: Side): GameState {
    var t := Oriented(tile, side, gs.boardEnds);
    var board := if side == Left then [t] + gs.board else gs.board + [t];
    var ends := if side == Left then gs.boardEnds.(left := t.left) else gs.boardEnds.(right := t.right);
    var ends' := if IsDouble(t) && |board| == 1 then BoardEnds(t.left, t.right) else ends;
    gs.(board := board, boardEnds := ends',
        lastAction := LastAction(playerId, PlayAction),
        moveHistory := gs.moveHistory + [Move(playerId, PlayAction, t, side)],
        isFirstPlay := false)
  }

  /** Number of tiles of `hand` that are `tile` in either orientation. */
  function CountSame(hand: seq<Tile>, tile: Tile): nat {
    if hand == [] then 0 else (if SameTile(hand[0], tile) then 1 else 0) + CountSame(hand[1..], tile)
  }

  /** Number of tiles of `hand` equal to `tile` in the given orientation. */
  function CountExact(hand: seq<Tile>, tile: Tile): nat {
    if hand == [] then 0 else (if hand[0] == tile then 1 else 0) + CountExact(hand[1..], tile)
  }

  /** The hand filter as the source writes it: drops the tiles equal to `tile` in the offered orientation only. */
  function RemoveExact(hand: seq<Tile>, tile: Tile): (r: seq<Tile>)
    ensures |r| == |hand| - CountExact(hand, tile)
    ensures forall i | 0 <= i < |r| :: r[i] != tile
  {
    if hand == [] then []
    else (if hand[0] == tile then [] else [hand[0]]) + RemoveExact(hand[1..], tile)
  }

  /** The hand filter as intended: drops `tile` in either orientation, keeping the order of the rest. */
  function RemoveTile(hand: seq<Tile>, tile: Tile): (r: seq<Tile>)
    ensures |r| == |hand| - CountSame(hand, tile)
    ensures forall i | 0 <= i < |r| :: !SameTile(r[i], tile)
    ensures forall i | 0 <= i < |r| :: r[i] in hand
  {
    if hand == [] then []
    else (if SameTile(hand[0], tile) then [] else [hand[0]]) + RemoveTile(hand[1..], tile)
  }

  /** `executeTilePlay` with the hand filter as the source writes it. */
  function PlayedStateAsWritten(gs: GameState, playerId: string, tile: Tile, side: Side): GameState {
    Place(gs.(hands := gs.hands[playerId := RemoveExact(Hand(gs, playerId), tile)]), playerId, tile, side)
  }

  /** `executeTilePlay`, with the played tile taken out of the hand whatever orientation it was offered in. */
  function PlayedState(gs: GameState, playerId: string, tile: Tile, side: Side): GameState {
    Place(gs.(hands := gs.hands[playerId := RemoveTile(Hand(gs, playerId), tile)]), playerId, tile, side)
  }

  /**
   * A valid move at an end whose pip is set: the board grows by the turned tile at that
   * end, the tile's inner pip matches the old end, the end moves to its outer pip, the
   * other end stays, and the move is appended to the history.
   */
  lemma PlayAtEnd(gs: GameState, playerId: string, tile: Tile, side: Side)
    requires gs.board != []
    requires IsValidMove(gs, tile, side) == Ok(true)
    ensures var r := PlayedState(gs, playerId, tile, side);
            var t := Oriented(tile, side, gs.boardEnds);
            SameTile(t, tile) &&
            |r.board| == |gs.board| + 1 &&
            (side == Left ==> r.board == [t] + gs.board && t.right == gs.boardEnds.left &&
                              r.boardEnds == BoardEnds(t.left, gs.boardEnds.right)) &&
            (side == Right ==> r.board == gs.board + [t] && t.left == gs.boardEnds.right &&
                               r.boardEnds == BoardEnds(gs.boardEnds.left, t.right)) &&
            r.moveHistory == gs.moveHistory + [Move(playerId, PlayAction, t, side)] &&
            !r.isFirstPlay && r.lastAction == LastAction(playerId, PlayAction)
  {
  }

  /** The board is a chain: neighbouring tiles share a pip and the ends are the chain's outer pips. */
  predicate Chained(gs: GameState) {
    gs.board != [] ==>
      gs.boardEnds.left == gs.board[0].left &&
      gs.boardEnds.right == gs.board[|gs.board| - 1].right &&
      forall i | 0 <= i < |gs.board| - 1 :: gs.board[i].right == gs.board[i + 1].left
  }

  /** A valid move keeps the board a chain. */
  lemma PlayKeepsChain(gs: GameState, playerId: string, tile: Tile, side: Side)
    requires Chained(gs) && gs.board != []
    requires IsValidMove(gs, tile, side) == Ok(true)
    ensures Chained(PlayedState(gs, playerId, tile, side))
  {
    PlayAtEnd(gs, playerId, tile, side);
    var r := PlayedState(gs, playerId, tile, side);
    var t := Oriented(tile, side, gs.boardEnds);
    if side == Left {
      forall i | 0 <= i < |r.board| - 1
        ensures r.board[i].right == r.board[i + 1].left
      {
        if i > 0 {
          assert r.board[i] == gs.board[i - 1] && r.board[i + 1] == gs.board[i];
        }
      }
    } else {
      forall i | 0 <= i < |r.board| - 1
        ensures r.board[i].right == r.board[i + 1].left
      {
        if i < |gs.board| - 1 {
          assert r.board[i] == gs.board[i] && r.board[i + 1] == gs.board[i + 1];
        }
      }
    }
  }

  /** A double opening the game sets both ends to its pip and starts a chain. */
  lemma DoubleOpenerSetsBothEnds(gs: GameState, playerId: string, tile: Tile, side: Side)
    requires gs.board == [] && IsDouble(tile)
    ensures PlayedState(gs, playerId, tile, side).boardEnds == BoardEnds(tile.left, tile.left)
    ensures PlayedState(gs, playerId, tile, side).board == [tile]
    ensures Chained(PlayedState(gs, playerId, tile, side))
  {
  }

  /**
   * A non-double opening the game (ends at -1) sets only the end it was played at: the
   * other end stays -1, and from then on every `isValidMove` reports a corrupt board.
   */
  lemma NonDoubleOpenerLeavesEndUnset(gs: GameState, playerId: string, tile: Tile, side: Side, next: Tile, nextSide: Side)
    requires gs.board == [] && gs.boardEnds == BoardEnds(NoEnd, NoEnd)
    requires !IsDouble(tile) && PipsInRange(tile)
    ensures side == Left ==> PlayedState(gs, playerId, tile, side).boardEnds == BoardEnds(tile.right, NoEnd)
    ensures side == Right ==> PlayedState(gs, playerId, tile, side).boardEnds == BoardEnds(NoEnd, tile.left)
    ensures IsValidMove(PlayedState(gs, playerId, tile, side), next, nextSide) == Err(InvalidBoardState)
  {
  }

  // ---------------------------------------------------------------------------
  // Tiles are neither created nor lost

  lemma {:induction false} SeatTotal(gs: GameState, playerId: string, h: seq<Tile>)
    requires Distinct(gs.players) && playerId in gs.players && playerId in gs.hands
    ensures TotalTiles(gs.(hands := gs.hands[playerId := h])) == TotalTiles(gs) - |gs.hands[playerId]| + |h|
  {
    SeatTileCountUpdate(gs.players, gs.hands, playerId, h);
  }

  /**
   * A play moves the tiles of the hand that are the played tile (in either orientation)
   * out of the hand and puts one tile on the board; with the usual single copy the number
   * of tiles in the room is unchanged.
   */
  lemma PlayConservesTiles(gs: GameState, playerId: string, tile: Tile, side: Side)
    requires Distinct(gs.players) && playerId in gs.players && playerId in gs.hands
    ensures TotalTiles(PlayedState(gs, playerId, tile, side)) == TotalTiles(gs) - CountSame(Hand(gs, playerId), tile) + 1
    ensures CountSame(Hand(gs, playerId), tile) == 1 ==> TotalTiles(PlayedState(gs, playerId, tile, side)) == TotalTiles(gs)
  {
    SeatTotal(gs, playerId, RemoveTile(Hand(gs, playerId), tile));
  }

  /**
   * As written, offering a held tile the other way round (the hand holds (b,a), the
   * request names (a,b)) passes `playerHasTile` but the exact filter removes nothing: the
   * tile stays in the hand and a copy goes on the board.
   */
  lemma ReversedOfferDuplicatesTile(gs: GameState, playerId: string, tile: Tile, side: Side)
    requires Distinct(gs.players) && playerId in gs.players && playerId in gs.hands
    requires tile !in Hand(gs, playerId) && Flip(tile) in Hand(gs, playerId)
    ensures PlayerHasTile(gs, playerId, tile)
    ensures Hand(PlayedStateAsWritten(gs, playerId, tile, side), playerId) == Hand(gs, playerId)
    ensures TotalTiles(PlayedStateAsWritten(gs, playerId, tile, side)) == TotalTiles(gs) + 1
  {
    var hand := Hand(gs, playerId);
    NoExactCopy(hand, tile);
    SeatTotal(gs, playerId, RemoveExact(hand, tile));
  }

  lemma {:induction false} NoExactCopy(hand: seq<Tile>, tile: Tile)
    requires tile !in hand
    ensures RemoveExact(hand, tile) == hand && CountExact(hand, tile) == 0
  {
    if hand != [] {
      NoExactCopy(hand[1..], tile);
      assert hand == [hand[0]] + hand[1..];
    }
  }

  /** A concrete room in which the reversed offer makes 29 tiles out of 28-tile bookkeeping: one seat, hand [(5,3)], request (3,5). */
  lemma ReversedOfferExample()
    ensures var gs := GameState("r", ["p"], map["p" := [Tile(5, 3)]], [Tile(3, 3)], 0, 0, [], LastAction("", PlayAction),
                                BoardEnds(3, 3), "p", 0, map[], {}, [], false);
            IsValidMove(gs, Tile(3, 5), Left) == Ok(true) && PlayerHasTile(gs, "p", Tile(3, 5)) &&
            TotalTiles(PlayedStateAsWritten(gs, "p", Tile(3, 5), Left)) == TotalTiles(gs) + 1 &&
            TotalTiles(PlayedState(gs, "p", Tile(3, 5), Left)) == TotalTiles(gs)
  {
    var gs := GameState("r", ["p"], map["p" := [Tile(5, 3)]], [Tile(3, 3)], 0, 0, [], LastAction("", PlayAction),
                        BoardEnds(3, 3), "p", 0, map[], {}, [], false);
    ReversedOfferDuplicatesTile(gs, "p", Tile(3, 5), Left);
    assert SameTile(Tile(5, 3), Tile(3, 5));
    assert CountSame([Tile(5, 3)], Tile(3, 5)) == 1;
    PlayConservesTiles(gs, "p", Tile(3, 5), Left);
  }

  // ---------------------------------------------------------------------------
  // playTile's checks, drawTile's and passTurn's record changes

  /**
   * The checks `playTile` makes, in order, and the record after `executeTilePlay`: not
   * the seat at the turn, tile not held, a corrupt board, a tile not fitting the end.
   */
  function CheckPlay(gs: GameState, playerId: string, tile: Tile, side: Side): (r: Result<GameState>)
    ensures r.Ok? <==> IsTurnOf(gs, playerId) && PlayerHasTile(gs, playerId, tile) && IsValidMove(gs, tile, side) == Ok(true)
    ensures r.Ok? ==> r.value == PlayedState(gs, playerId, tile, side)
    ensures !IsTurnOf(gs, playerId) ==> r == Err(NotYourTurn)
    ensures IsTurnOf(gs, playerId) && !PlayerHasTile(gs, playerId, tile) ==> r == Err(TileNotInHand)
  {
    if !IsTurnOf(gs, playerId) then Err(NotYourTurn)
    else if !PlayerHasTile(gs, playerId, tile) then Err(TileNotInHand)
    else match IsValidMove(gs, tile, side)
      case Err(e) => Err(e)
      case Ok(valid) => if !valid then Err(InvalidMove) else Ok(PlayedState(gs, playerId, tile, side))
  }

  /** `if (winner)`: a seat with an empty hand was found and its id is not the empty string. */
  predicate HasWinner(gs: GameState) {
    FirstEmptySeat(gs, 0).Some? && FirstEmptySeat(gs, 0).value != ""
  }

  /** The record after `drawPile.pop()` goes into the player's hand and the draw is noted. */
  function DrawnState(gs: GameState, playerId: string): (r: GameState)
    requires gs.drawPile != []
    ensures Hand(r, playerId) == Hand(gs, playerId) + [gs.drawPile[|gs.drawPile| - 1]]
    ensures r.drawPile + [gs.drawPile[|gs.drawPile| - 1]] == gs.drawPile
    ensures r.turnIndex == gs.turnIndex && r.board == gs.board && r.players == gs.players
  {
    var drawn := gs.drawPile[|gs.drawPile| - 1];
    gs.(drawPile := gs.drawPile[..|gs.drawPile| - 1],
        hands := gs.hands[playerId := Hand(gs, playerId) + [drawn]],
        lastAction := LastAction(playerId, DrawAction))
  }

  /** A draw moves one tile from the pile to a seat's hand. */
  lemma DrawConservesTiles(gs: GameState, playerId: string)
    requires gs.drawPile != []
    requires Distinct(gs.players) && playerId in gs.players && playerId in gs.hands
    ensures TotalTiles(DrawnState(gs, playerId)) == TotalTiles(gs)
  {
    var h := Hand(gs, playerId) + [gs.drawPile[|gs.drawPile| - 1]];
    SeatTotal(gs, playerId, h);
    assert DrawnState(gs, playerId) == gs.(hands := gs.hands[playerId := h]).(drawPile := gs.drawPile[..|gs.drawPile| - 1], lastAction := LastAction(playerId, DrawAction));
  }

  /** The record after a pass is noted. */
  function PassedState(gs: GameState, playerId: string): GameState {
    gs.(lastAction := LastAction(playerId, PassAction))
  }
}
