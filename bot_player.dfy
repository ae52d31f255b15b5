/**
 * How a bot chooses its move (src/game/bot-player.ts): three strategies that scan the
 * hand, in hand order or sorted by a score, for the first tile touching an end.
 */
module Bots {
  import opened Tiles
  import opened State

  datatype Difficulty = Easy | Medium | Hard

  /** The `{ action, tile?, side? }` a strategy returns. */
  datatype Decision = Play(tile: Tile, side: Side) | Draw | Pass

  /** The tile can go at one of the two ends. */
  predicate Playable(t: Tile, left: int, right: int) {
    Touches(t, left) || Touches(t, right)
  }

  // ---------------------------------------------------------------------------
  // The scan shared by the three strategies

  /**
   * The first tile of `order` touching an end, at the left end when it touches the left
   * one, else at the right end; `fallback` when there is none.
   */
  function Scan(order: seq<Tile>, left: int, right: int, fallback: Decision): Decision
  {
    if order == [] then fallback
    else if Touches(order[0], left) then Play(order[0], Left)
    else if Touches(order[0], right) then Play(order[0], Right)
    else Scan(order[1..], left, right, fallback)
  }

  /**
   * `Scan` plays the first playable tile of `order`, and at the left end whenever that
   * tile touches the left end; it falls back exactly when no tile is playable.
   */
  lemma {:induction false} ScanSpec(order: seq<Tile>, left: int, right: int, fallback: Decision)
    requires !fallback.Play?
    ensures Scan(order, left, right, fallback) == fallback || Scan(order, left, right, fallback).Play?
    ensures Scan(order, left, right, fallback) == fallback <==>
              forall j | 0 <= j < |order| :: !Playable(order[j], left, right)
    ensures Scan(order, left, right, fallback).Play? ==>
              exists k | 0 <= k < |order| ::
                order[k] == Scan(order, left, right, fallback).tile &&
                (forall j | 0 <= j < k :: !Playable(order[j], left, right)) &&
                (Scan(order, left, right, fallback).side == Left <==> Touches(order[k], left)) &&
                Touches(order[k], EndAt(BoardEnds(left, right), Scan(order, left, right, fallback).side))
    decreases |order|
  {
    if order != [] && !Playable(order[0], left, right) {
      ScanSpec(order[1..], left, right, fallback);
      var d := Scan(order, left, right, fallback);
      if d.Play? {
        var k :| 0 <= k < |order[1..]| && order[1..][k] == d.tile &&
                 (forall j | 0 <= j < k :: !Playable(order[1..][j], left, right)) &&
                 (d.side == Left <==> Touches(order[1..][k], left)) &&
                 Touches(order[1..][k], EndAt(BoardEnds(left, right), d.side));
        assert order[k + 1] == order[1..][k];
        forall j | 0 <= j < k + 1
          ensures !Playable(order[j], left, right)
        {
          if j > 0 {
            assert order[j] == order[1..][j - 1];
          }
        }
      }
      forall j | 0 <= j < |order[1..]|
        ensures order[1..][j] == order[j + 1]
      {
      }
    }
  }

  /** The `for (const tile of sortedHand)` loop of every strategy. */
  method FirstMatch(order: seq<Tile>, left: int, right: int, fallback: Decision) returns (d: Decision)
    ensures d == Scan(order, left, right, fallback)
  {
    var i := 0;
    while i < |order|
      invariant 0 <= i <= |order|
      invariant Scan(order[i..], left, right, fallback) == Scan(order, left, right, fallback)
    {
      var tile := order[i];
      if tile.left == left || tile.right == left {
        return Play(tile, Left);
      }
      if tile.left == right || tile.right == right {
        return Play(tile, Right);
      }
      assert order[i..][1..] == order[i + 1..];
      i := i + 1;
    }
    return fallback;
  }

  // ---------------------------------------------------------------------------
  // Number counts (`countBoardNumbers`, `countOpponentNumbers`)

  /** `record[n] || 0`. */
  function Lookup(count: map<int, int>, n: int): int {
    if n in count then count[n] else 0
  }

  /** `count[n] = (count[n] || 0) + 1`. */
  function Bump(count: map<int, int>, n: int): map<int, int> {
    count[n := Lookup(count, n) + 1]
  }

  /** The record built by counting both pips of every tile, first tile first. */
  function PipRecord(tiles: seq<Tile>): map<int, int> {
    if tiles == [] then map[]
    else Bump(Bump(PipRecord(tiles[..|tiles| - 1]), tiles[|tiles| - 1].left), tiles[|tiles| - 1].right)
  }

  /** How many pip halves of `tiles` show `n` (a double shows it twice). */
  function PipCount(tiles: seq<Tile>, n: int): nat {
    if tiles == [] then 0
    else PipCount(tiles[..|tiles| - 1], n)
         + (if tiles[|tiles| - 1].left == n then 1 else 0)
         + (if tiles[|tiles| - 1].right == n then 1 else 0)
  }

  /** The record counts every pip value exactly, and records only values that occur. */
  lemma {:induction false} PipRecordCounts(tiles: seq<Tile>)
    ensures forall n :: Lookup(PipRecord(tiles), n) == PipCount(tiles, n)
    ensures forall n :: n in PipRecord(tiles) <==> PipCount(tiles, n) > 0
  {
    if tiles != [] {
      PipRecordCounts(tiles[..|tiles| - 1]);
    }
  }

  /** `countBoardNumbers`. */
  method CountBoardNumbers(board: seq<Tile>) returns (count: map<int, int>)
    ensures count == PipRecord(board)
  {
    count := map[];
    for i := 0 to |board|
      invariant count == PipRecord(board[..i])
    {
      var tile := board[i];
      assert board[..i + 1][..i] == board[..i];
      count := count[tile.left := Lookup(count, tile.left) + 1];
      count := count[tile.right := Lookup(count, tile.right) + 1];
    }
    assert board[..|board|] == board;
  }

  /** `allTiles.filter(tile => !tileInArray(tile, seen))`. */
  function Unseen(all: seq<Tile>, seen: seq<Tile>): (r: seq<Tile>)
    ensures |r| <= |all|
    ensures forall t :: t in r <==> t in all && !HasSameTile(seen, t)
    decreases |all|
  {
    if all == [] then []
    else
      assert forall t :: t in all <==> t == all[0] || t in all[1..];
      (if HasSameTile(seen, all[0]) then [] else [all[0]]) + Unseen(all[1..], seen)
  }

  /** The tiles of the set that are neither on the board nor in the bot's hand. */
  function OpponentPool(gs: GameState, botId: string): seq<Tile> {
    Unseen(AllTiles(), gs.board + Hand(gs, botId))
  }

  /** A tile is in the pool exactly when it is a tile of the set that the bot cannot see. */
  lemma OpponentPoolMembers(gs: GameState, botId: string)
    ensures forall t :: t in OpponentPool(gs, botId) <==> Canonical(t) && !HasSameTile(gs.board + Hand(gs, botId), t)
  {
    var all := AllTiles();
    AllTilesMembers();
  }

  /** `countOpponentNumbers`. */
  method CountOpponentNumbers(gs: GameState, botId: string) returns (count: map<int, int>)
    ensures count == PipRecord(OpponentPool(gs, botId))
  {
    var allTiles := GenerateAllTiles();
    var playedTiles := gs.board + Hand(gs, botId);
    var remainingTiles := Unseen(allTiles, playedTiles);
    count := CountBoardNumbers(remainingTiles);
  }

  // ---------------------------------------------------------------------------
  // Tile scores and the order the strategies scan in

  /** Which score orders the hand: board counts (medium) or opponent counts (hard). */
  datatype Scorer = ByBoard(boardNumbers: map<int, int>) | ByOpponents(opponentNumbers: map<int, int>)

  /**
   * `getTileScore` (5 for a double plus the board counts of both pips) and
   * `getTileScoreHard` (5 for a double minus the opponent counts of both pips).
   */
  function Score(sc: Scorer, t: Tile): int {
    var bonus := if t.left == t.right then 5 else 0;
    match sc
    case ByBoard(c) => bonus + (Lookup(c, t.left) + Lookup(c, t.right))
    case ByOpponents(c) => bonus - (Lookup(c, t.left) + Lookup(c, t.right))
  }

  /** Puts `t` in front of the first element that does not score more than it. */
  function Insert(t: Tile, sorted: seq<Tile>, sc: Scorer): seq<Tile> {
    if sorted == [] || Score(sc, t) >= Score(sc, sorted[0]) then [t] + sorted
    else [sorted[0]] + Insert(t, sorted[1..], sc)
  }

  /**
   * `hand.slice().sort((a, b) => score(b) - score(a))`: highest score first, tiles of
   * equal score in hand order (the sort is stable).
   */
  function SortDesc(hand: seq<Tile>, sc: Scorer): seq<Tile> {
    if hand == [] then [] else Insert(hand[0], SortDesc(hand[1..], sc), sc)
  }

  predicate SortedDesc(s: seq<Tile>, sc: Scorer) {
    forall i, j | 0 <= i < j < |s| :: Score(sc, s[i]) >= Score(sc, s[j])
  }

  /** The tiles of `s` with score `k`, in order. */
  function WithScore(s: seq<Tile>, sc: Scorer, k: int): seq<Tile> {
    if s == [] then [] else (if Score(sc, s[0]) == k then [s[0]] else []) + WithScore(s[1..], sc, k)
  }

  lemma {:induction false} InsertPermutes(t: Tile, sorted: seq<Tile>, sc: Scorer)
    ensures multiset(Insert(t, sorted, sc)) == multiset(sorted) + multiset{t}
    decreases |sorted|
  {
    if !(sorted == [] || Score(sc, t) >= Score(sc, sorted[0])) {
      InsertPermutes(t, sorted[1..], sc);
      SplitHead(sorted);
      assert Insert(t, sorted, sc) == [sorted[0]] + Insert(t, sorted[1..], sc);
      SplitHead(Insert(t, sorted, sc));
    }
  }

  /** The inserted tile goes first, or the first tile stays first. */
  lemma InsertHead(t: Tile, sorted: seq<Tile>, sc: Scorer)
    ensures |Insert(t, sorted, sc)| == |sorted| + 1
    ensures Insert(t, sorted, sc)[0] == t || (sorted != [] && Insert(t, sorted, sc)[0] == sorted[0])
  {
    if !(sorted == [] || Score(sc, t) >= Score(sc, sorted[0])) {
      InsertHead(t, sorted[1..], sc);
    }
  }

  lemma {:induction false} InsertSorted(t: Tile, sorted: seq<Tile>, sc: Scorer)
    requires SortedDesc(sorted, sc)
    ensures SortedDesc(Insert(t, sorted, sc), sc)
    decreases |sorted|
  {
    var r := Insert(t, sorted, sc);
    if sorted == [] || Score(sc, t) >= Score(sc, sorted[0]) {
      assert r == [t] + sorted;
      forall i, j | 0 <= i < j < |r|
        ensures Score(sc, r[i]) >= Score(sc, r[j])
      {
        if i > 0 {
          assert r[i] == sorted[i - 1];
        }
        assert r[j] == sorted[j - 1];
      }
    } else {
      var rest := sorted[1..];
      InsertSorted(t, rest, sc);
      InsertHead(t, rest, sc);
      var ins := Insert(t, rest, sc);
      assert r == [sorted[0]] + ins;
      assert Score(sc, sorted[0]) >= Score(sc, ins[0]) by {
        if ins[0] != t {
          assert ins[0] == sorted[1];
        }
      }
      forall i, j | 0 <= i < j < |r|
        ensures Score(sc, r[i]) >= Score(sc, r[j])
      {
        assert r[j] == ins[j - 1];
        if i > 0 {
          assert r[i] == ins[i - 1];
        } else if j > 1 {
          assert Score(sc, ins[0]) >= Score(sc, ins[j - 1]);
        }
      }
    }
  }

  /** Among tiles of any one score, the inserted tile comes first. */
  lemma {:induction false} InsertStable(t: Tile, sorted: seq<Tile>, sc: Scorer, k: int)
    ensures WithScore(Insert(t, sorted, sc), sc, k) == (if Score(sc, t) == k then [t] else []) + WithScore(sorted, sc, k)
    decreases |sorted|
  {
    var r := Insert(t, sorted, sc);
    if sorted == [] || Score(sc, t) >= Score(sc, sorted[0]) {
      assert r[1..] == sorted;
    } else {
      InsertStable(t, sorted[1..], sc, k);
      assert r[1..] == Insert(t, sorted[1..], sc);
    }
  }

  /** The sorted hand is a permutation of the hand. */
  lemma {:induction false} SortDescPermutes(hand: seq<Tile>, sc: Scorer)
    ensures multiset(SortDesc(hand, sc)) == multiset(hand)
    decreases |hand|
  {
    if hand != [] {
      var rest := SortDesc(hand[1..], sc);
      SortDescPermutes(hand[1..], sc);
      InsertPermutes(hand[0], rest, sc);
      assert SortDesc(hand, sc) == Insert(hand[0], rest, sc);
      SplitHead(hand);
    }
  }

  /** A non-empty sequence holds its head and its tail. */
  lemma SplitHead(s: seq<Tile>)
    requires s != []
    ensures multiset(s) == multiset(s[1..]) + multiset{s[0]}
  {
    assert s == [s[0]] + s[1..];
  }

  /** The sorted hand is in descending score order. */
  lemma {:induction false} SortDescSorted(hand: seq<Tile>, sc: Scorer)
    ensures SortedDesc(SortDesc(hand, sc), sc)
    decreases |hand|
  {
    if hand != [] {
      SortDescSorted(hand[1..], sc);
      InsertSorted(hand[0], SortDesc(hand[1..], sc), sc);
    }
  }

  /** Tiles of equal score keep their hand order (the sort is stable). */
  lemma {:induction false} SortDescStable(hand: seq<Tile>, sc: Scorer, k: int)
    ensures WithScore(SortDesc(hand, sc), sc, k) == WithScore(hand, sc, k)
    decreases |hand|
  {
    if hand != [] {
      SortDescStable(hand[1..], sc, k);
      InsertStable(hand[0], SortDesc(hand[1..], sc), sc, k);
    }
  }

  // ---------------------------------------------------------------------------
  // decideTurn and the three strategies

  /** `easyStrategy`: the first playable tile in hand order, else draw. */
  function EasyStrategy(hand: seq<Tile>, left: int, right: int): Decision {
    Scan(hand, left, right, Draw)
  }

  /** `mediumStrategy`: scan the hand sorted by board-count score, else draw. */
  function MediumStrategy(hand: seq<Tile>, left: int, right: int, gs: GameState): Decision {
    Scan(SortDesc(hand, ByBoard(PipRecord(gs.board))), left, right, Draw)
  }

  /** `hardStrategy`: scan the hand sorted by opponent-count score, else draw while the pile lasts, else pass. */
  function HardStrategy(hand: seq<Tile>, left: int, right: int, gs: GameState, botId: string): Decision {
    Scan(SortDesc(hand, ByOpponents(PipRecord(OpponentPool(gs, botId)))), left, right,
         if |gs.drawPile| > 0 then Draw else Pass)
  }

  /** What `decideTurn` returns for a bot of the given difficulty seated as `botId`. */
  function Decide(difficulty: Difficulty, gs: GameState, botId: string): Decision {
    var hand := Hand(gs, botId);
    var left, right := gs.boardEnds.left, gs.boardEnds.right;
    match difficulty
    case Easy => EasyStrategy(hand, left, right)
    case Medium => MediumStrategy(hand, left, right, gs)
    case Hard => HardStrategy(hand, left, right, gs, botId)
  }

  /** `BotPlayer.decideTurn`. */
  method DecideTurn(difficulty: Difficulty, gs: GameState, botId: string) returns (d: Decision)
    ensures d == Decide(difficulty, gs, botId)
  {
    var hand := Hand(gs, botId);
    var left, right := gs.boardEnds.left, gs.boardEnds.right;
    match difficulty {
      case Easy =>
        d := FirstMatch(hand, left, right, Draw);
      case Medium =>
        var boardNumbers := CountBoardNumbers(gs.board);
        var sortedHand := SortDesc(hand, ByBoard(boardNumbers));
        d := FirstMatch(sortedHand, left, right, Draw);
      case Hard =>
        var opponentNumbers := CountOpponentNumbers(gs, botId);
        var sortedHand := SortDesc(hand, ByOpponents(opponentNumbers));
        d := FirstMatch(sortedHand, left, right, if |gs.drawPile| > 0 then Draw else Pass);
    }
  }

  /** The scorer the difficulty sorts the hand with; the easy bot keeps hand order. */
  function ScorerOf(difficulty: Difficulty, gs: GameState, botId: string): Scorer
    requires difficulty != Easy
  {
    if difficulty == Medium then ByBoard(PipRecord(gs.board))
    else ByOpponents(PipRecord(OpponentPool(gs, botId)))
  }

  /**
   * A bot only ever plays a tile from its hand at an end the tile touches; it draws or
   * passes only when no tile of its hand touches either end; the easy and medium bots never
   * pass, and the hard bot passes exactly when it has nothing to play and the pile is empty.
   */
  lemma DecideSpec(difficulty: Difficulty, gs: GameState, botId: string)
    ensures Decide(difficulty, gs, botId).Play? ==>
              Decide(difficulty, gs, botId).tile in Hand(gs, botId) &&
              Touches(Decide(difficulty, gs, botId).tile, EndAt(gs.boardEnds, Decide(difficulty, gs, botId).side))
    ensures !Decide(difficulty, gs, botId).Play? <==>
              forall i | 0 <= i < |Hand(gs, botId)| :: !Playable(Hand(gs, botId)[i], gs.boardEnds.left, gs.boardEnds.right)
    ensures difficulty != Hard ==> !Decide(difficulty, gs, botId).Pass?
    ensures difficulty == Hard ==>
              (Decide(difficulty, gs, botId).Pass? <==>
                 !Decide(difficulty, gs, botId).Play? && |gs.drawPile| == 0)
  {
    var hand := Hand(gs, botId);
    var fallback := if difficulty == Hard && |gs.drawPile| == 0 then Pass else Draw;
    var order := if difficulty == Easy then hand else SortDesc(hand, ScorerOf(difficulty, gs, botId));
    assert Decide(difficulty, gs, botId) == Scan(order, gs.boardEnds.left, gs.boardEnds.right, fallback);
    if difficulty != Easy {
      SortDescPermutes(hand, ScorerOf(difficulty, gs, botId));
    }
    ScanOfReordering(hand, order, gs.boardEnds.left, gs.boardEnds.right, fallback);
  }

  /** Scanning any reordering of a hand plays a tile of the hand, and falls back exactly when the hand has nothing playable. */
  lemma ScanOfReordering(hand: seq<Tile>, order: seq<Tile>, left: int, right: int, fallback: Decision)
    requires multiset(order) == multiset(hand)
    requires !fallback.Play?
    ensures Scan(order, left, right, fallback).Play? ==>
              Scan(order, left, right, fallback).tile in hand &&
              Touches(Scan(order, left, right, fallback).tile, EndAt(BoardEnds(left, right), Scan(order, left, right, fallback).side))
    ensures Scan(order, left, right, fallback) == fallback || Scan(order, left, right, fallback).Play?
    ensures Scan(order, left, right, fallback) == fallback <==>
              forall i | 0 <= i < |hand| :: !Playable(hand[i], left, right)
  {
    ScanSpec(order, left, right, fallback);
    var d := Scan(order, left, right, fallback);
    if d.Play? {
      var k :| 0 <= k < |order| && order[k] == d.tile && Touches(order[k], EndAt(BoardEnds(left, right), d.side));
      assert order[k] in multiset(order);
    }
    if forall j | 0 <= j < |order| :: !Playable(order[j], left, right) {
      forall i | 0 <= i < |hand|
        ensures !Playable(hand[i], left, right)
      {
        assert hand[i] in multiset(hand);
        var m :| 0 <= m < |order| && order[m] == hand[i];
      }
    } else {
      var j :| 0 <= j < |order| && Playable(order[j], left, right);
      assert order[j] in multiset(order);
      var m :| 0 <= m < |hand| && hand[m] == order[j];
    }
  }

  /**
   * The medium and hard bots play a tile of the highest score among the playable tiles
   * of their hand.
   */
  lemma SortedBotPlaysBestTile(difficulty: Difficulty, gs: GameState, botId: string)
    requires difficulty != Easy
    requires Decide(difficulty, gs, botId).Play?
    ensures forall i | 0 <= i < |Hand(gs, botId)| && Playable(Hand(gs, botId)[i], gs.boardEnds.left, gs.boardEnds.right) ::
              Score(ScorerOf(difficulty, gs, botId), Hand(gs, botId)[i]) <=
              Score(ScorerOf(difficulty, gs, botId), Decide(difficulty, gs, botId).tile)
  {
    var hand := Hand(gs, botId);
    var left, right := gs.boardEnds.left, gs.boardEnds.right;
    var sc := ScorerOf(difficulty, gs, botId);
    var fallback := if difficulty == Hard && |gs.drawPile| == 0 then Pass else Draw;
    var order := SortDesc(hand, sc);
    assert Decide(difficulty, gs, botId) == Scan(order, left, right, fallback);
    SortDescPermutes(hand, sc);
    SortDescSorted(hand, sc);
    ScanOfSortedPlaysBest(hand, order, sc, left, right, fallback);
  }

  /** Scanning a hand sorted by descending score plays a playable tile of the highest score. */
  lemma ScanOfSortedPlaysBest(hand: seq<Tile>, order: seq<Tile>, sc: Scorer, left: int, right: int, fallback: Decision)
    requires multiset(order) == multiset(hand) && SortedDesc(order, sc)
    requires !fallback.Play? && Scan(order, left, right, fallback).Play?
    ensures forall i | 0 <= i < |hand| && Playable(hand[i], left, right) ::
              Score(sc, hand[i]) <= Score(sc, Scan(order, left, right, fallback).tile)
  {
    var d := Scan(order, left, right, fallback);
    ScanSpec(order, left, right, fallback);
    var k :| 0 <= k < |order| && order[k] == d.tile && forall j | 0 <= j < k :: !Playable(order[j], left, right);
    forall i | 0 <= i < |hand| && Playable(hand[i], left, right)
      ensures Score(sc, hand[i]) <= Score(sc, d.tile)
    {
      assert hand[i] in multiset(order);
      var m :| 0 <= m < |order| && order[m] == hand[i];
      assert k <= m;
    }
  }

  /**
   * On the opening board both ends are -1, so no bot ever places the first tile: every
   * decision is a draw or a pass.
   */
  lemma BotNeverOpens(difficulty: Difficulty, gs: GameState, botId: string)
    requires gs.boardEnds == BoardEnds(NoEnd, NoEnd)
    requires forall k | 0 <= k < |Hand(gs, botId)| :: PipsInRange(Hand(gs, botId)[k])
    ensures !Decide(difficulty, gs, botId).Play?
  {
    DecideSpec(difficulty, gs, botId);
  }
}
