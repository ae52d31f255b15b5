/**
 * Domino tiles, the 28-tile set and hand scores
 * (src/game/interfaces/tile.interface.ts, src/game/utils/generate.util.ts,
 * src/game/utils/score.util.ts).
 */
module Tiles {

  /** A tile as the engine compares it: two pip values in the order they were given. */
  datatype Tile = Tile(left: int, right: int)

  /** The end of the board a tile is played at. */
  datatype Side = Left | Right

  predicate IsDouble(t: Tile) {
    t.left == t.right
  }

  /** One of the tile's pips equals `end`. */
  predicate Touches(t: Tile, end: int) {
    t.left == end || t.right == end
  }

  /** The tile with its pips swapped. */
  function Flip(t: Tile): (f: Tile)
    ensures f.left == t.right && f.right == t.left
  {
    Tile(t.right, t.left)
  }

  /** `(a,b)` and `(b,a)` are the same physical tile. */
  predicate SameTile(a: Tile, b: Tile) {
    (a.left == b.left && a.right == b.right) || (a.left == b.right && a.right == b.left)
  }

  /** Orientation-insensitive membership (`playerHasTile`, `tileInArray`). */
  predicate HasSameTile(tiles: seq<Tile>, tile: Tile) {
    exists i | 0 <= i < |tiles| :: SameTile(tiles[i], tile)
  }

  /**
   * Turning a tile twice gives it back; only a double reads the same turned; and the
   * turned tile is the same physical tile, so a hand holds one exactly when it holds the other.
   */
  lemma FlipSpec(t: Tile, tiles: seq<Tile>)
    ensures Flip(Flip(t)) == t
    ensures Flip(t) == t <==> t.left == t.right
    ensures SameTile(Flip(t), t)
    ensures HasSameTile(tiles, Flip(t)) <==> HasSameTile(tiles, t)
  {
    HasSameTileFlip(tiles, t);
  }

  lemma HasSameTileFlip(tiles: seq<Tile>, tile: Tile)
    ensures HasSameTile(tiles, Flip(tile)) <==> HasSameTile(tiles, tile)
  {
  }

  /** A tile of the standard double-six set, written with its smaller pip first. */
  predicate Canonical(t: Tile) {
    0 <= t.left <= t.right <= 6
  }

  /** Both pips in 0..6, in either order. */
  predicate PipsInRange(t: Tile) {
    0 <= t.left <= 6 && 0 <= t.right <= 6
  }

  // ---------------------------------------------------------------------------
  // calculateHandScore: `hand.reduce((sum, tile) => sum + tile.left + tile.right, 0)`

  /** The pip total of a hand, folded from the first tile to the last. */
  function HandScore(hand: seq<Tile>): int
  {
    if hand == [] then 0
    else HandScore(hand[..|hand| - 1]) + hand[|hand| - 1].left + hand[|hand| - 1].right
  }

  /** The score is additive over concatenation of hands. */
  lemma {:induction false} HandScoreAppend(a: seq<Tile>, b: seq<Tile>)
    ensures HandScore(a + b) == HandScore(a) + HandScore(b)
    decreases |b|
  {
    if b == [] {
      assert a + b == a;
    } else {
      var b' := b[..|b| - 1];
      assert (a + b)[..|a + b| - 1] == a + b';
      HandScoreAppend(a, b');
    }
  }

  /** The score of a hand is the sum over its tiles taken from the front. */
  lemma HandScoreCons(t: Tile, rest: seq<Tile>)
    ensures HandScore([t] + rest) == t.left + t.right + HandScore(rest)
  {
    HandScoreAppend([t], rest);
    assert [t][..0] == [];
  }

  /** Swapping one tile's orientation does not change the score. */
  lemma HandScoreFlipAt(hand: seq<Tile>, i: nat)
    requires i < |hand|
    ensures HandScore(hand[i := Flip(hand[i])]) == HandScore(hand)
  {
    var pre, post := hand[..i], hand[i + 1..];
    assert hand == pre + ([hand[i]] + post);
    assert hand[i := Flip(hand[i])] == pre + ([Flip(hand[i])] + post);
    HandScoreAppend(pre, [hand[i]] + post);
    HandScoreAppend(pre, [Flip(hand[i])] + post);
    HandScoreCons(hand[i], post);
    HandScoreCons(Flip(hand[i]), post);
  }

  /** A hand of standard tiles scores at least 0 and at most 12 per tile. */
  lemma {:induction false} HandScoreBounds(hand: seq<Tile>)
    requires forall i | 0 <= i < |hand| :: PipsInRange(hand[i])
    ensures 0 <= HandScore(hand) <= 12 * |hand|
  {
    if hand != [] {
      HandScoreBounds(hand[..|hand| - 1]);
    }
  }

  // ---------------------------------------------------------------------------
  // generateAllTiles: `for i in 0..6 { for j in i..6 { tiles.push({left: i, right: j}) } }`

  /** The tiles the inner loop pushes for outer value `i`, from inner value `j` on. */
  function Row(i: int, j: int): seq<Tile>
    decreases 7 - j
  {
    if j > 6 then [] else [Tile(i, j)] + Row(i, j + 1)
  }

  /** The tiles the outer loop pushes from outer value `i` on. */
  function TilesFrom(i: int): seq<Tile>
    decreases 7 - i
  {
    if i > 6 then [] else Row(i, i) + TilesFrom(i + 1)
  }

  /** The full double-six set, in generation order. */
  function AllTiles(): seq<Tile> {
    TilesFrom(0)
  }

  /** The inner loop of `generateAllTiles`: pushes the tiles `(i, i)` .. `(i, 6)`. */
  method PushRow(tiles: seq<Tile>, i: int) returns (pushed: seq<Tile>)
    requires 0 <= i <= 6
    ensures pushed == tiles + Row(i, i)
  {
    pushed := tiles;
    var j := i;
    while j <= 6
      invariant i <= j <= 7
      invariant pushed + Row(i, j) == tiles + Row(i, i)
    {
      assert Row(i, j) == [Tile(i, j)] + Row(i, j + 1);
      pushed := pushed + [Tile(i, j)];
      j := j + 1;
    }
    assert Row(i, 7) == [];
  }

  method GenerateAllTiles() returns (tiles: seq<Tile>)
    ensures tiles == AllTiles()
  {
    tiles := [];
    var i := 0;
    ghost var first := i;
    while i <= 6
      invariant 0 <= i <= 7
      invariant tiles + TilesFrom(i) == TilesFrom(first)
    {
      ghost var before := tiles;
      tiles := PushRow(tiles, i);
      TilesFromStep(before, i);
      i := i + 1;
    }
    EndOfTiles(tiles);
  }

  /** One turn of the outer loop moves row `i` from the tiles still to come to the tiles pushed. */
  lemma TilesFromStep(pushed: seq<Tile>, i: int)
    requires 0 <= i <= 6
    ensures (pushed + Row(i, i)) + TilesFrom(i + 1) == pushed + TilesFrom(i)
  {
    assert TilesFrom(i) == Row(i, i) + TilesFrom(i + 1);
  }

  /** Nothing is pushed once the outer value passes 6. */
  lemma EndOfTiles(pushed: seq<Tile>)
    ensures pushed + TilesFrom(7) == pushed
  {
    assert TilesFrom(7) == [];
  }

  lemma {:induction false} RowShape(i: int, j: int)
    requires 0 <= j <= 7
    ensures |Row(i, j)| == 7 - j
    ensures forall k | 0 <= k < |Row(i, j)| :: Row(i, j)[k] == Tile(i, j + k)
    decreases 7 - j
  {
    if j <= 6 {
      RowShape(i, j + 1);
    }
  }

  function Triangle(n: nat): nat {
    if n == 0 then 0 else n + Triangle(n - 1)
  }

  lemma {:induction false} TilesFromLength(i: int)
    requires 0 <= i <= 7
    ensures |TilesFrom(i)| == Triangle(7 - i)
    decreases 7 - i
  {
    if i <= 6 {
      RowShape(i, i);
      TilesFromLength(i + 1);
    }
  }

  /** `generateAllTiles` returns exactly 28 tiles. */
  lemma AllTilesCount()
    ensures |AllTiles()| == 28
  {
    TilesFromLength(0);
    assert Triangle(7) == 28;
  }

  lemma {:induction false} RowMembers(i: int, j: int)
    requires 0 <= j <= 7
    ensures forall t :: t in Row(i, j) <==> t.left == i && j <= t.right <= 6
  {
    RowShape(i, j);
    forall t: Tile | t.left == i && j <= t.right <= 6
      ensures t in Row(i, j)
    {
      assert Row(i, j)[t.right - j] == t;
    }
  }

  lemma {:induction false} TilesFromMembers(i: int)
    requires 0 <= i <= 7
    ensures forall t :: t in TilesFrom(i) <==> i <= t.left && Canonical(t)
    decreases 7 - i
  {
    if i <= 6 {
      RowMembers(i, i);
      TilesFromMembers(i + 1);
      var row, rest := Row(i, i), TilesFrom(i + 1);
      assert TilesFrom(i) == row + rest;
      forall t
        ensures t in TilesFrom(i) <==> i <= t.left && Canonical(t)
      {
        assert t in row + rest <==> t in row || t in rest;
      }
    } else {
      assert TilesFrom(i) == [];
    }
  }

  /** Every tile satisfies 0 <= left <= right <= 6, and every such pair occurs. */
  lemma AllTilesMembers()
    ensures forall t :: t in AllTiles() <==> Canonical(t)
  {
    TilesFromMembers(0);
  }

  /** Strict lexicographic order on (left, right). */
  predicate LexLess(a: Tile, b: Tile) {
    a.left < b.left || (a.left == b.left && a.right < b.right)
  }

  lemma {:induction false} TilesFromSorted(i: int)
    requires 0 <= i <= 7
    ensures forall p, q | 0 <= p < q < |TilesFrom(i)| :: LexLess(TilesFrom(i)[p], TilesFrom(i)[q])
    decreases 7 - i
  {
    if i <= 6 {
      RowShape(i, i);
      TilesFromSorted(i + 1);
      TilesFromMembers(i + 1);
      var row, rest := Row(i, i), TilesFrom(i + 1);
      assert TilesFrom(i) == row + rest;
      forall p, q | 0 <= p < q < |row + rest|
        ensures LexLess((row + rest)[p], (row + rest)[q])
      {
        if q < |row| {
        } else if p < |row| {
          assert rest[q - |row|] in rest;
        } else {
          assert (row + rest)[p] == rest[p - |row|];
          assert (row + rest)[q] == rest[q - |row|];
        }
      }
    }
  }

  /** The tiles come in strictly increasing (left, right) order. */
  lemma AllTilesSorted()
    ensures forall p, q | 0 <= p < q < |AllTiles()| :: LexLess(AllTiles()[p], AllTiles()[q])
  {
    TilesFromSorted(0);
  }

  /** No two tiles of the set are the same tile, even up to swapping pips. */
  lemma AllTilesDistinct()
    ensures forall p, q | 0 <= p < q < |AllTiles()| :: !SameTile(AllTiles()[p], AllTiles()[q])
  {
    AllTilesSorted();
    AllTilesMembers();
    var all := AllTiles();
    forall p, q | 0 <= p < q < |all|
      ensures !SameTile(all[p], all[q])
    {
      assert all[p] in all && all[q] in all;
    }
  }
}
