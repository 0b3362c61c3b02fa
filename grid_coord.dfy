/** `TileGridCoord`: a validated (x, y) index into the 4x4 cell grid
    (crates/m-mazing-core/src/tile/grid_coord.rs; `TilePoint` in core/src/tile.rs). */
module GridCoord {
  import opened Wrappers
  import opened Direction

  /** `Tile::CELL_GRID_WIDTH`. */
  const GridWidth: nat := 4

  type U8 = i: int | 0 <= i < 256
  type I8 = i: int | -128 <= i < 128

  /** An index that passed the `< CELL_GRID_WIDTH` check. */
  type GridIndex = i: int | 0 <= i < 4

  /** `x` goes from left to right, `y` from top to bottom. */
  datatype TileGridCoord = TileGridCoord(x: GridIndex, y: GridIndex)

  /** `TileGridCoord::new` (and the identical `TilePoint::new`). */
  function New(x: U8, y: U8): (r: Option<TileGridCoord>)
    ensures r.Some? <==> x < GridWidth && y < GridWidth
    ensures r.Some? ==> r.value.x == x && r.value.y == y
  {
    if x < GridWidth && y < GridWidth then Some(TileGridCoord(x, y)) else None
  }

  /** `added`: the sum is formed in `i8` (the caller keeps it below 128, as a
      debug build panics on overflow), a negative sum fails the conversion to
      `u8`, and a sum of 4 or more fails in `new`. */
  function Added(c: TileGridCoord, dx: I8, dy: I8): (r: Option<TileGridCoord>)
    requires c.x + dx < 128 && c.y + dy < 128
    ensures r.Some? <==> 0 <= c.x + dx < GridWidth && 0 <= c.y + dy < GridWidth
    ensures r.Some? ==> r.value.x == c.x + dx && r.value.y == c.y + dy
  {
    var nx := c.x + dx;
    var ny := c.y + dy;
    if nx < 0 then None
    else if ny < 0 then None
    else New(nx, ny)
  }

  /** `as_rotated`: a quarter turn of the grid about its centre. */
  function AsRotated(c: TileGridCoord, spin: SpinDirection): (r: TileGridCoord)
    ensures spin == Clockwise ==> r.x == GridWidth - 1 - c.y && r.y == c.x
    ensures spin == CounterClockwise ==> r.x == c.y && r.y == GridWidth - 1 - c.x
  {
    match spin
    case Clockwise => TileGridCoord(3 - c.y, c.x)
    case CounterClockwise => TileGridCoord(c.y, 3 - c.x)
  }

  function Reverse(spin: SpinDirection): SpinDirection {
    match spin
    case Clockwise => CounterClockwise
    case CounterClockwise => Clockwise
  }

  /** `rotate(&mut self)`: the coordinate is replaced by its rotation. */
  method Rotate(c: TileGridCoord, spin: SpinDirection) returns (c': TileGridCoord)
    ensures c' == AsRotated(c, spin)
    ensures AsRotated(c', Reverse(spin)) == c
  {
    c' := AsRotated(c, spin);
  }

  /** A turn followed by the opposite turn changes nothing. */
  lemma RotateReverse(c: TileGridCoord, spin: SpinDirection)
    ensures AsRotated(AsRotated(c, spin), Reverse(spin)) == c
  {
  }

  /** Four turns the same way change nothing; two turns either way agree. */
  lemma RotateFour(c: TileGridCoord, spin: SpinDirection)
    ensures AsRotated(AsRotated(AsRotated(AsRotated(c, spin), spin), spin), spin) == c
    ensures AsRotated(AsRotated(c, Clockwise), Clockwise)
         == AsRotated(AsRotated(c, CounterClockwise), CounterClockwise)
  {
  }

  /** The derived `Ord`: lexicographic on `x`, then `y`. */
  predicate Less(a: TileGridCoord, b: TileGridCoord) {
    a.x < b.x || (a.x == b.x && a.y < b.y)
  }

  /** Position of a coordinate in the derived order. */
  function Rank(c: TileGridCoord): (k: nat)
    ensures k < 16 && c == CoordOfRank(k)
  {
    4 * c.x + c.y
  }

  function CoordOfRank(k: nat): (c: TileGridCoord)
    requires k < 16
  {
    TileGridCoord(k / 4, k % 4)
  }

  /** The derived order is a strict total order, and it is the order of ranks. */
  lemma LessIsRankOrder(a: TileGridCoord, b: TileGridCoord)
    ensures Less(a, b) <==> Rank(a) < Rank(b)
    ensures Less(a, b) || a == b || Less(b, a)
    ensures !(Less(a, b) && Less(b, a))
  {
  }

  /** All sixteen coordinates in ascending order. */
  function AllCoords(): (r: seq<TileGridCoord>)
    ensures |r| == 16
    ensures forall k :: 0 <= k < 16 ==> r[k] == CoordOfRank(k)
  {
    seq(16, k requires 0 <= k < 16 => CoordOfRank(k))
  }

  lemma AllCoordsAscending()
    ensures |AllCoords()| == 16
    ensures forall c: TileGridCoord :: AllCoords()[Rank(c)] == c
    ensures forall i, j :: 0 <= i < j < 16 ==> Less(AllCoords()[i], AllCoords()[j])
  {
  }
}
