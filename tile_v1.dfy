/** The token tables and records of core/src/tile.rs, the vintage that the
    newer tileset parser writes into (`tile.cells`, `TilePoint`). Its `Tile`
    record and `TilePoint::new` are the ones of module `Tile` and `GridCoord`;
    its wall table is `Wall.Parse`. Only the cell table differs. */
module TileV1 {
  import opened Wrappers
  import opened Tokens
  import opened MazingCore
  import opened Cell

  const CellAllowedCharsV1: string := " 1234GOYPgoypct"

  /** `TileCell::parse` of core/src/tile.rs: no crystal ball. */
  function ParseCellV1(b: Byte): (r: Option<TileCell>)
    ensures r.Some? <==> b in CellAllowedCharsV1
    ensures r.Some? ==> !IsUsed(r.value) && !r.value.CrystalBall?
    ensures r.Some? ==> r == Cell.Parse(b)
  {
    match b
    case ' ' => Some(Empty)
    case '1' => Some(Warp(Green))
    case '2' => Some(Warp(Orange))
    case '3' => Some(Warp(Yellow))
    case '4' => Some(Warp(Purple))
    case 'g' => Some(Loot(Green))
    case 'o' => Some(Loot(Orange))
    case 'y' => Some(Loot(Yellow))
    case 'p' => Some(Loot(Purple))
    case 'G' => Some(FinalExit(Green))
    case 'O' => Some(FinalExit(Orange))
    case 'Y' => Some(FinalExit(Yellow))
    case 'P' => Some(FinalExit(Purple))
    case 't' => Some(TimerFlip(Available))
    case 'c' => Some(Camera(Available))
    case _ => None
  }

  const CellTokenV1: TokenParser<TileCell> := TokenParser("TileCell", CellAllowedCharsV1, ParseCellV1)

  /** The cells this table can write: unused, and no crystal ball. */
  predicate IsV1Cell(c: TileCell) {
    !IsUsed(c) && !c.CrystalBall?
  }

  /** The older table is the newer one without `b`. */
  lemma V1TableIsNewerWithoutB(b: Byte, c: TileCell)
    requires IsV1Cell(c)
    ensures ParseCellV1(b) == (if b == 'b' then None else Cell.Parse(b))
    ensures ParseCellV1(CellChar(c)) == Some(c)
  {
    ParseCellChar(c, b);
  }
}
