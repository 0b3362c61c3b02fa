/** The oldest tile vintage, src/tile.rs: its own cell alphabet (with
    `Inaccessible`, without crystal balls) and its own `Tile` record. Its wall
    table is `Wall.Parse`. */
module LegacyTile {
  import opened Wrappers
  import opened Tokens
  import opened MazingCore
  import opened Wall
  import opened Escalator
  import Cell

  datatype LegacyCell =
    | Empty
    | Inaccessible
    | Warp(pawn: Pawn)
    | TimerFlip(avail: Cell.CellItemAvailability)
    | Camera(avail: Cell.CellItemAvailability)
    | Loot(pawn: Pawn)
    | FinalExit(pawn: Pawn)

  /** `Default for TileCell`. */
  const DefaultLegacyCell: LegacyCell := Empty

  const LegacyCellAllowedChars: string := " 1234GOYPgoypcXt"

  /** `TileCell::parse` of src/tile.rs. */
  function ParseLegacyCell(b: Byte): (r: Option<LegacyCell>)
    ensures r.Some? <==> b in LegacyCellAllowedChars
    ensures r == Some(Inaccessible) <==> b == 'X'
    ensures r.Some? && (r.value.TimerFlip? || r.value.Camera?) ==> r.value.avail == Cell.Available
  {
    match b
    case ' ' => Some(Empty)
    case 'X' => Some(Inaccessible)
    case '1' => Some(Warp(Green))
    case '2' => Some(Warp(Orange))
    case '3' => Some(Warp(Yellow))
    case '4' => Some(Warp(Purple))
    case 'g' => Some(Loot(Green))
    case 'o' => Some(Loot(Orange))
    case 'y' => Some(Loot(Yellow))
    case 'p' => Some(Loot(Purple))
    case 'G' => Some(FinalExit(Green))
    case 'O' => Some(FinalExit(Orange))
    case 'Y' => Some(FinalExit(Yellow))
    case 'P' => Some(FinalExit(Purple))
    case 't' => Some(TimerFlip(Cell.Available))
    case 'c' => Some(Camera(Cell.Available))
    case _ => None
  }

  const LegacyCellToken: TokenParser<LegacyCell> :=
    TokenParser("TileCell", LegacyCellAllowedChars, ParseLegacyCell)

  /** Cells whose timer or camera is still available: those the table writes. */
  predicate IsWritable(c: LegacyCell) {
    (c.TimerFlip? || c.Camera?) ==> c.avail == Cell.Available
  }

  /** The character that writes a legacy cell. */
  function LegacyCellChar(c: LegacyCell): Byte
    requires IsWritable(c)
  {
    match c
    case Empty => ' '
    case Inaccessible => 'X'
    case Warp(Green) => '1'
    case Warp(Orange) => '2'
    case Warp(Yellow) => '3'
    case Warp(Purple) => '4'
    case Loot(Green) => 'g'
    case Loot(Orange) => 'o'
    case Loot(Yellow) => 'y'
    case Loot(Purple) => 'p'
    case FinalExit(Green) => 'G'
    case FinalExit(Orange) => 'O'
    case FinalExit(Yellow) => 'Y'
    case FinalExit(Purple) => 'P'
    case TimerFlip(_) => 't'
    case Camera(_) => 'c'
  }

  /** The legacy table is a bijection between its characters and the writable cells. */
  lemma ParseLegacyCellChar(c: LegacyCell)
    requires IsWritable(c)
    ensures ParseLegacyCell(LegacyCellChar(c)) == Some(c)
  {
    match c
    case Warp(p) => assert p == Green || p == Orange || p == Yellow || p == Purple;
    case Loot(p) => assert p == Green || p == Orange || p == Yellow || p == Purple;
    case FinalExit(p) => assert p == Green || p == Orange || p == Yellow || p == Purple;
    case _ =>
  }

  /** The `Tile` record of src/tile.rs; its parser never fills `escalators`. */
  datatype LegacyTileRecord = LegacyTileRecord(
    cells: seq<seq<LegacyCell>>,
    horzWalls: seq<seq<WallState>>,
    vertWalls: seq<seq<WallState>>,
    escalators: seq<Escalator>)
  {
    ghost predicate Valid() {
      && |cells| == 4 && (forall r :: 0 <= r < 4 ==> |cells[r]| == 4)
      && |horzWalls| == 5 && (forall r :: 0 <= r < 5 ==> |horzWalls[r]| == 4)
      && |vertWalls| == 4 && (forall r :: 0 <= r < 4 ==> |vertWalls[r]| == 5)
      && |escalators| <= 4
    }
  }

  /** `Tile::default()`. */
  function DefaultLegacyTile(): (t: LegacyTileRecord)
    ensures t.Valid() && t.escalators == []
    ensures forall r, c :: 0 <= r < 4 && 0 <= c < 4 ==> t.cells[r][c] == Empty
    ensures forall r, c :: 0 <= r < 5 && 0 <= c < 4 ==> t.horzWalls[r][c] == Open
    ensures forall r, c :: 0 <= r < 4 && 0 <= c < 5 ==> t.vertWalls[r][c] == Open
  {
    LegacyTileRecord(
      seq(4, _ => seq(4, _ => Empty)),
      seq(5, _ => seq(4, _ => Open)),
      seq(4, _ => seq(5, _ => Open)),
      [])
  }
}
