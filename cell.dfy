/** `TileCell`, the contents of one grid cell, and its token table
    (core/src/tile/cell.rs). */
module Cell {
  import opened Wrappers
  import opened Tokens
  import opened MazingCore

  datatype CellItemAvailability = Available | Used

  datatype TileCell =
    | Empty
    | Warp(pawn: Pawn)
    | TimerFlip(avail: CellItemAvailability)
    | Camera(avail: CellItemAvailability)
    | Loot(pawn: Pawn)
    | FinalExit(pawn: Pawn)
    | CrystalBall(avail: CellItemAvailability)

  /** `Default for TileCell`. */
  const DefaultCell: TileCell := Empty

  /** The variants that carry an availability. */
  predicate HasAvailability(c: TileCell) {
    c.TimerFlip? || c.Camera? || c.CrystalBall?
  }

  /** `is_used`. */
  predicate IsUsed(c: TileCell): (b: bool)
    ensures b <==> c == TimerFlip(Used) || c == Camera(Used) || c == CrystalBall(Used)
  {
    HasAvailability(c) && c.avail == Used
  }

  /** The value `set_availability` leaves behind. */
  function WithAvailability(c: TileCell, a: CellItemAvailability): TileCell {
    match c
    case TimerFlip(_) => TimerFlip(a)
    case Camera(_) => Camera(a)
    case CrystalBall(_) => CrystalBall(a)
    case _ => c
  }

  /** `set_availability(&mut self)`: overwrites the availability of a stateful
      cell and leaves every other cell as it is. */
  method SetAvailability(c: TileCell, newUsed: CellItemAvailability) returns (c': TileCell)
    ensures c' == WithAvailability(c, newUsed)
    ensures HasAvailability(c') == HasAvailability(c)
    ensures HasAvailability(c) ==> c'.avail == newUsed
    ensures HasAvailability(c) ==> IsUsed(c') == (newUsed == Used)
    ensures !HasAvailability(c) ==> c' == c
    ensures c.TimerFlip? == c'.TimerFlip? && c.Camera? == c'.Camera? && c.CrystalBall? == c'.CrystalBall?
  {
    match c
    case TimerFlip(_) => c' := TimerFlip(newUsed);
    case Camera(_) => c' := Camera(newUsed);
    case CrystalBall(_) => c' := CrystalBall(newUsed);
    case _ => c' := c;
  }

  /** Setting the availability twice is setting it once; the variant never changes. */
  lemma WithAvailabilityIdempotent(c: TileCell, a: CellItemAvailability, b: CellItemAvailability)
    ensures WithAvailability(WithAvailability(c, a), a) == WithAvailability(c, a)
    ensures WithAvailability(WithAvailability(c, b), a) == WithAvailability(c, a)
    ensures IsUsed(WithAvailability(c, a)) <==> HasAvailability(c) && a == Used
  {
  }

  const CellAllowedChars: string := " 1234GOYPgoypctb"

  /** `TileCell::parse`. */
  function Parse(b: Byte): (r: Option<TileCell>)
    ensures r.Some? <==> b in CellAllowedChars
    ensures r.Some? ==> !IsUsed(r.value)
  {
    match b
    case ' ' => Some(Empty)
    case '1' => Some(Warp(Green))
    case '2' => Some(Warp(Orange))
    case '3' => Some(Warp(Yellow))
    case '4' => Some(Warp(Purple))
    case 'g' => Some(Loot(Green))
    case 'o' => Some(Loot(Orange))
    case 'y' => Some(Loot(Yellow))
    case 'p' => Some(Loot(Purple))
    case 'G' => Some(FinalExit(Green))
    case 'O' => Some(FinalExit(Orange))
    case 'Y' => Some(FinalExit(Yellow))
    case 'P' => Some(FinalExit(Purple))
    case 't' => Some(TimerFlip(Available))
    case 'c' => Some(Camera(Available))
    case 'b' => Some(CrystalBall(Available))
    case _ => None
  }

  const CellToken: TokenParser<TileCell> := TokenParser("TileCell", CellAllowedChars, Parse)

  /** The character that writes an unused cell. */
  function CellChar(c: TileCell): Byte
    requires !IsUsed(c)
  {
    match c
    case Empty => ' '
    case Warp(Green) => '1'
    case Warp(Orange) => '2'
    case Warp(Yellow) => '3'
    case Warp(Purple) => '4'
    case Loot(Green) => 'g'
    case Loot(Orange) => 'o'
    case Loot(Yellow) => 'y'
    case Loot(Purple) => 'p'
    case FinalExit(Green) => 'G'
    case FinalExit(Orange) => 'O'
    case FinalExit(Yellow) => 'Y'
    case FinalExit(Purple) => 'P'
    case TimerFlip(_) => 't'
    case Camera(_) => 'c'
    case CrystalBall(_) => 'b'
  }

  /** `parse` is a bijection between `ALLOWED_CHARS` and the unused cells. */
  lemma ParseCellChar(c: TileCell, b: Byte)
    requires !IsUsed(c)
    ensures Parse(CellChar(c)) == Some(c)
    ensures Parse(b) == Some(c) ==> b == CellChar(c)
  {
    CellCharParses(c);
    if Parse(b).Some? {
      CharOfParse(b);
    }
  }

  lemma CellCharParses(c: TileCell)
    requires !IsUsed(c)
    ensures Parse(CellChar(c)) == Some(c)
  {
    match c
    case Warp(p) => assert p == Green || p == Orange || p == Yellow || p == Purple;
    case Loot(p) => assert p == Green || p == Orange || p == Yellow || p == Purple;
    case FinalExit(p) => assert p == Green || p == Orange || p == Yellow || p == Purple;
    case _ =>
  }

  lemma CharOfParse(b: Byte)
    requires Parse(b).Some?
    ensures CellChar(Parse(b).value) == b
  {
  }
}
