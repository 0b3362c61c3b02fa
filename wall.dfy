/** `WallState` and its token table (core/src/tile/wall.rs; the tables in
    core/src/tile.rs and src/tile.rs are the same). */
module Wall {
  import opened Wrappers
  import opened Tokens
  import opened MazingCore

  datatype WallState = Open | Blocked | Explore(pawn: Pawn) | Entrance

  const WallAllowedChars: string := " -|^5678"

  /** `WallState::parse`. */
  function Parse(b: Byte): (r: Option<WallState>)
    ensures r.Some? <==> b in WallAllowedChars
    ensures r == Some(Blocked) <==> b == '-' || b == '|'
  {
    match b
    case '-' => Some(Blocked)
    case '|' => Some(Blocked)
    case ' ' => Some(Open)
    case '5' => Some(Explore(Green))
    case '6' => Some(Explore(Orange))
    case '7' => Some(Explore(Yellow))
    case '8' => Some(Explore(Purple))
    case '^' => Some(Entrance)
    case _ => None
  }

  const WallToken: TokenParser<WallState> := TokenParser("Wall", WallAllowedChars, Parse)

  /** `Default for WallState`. */
  const DefaultWall: WallState := Open

  /** The character that writes `w`, `blocked` being the one used for `Blocked`
      (`-` in wall rows, `|` in cell rows). */
  function WallChar(w: WallState, blocked: Byte): Byte {
    match w
    case Open => ' '
    case Blocked => blocked
    case Explore(Green) => '5'
    case Explore(Orange) => '6'
    case Explore(Yellow) => '7'
    case Explore(Purple) => '8'
    case Entrance => '^'
  }

  /** `WallChar` is a right inverse of `parse`, and `parse` is injective apart
      from the `-`/`|` pair. */
  lemma ParseWallChar(w: WallState, blocked: Byte, b: Byte)
    requires blocked == '-' || blocked == '|'
    ensures Parse(WallChar(w, blocked)) == Some(w)
    ensures Parse(b) == Some(w) ==> b == WallChar(w, b) && (w == Blocked || b == WallChar(w, blocked))
  {
  }
}
