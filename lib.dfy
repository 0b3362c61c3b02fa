/** Crate-level items of crates/m-mazing-core/src/lib.rs: the pawn colours,
    `GameState` and the verbosity-to-log-level rule. */
module MazingCore {
  import opened Wrappers
  import opened Role

  datatype Pawn = Green | Orange | Yellow | Purple

  type I32 = i: int | -0x8000_0000 <= i < 0x8000_0000

  datatype Level = ERROR | WARN | INFO | DEBUG | TRACE

  /** The `levels` table of `log_level`, least verbose first. */
  const Levels: seq<Level> := [ERROR, WARN, INFO, DEBUG, TRACE]

  /** Position of a level in `Levels`. */
  function Verbosity(l: Level): (k: nat)
    ensures k < |Levels| && Levels[k] == l
  {
    match l
    case ERROR => 0
    case WARN => 1
    case INFO => 2
    case DEBUG => 3
    case TRACE => 4
  }

  function Clamp(v: int, lo: int, hi: int): (r: int)
    requires lo <= hi
    ensures lo <= r <= hi
    ensures lo <= v <= hi ==> r == v
    ensures v < lo ==> r == lo
    ensures v > hi ==> r == hi
  {
    if v < lo then lo else if v > hi then hi else v
  }

  /** `log_level`: `2 + verbose - quiet` is computed in `i32` (the CLI never
      passes counts that overflow it; a debug build would panic) and clamped
      to an index of `Levels`. */
  function LogLevel(verbose: I32, quiet: I32): (level: Level)
    requires -0x8000_0000 <= 2 + verbose < 0x8000_0000
    requires -0x8000_0000 <= 2 + verbose - quiet < 0x8000_0000
    ensures Verbosity(level) == Clamp(2 + verbose - quiet, 0, |Levels| - 1)
  {
    var levelCount := 2 + verbose - quiet;
    var idx := Clamp(levelCount, 0, |Levels| - 1);
    Levels[idx]
  }

  /** No flags gives INFO; the level is monotone in both counts and saturates. */
  lemma LogLevelMonotone(v1: I32, v2: I32, q1: I32, q2: I32)
    requires v1 <= v2 && q2 <= q1
    requires -0x8000_0000 <= 2 + v1 < 0x8000_0000 && -0x8000_0000 <= 2 + v1 - q1 < 0x8000_0000
    requires -0x8000_0000 <= 2 + v2 < 0x8000_0000 && -0x8000_0000 <= 2 + v2 - q2 < 0x8000_0000
    ensures LogLevel(0, 0) == INFO
    ensures Verbosity(LogLevel(v1, q1)) <= Verbosity(LogLevel(v2, q2))
    ensures v2 - q2 >= 2 ==> LogLevel(v2, q2) == TRACE
    ensures v1 - q1 <= -2 ==> LogLevel(v1, q1) == ERROR
  {
  }

  /** `GameState`: the player count and the role table chosen for it. */
  datatype GameState = GameState(numPlayers: U8, roles: seq<seq<BoardAction>>)

  /** `GameState::new`: exists exactly when there is a role table for the count. */
  function NewGameState(numPlayers: U8): (r: Option<GameState>)
    ensures r.Some? <==> GameRoles(numPlayers).Some?
    ensures r.Some? ==> r.value.numPlayers == numPlayers && r.value.roles == GameRoles(numPlayers).value
  {
    match GameRoles(numPlayers)
    case None => None
    case Some(roles) => Some(GameState(numPlayers, roles))
  }

  /** `GameState::num_players`. */
  function NumPlayers(g: GameState): (n: U8)
    ensures n == g.numPlayers
  {
    g.numPlayers
  }

  /** A game state can only be made for a single player. */
  lemma OnlySoloGames(n: U8)
    ensures NewGameState(n).Some? <==> n == 1
    ensures NewGameState(n).Some? ==> NumPlayers(NewGameState(n).value) == n
  {
  }
}
