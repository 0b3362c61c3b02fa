/** The single-byte token alphabet shared by the tile parsers: the byte type,
    the `TileTokenParse` interface (a display name, the accepted characters and
    a byte parser) and ASCII helpers. */
module Tokens {
  import opened Wrappers

  /** A `u8` of the input, kept as the Latin-1 character it denotes. */
  type Byte = c: char | c as int < 256 witness ' '

  /** One input line, line terminator already removed. */
  type Line = seq<Byte>

  /** What an implementation of `TileTokenParse` supplies: `NAME`,
      `ALLOWED_CHARS` and `parse`. */
  datatype TokenParser<T> = TokenParser(name: string, allowed: string, parse: Byte -> Option<T>)

  predicate IsAscii(s: Line) {
    forall i :: 0 <= i < |s| ==> s[i] as int < 128
  }

  /** The ASCII whitespace that `str::trim` removes. */
  predicate IsAsciiWhitespace(b: Byte) {
    b == ' ' || 9 <= b as int <= 13
  }
}
