/** The standard-library string operations the escalator line uses, on bytes:
    `str::trim` (ASCII whitespace), `str::split` on one separator byte and
    `char::to_digit(10)`. */
module Text {
  import opened Wrappers
  import opened Tokens

  /** Drops leading whitespace: what is left is a suffix, everything dropped
      is whitespace, and what is left does not start with whitespace. */
  function TrimStart(s: Line): (r: Line)
    ensures |r| <= |s| && r == s[|s| - |r|..]
    ensures forall i :: 0 <= i < |s| - |r| ==> IsAsciiWhitespace(s[i])
    ensures r != [] ==> !IsAsciiWhitespace(r[0])
  {
    if s != [] && IsAsciiWhitespace(s[0]) then TrimStart(s[1..]) else s
  }

  /** Drops trailing whitespace, symmetrically. */
  function TrimEnd(s: Line): (r: Line)
    ensures |r| <= |s| && r == s[..|r|]
    ensures forall i :: |r| <= i < |s| ==> IsAsciiWhitespace(s[i])
    ensures r != [] ==> !IsAsciiWhitespace(r[|r| - 1])
  {
    if s != [] && IsAsciiWhitespace(s[|s| - 1]) then TrimEnd(s[..|s| - 1]) else s
  }

  /** How many bytes `TrimStart` drops. */
  function LeadingSpace(s: Line): nat {
    |s| - |TrimStart(s)|
  }

  /** `str::trim`: the infix between the leading and trailing whitespace. */
  function Trim(s: Line): (r: Line)
    ensures var a := LeadingSpace(s);
      a + |r| <= |s| && r == s[a..a + |r|] &&
      (forall i :: 0 <= i < a ==> IsAsciiWhitespace(s[i])) &&
      (forall i :: a + |r| <= i < |s| ==> IsAsciiWhitespace(s[i]))
    ensures r != [] ==> !IsAsciiWhitespace(r[0]) && !IsAsciiWhitespace(r[|r| - 1])
  {
    var t := TrimStart(s);
    var r := TrimEnd(t);
    var a := LeadingSpace(s);
    assert r == s[a..a + |r|];
    r
  }

  /** Text without whitespace at either end is its own trim. */
  lemma TrimKeeps(s: Line)
    requires s != [] ==> !IsAsciiWhitespace(s[0]) && !IsAsciiWhitespace(s[|s| - 1])
    ensures Trim(s) == s
  {
  }

  /** A leading whitespace byte makes no difference to the trim. */
  lemma TrimDropsLeadingSpace(b: Byte, s: Line)
    requires IsAsciiWhitespace(b)
    ensures Trim([b] + s) == Trim(s)
  {
    assert ([b] + s)[1..] == s;
    assert TrimStart([b] + s) == TrimStart(s);
  }

  /** `sep`-separated pieces joined back together. */
  function Join(pieces: seq<Line>, sep: Byte): Line
    requires |pieces| >= 1
  {
    if |pieces| == 1 then pieces[0] else pieces[0] + [sep] + Join(pieces[1..], sep)
  }

  predicate Unseparated(piece: Line, sep: Byte) {
    forall i :: 0 <= i < |piece| ==> piece[i] != sep
  }

  /** The pieces of `s`, the current one started in `cur`. */
  function SplitFrom(s: Line, sep: Byte, cur: Line): (r: seq<Line>)
    requires Unseparated(cur, sep)
    ensures |r| >= 1 && Join(r, sep) == cur + s
    ensures forall k :: 0 <= k < |r| ==> Unseparated(r[k], sep)
    decreases |s|
  {
    if s == [] then
      [cur]
    else if s[0] == sep then
      var rest := SplitFrom(s[1..], sep, []);
      assert [s[0]] + s[1..] == s;
      [cur] + rest
    else
      var r := SplitFrom(s[1..], sep, cur + [s[0]]);
      assert cur + [s[0]] + s[1..] == cur + s;
      r
  }

  /** `str::split` on one byte: always at least one piece, none containing the
      separator, and joining them gives `s` back. */
  function Split(s: Line, sep: Byte): (r: seq<Line>)
    ensures |r| >= 1 && Join(r, sep) == s
    ensures forall k :: 0 <= k < |r| ==> Unseparated(r[k], sep)
  {
    SplitFrom(s, sep, [])
  }

  lemma {:induction false} SplitFromPiece(p: Line, rest: Line, sep: Byte, cur: Line)
    requires Unseparated(cur, sep) && Unseparated(p, sep)
    ensures SplitFrom(p + rest, sep, cur) == SplitFrom(rest, sep, cur + p)
    decreases |p|
  {
    if p != [] {
      assert (p + rest)[0] == p[0];
      assert (p + rest)[1..] == p[1..] + rest;
      assert cur + [p[0]] + p[1..] == cur + p;
      SplitFromPiece(p[1..], rest, sep, cur + [p[0]]);
    } else {
      assert p + rest == rest && cur + p == cur;
    }
  }

  lemma {:induction false} SplitFromJoin(pieces: seq<Line>, sep: Byte)
    requires |pieces| >= 1
    requires forall k :: 0 <= k < |pieces| ==> Unseparated(pieces[k], sep)
    ensures SplitFrom(Join(pieces, sep), sep, []) == pieces
    decreases |pieces|
  {
    if |pieces| == 1 {
      SplitFromPiece(pieces[0], [], sep, []);
      assert pieces[0] + [] == pieces[0] && [] + pieces[0] == pieces[0];
      assert SplitFrom([], sep, pieces[0]) == [pieces[0]];
    } else {
      var tail := Join(pieces[1..], sep);
      assert Join(pieces, sep) == pieces[0] + ([sep] + tail);
      SplitFromPiece(pieces[0], [sep] + tail, sep, []);
      assert [] + pieces[0] == pieces[0];
      assert ([sep] + tail)[1..] == tail;
      SplitFromJoin(pieces[1..], sep);
      assert [pieces[0]] + pieces[1..] == pieces;
    }
  }

  /** Splitting pieces that do not contain the separator, once joined, gives
      the pieces back: `Split` and `Join` are inverse. */
  lemma SplitJoin(pieces: seq<Line>, sep: Byte)
    requires |pieces| >= 1
    requires forall k :: 0 <= k < |pieces| ==> Unseparated(pieces[k], sep)
    ensures Split(Join(pieces, sep), sep) == pieces
  {
    SplitFromJoin(pieces, sep);
  }

  /** `to_digit(10)` of the byte as a character. */
  function Digit(b: Byte): (r: Option<nat>)
    ensures r.Some? <==> '0' <= b <= '9'
    ensures r.Some? ==> r.value < 10 && r.value == b as int - '0' as int
  {
    if '0' <= b <= '9' then Some(b as int - '0' as int) else None
  }

  /** The character of a decimal digit. */
  function DigitChar(d: nat): (b: Byte)
    requires d < 10
    ensures Digit(b) == Some(d)
  {
    ('0' as int + d) as char
  }
}
