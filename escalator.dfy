/** `EscalatorLocation`: the two cells an escalator links (core/src/tile/escalator.rs). */
module Escalator {
  import opened Wrappers
  import opened Direction
  import opened GridCoord

  /** The `[TileGridCoord; 2]` payload: always exactly two endpoints. */
  datatype EscalatorLocation = EscalatorLocation(ends: seq<TileGridCoord>)

  type Escalator = e: EscalatorLocation | |e.ends| == 2
    witness EscalatorLocation([TileGridCoord(0, 0), TileGridCoord(0, 0)])

  function Make(a: TileGridCoord, b: TileGridCoord): (e: Escalator)
    ensures e.ends[0] == a && e.ends[1] == b
  {
    EscalatorLocation([a, b])
  }

  /** `coord_neighbor`: the other endpoint when `coord` is one of them; the
      first endpoint is tested first. */
  function CoordNeighbor(e: Escalator, coord: TileGridCoord): (r: Option<TileGridCoord>)
    ensures r.None? <==> coord !in e.ends
    ensures coord == e.ends[0] ==> r == Some(e.ends[1])
    ensures coord != e.ends[0] && coord == e.ends[1] ==> r == Some(e.ends[0])
  {
    if e.ends[0] == coord then Some(e.ends[1])
    else if e.ends[1] == coord then Some(e.ends[0])
    else None
  }

  /** The value `rotate(&mut self)` leaves behind: both endpoints turned, order kept. */
  function Rotated(e: Escalator, spin: SpinDirection): (r: Escalator)
  {
    EscalatorLocation([AsRotated(e.ends[0], spin), AsRotated(e.ends[1], spin)])
  }

  /** `rotate`: turns each endpoint in place, in order. */
  method Rotate(e: Escalator, spin: SpinDirection) returns (e': Escalator)
    ensures |e'.ends| == 2
    ensures forall i :: 0 <= i < 2 ==> e'.ends[i] == AsRotated(e.ends[i], spin)
    ensures e' == Rotated(e, spin)
  {
    var ends := e.ends;
    for i := 0 to 2
      invariant |ends| == 2
      invariant forall k :: 0 <= k < i ==> ends[k] == AsRotated(e.ends[k], spin)
      invariant forall k :: i <= k < 2 ==> ends[k] == e.ends[k]
    {
      var p := GridCoord.Rotate(ends[i], spin);
      ends := ends[i := p];
    }
    e' := EscalatorLocation(ends);
  }

  /** An escalator with distinct endpoints is a symmetric link. */
  lemma NeighborSymmetric(e: Escalator, c: TileGridCoord, d: TileGridCoord)
    requires e.ends[0] != e.ends[1]
    requires CoordNeighbor(e, c) == Some(d)
    ensures CoordNeighbor(e, d) == Some(c)
  {
  }

  /** A turn followed by the opposite turn restores the escalator; so do four
      turns the same way. */
  lemma RotatedRoundTrip(e: Escalator, spin: SpinDirection)
    ensures Rotated(Rotated(e, spin), Reverse(spin)) == e
    ensures Rotated(Rotated(Rotated(Rotated(e, spin), spin), spin), spin) == e
  {
    RotateReverse(e.ends[0], spin);
    RotateReverse(e.ends[1], spin);
    RotateFour(e.ends[0], spin);
    RotateFour(e.ends[1], spin);
    assert Rotated(Rotated(e, spin), Reverse(spin)).ends == e.ends;
    assert Rotated(Rotated(Rotated(Rotated(e, spin), spin), spin), spin).ends == e.ends;
  }

  /** Looking up a turned coordinate in the turned escalator gives the turned
      answer. */
  lemma RotatedNeighbor(e: Escalator, spin: SpinDirection, c: TileGridCoord)
    ensures CoordNeighbor(Rotated(e, spin), AsRotated(c, spin))
         == (match CoordNeighbor(e, c) case None => None case Some(d) => Some(AsRotated(d, spin)))
  {
    RotateReverse(c, spin);
    RotateReverse(e.ends[0], spin);
    RotateReverse(e.ends[1], spin);
  }
}
