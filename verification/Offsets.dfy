/** Global offsets: segment number and byte position packed into one int64 (pkg/storage/log.go). */
module Offsets {
  import opened Numbers

  /** Go's | on non-negative operands, bit by bit. */
  function BitOr(a: nat, b: nat): nat {
    if a == 0 && b == 0 then 0
    else (if a % 2 == 1 || b % 2 == 1 then 1 else 0) + 2 * BitOr(a / 2, b / 2)
  }

  /** Go's a << k, before truncation. */
  function ShiftLeft(a: nat, k: nat): nat {
    if k == 0 then a else 2 * ShiftLeft(a, k - 1)
  }

  lemma ShiftBy32(a: nat)
    ensures ShiftLeft(a, 32) == a * TWO_32
  {
    ShiftByte(a, 0);
    ShiftByte(a, 8);
    ShiftByte(a, 16);
    ShiftByte(a, 24);
  }

  lemma ShiftByte(a: nat, k: nat)
    ensures ShiftLeft(a, k + 8) == 256 * ShiftLeft(a, k)
  {
    assert ShiftLeft(a, k + 2) == 4 * ShiftLeft(a, k);
    assert ShiftLeft(a, k + 4) == 16 * ShiftLeft(a, k);
    assert ShiftLeft(a, k + 6) == 64 * ShiftLeft(a, k);
  }

  lemma {:induction false} BitOrZero(a: nat)
    ensures BitOr(a, 0) == a
  {
    if a != 0 {
      BitOrZero(a / 2);
    }
  }

  /** Joining a shifted number with one below the shift is addition: no bit is shared. */
  lemma {:induction false} BitOrBelowShift(a: nat, b: nat, k: nat)
    requires b < ShiftLeft(1, k)
    ensures BitOr(ShiftLeft(a, k), b) == ShiftLeft(a, k) + b
  {
    if k == 0 {
      BitOrZero(a);
    } else {
      BitOrBelowShift(a, b / 2, k - 1);
    }
  }

  /** getGlobalOffset: int64(segment)<<32 | position. */
  function Pack(segment: nat, position: nat): Int64 {
    Wrap64(BitOr(ShiftLeft(segment % TWO_32, 32), position))
  }

  /** parseGlobalOffset: an arithmetic shift and a mask. */
  function SegmentOf(offset: Int64): int {
    offset / TWO_32
  }

  function PositionOf(offset: Int64): (p: nat)
    ensures p < TWO_32
  {
    offset % TWO_32
  }

  /** While the position stays below 2^32 packing is addition. */
  lemma PackIsSum(segment: nat, position: nat)
    requires segment < TWO_31 && position < TWO_32
    ensures Pack(segment, position) == segment * TWO_32 + position
  {
    hide ShiftLeft, BitOr;
    ShiftBy32(segment);
    ShiftBy32(1);
    BitOrBelowShift(segment, position, 32);
  }

  /** In segment 0 the packed offset is the position, however large. */
  lemma FirstSegmentIsPlain(position: nat)
    requires position < TWO_63
    ensures Pack(0, position) == position
  {
    hide ShiftLeft, BitOr;
    ShiftBy32(0);
    ZeroBitOr(position);
  }

  lemma {:induction false} ZeroBitOr(b: nat)
    ensures BitOr(0, b) == b
  {
    if b != 0 {
      ZeroBitOr(b / 2);
    }
  }

  /** Parsing undoes packing exactly for segments below 2^31 and positions below 2^32. */
  lemma PackRoundTrip(segment: nat, position: nat)
    ensures SegmentOf(Pack(segment, position)) == segment && PositionOf(Pack(segment, position)) == position
       <==> segment < TWO_31 && position < TWO_32
  {
    hide Pack;
    if segment < TWO_31 && position < TWO_32 {
      PackIsSum(segment, position);
    }
  }

  /** Packed offsets are ordered as the pairs (segment, position) are, lexicographically. */
  lemma PackPreservesOrder(s: nat, p: nat, s': nat, p': nat)
    requires s < TWO_31 && s' < TWO_31 && p < TWO_32 && p' < TWO_32
    ensures Pack(s, p) < Pack(s', p') <==> s < s' || (s == s' && p < p')
  {
    hide Pack;
    PackIsSum(s, p);
    PackIsSum(s', p');
  }

  /** Stepping an offset over a record stays in the segment exactly while the sum is below 2^32. */
  lemma AdvanceWithinSegment(segment: nat, position: nat, size: nat)
    requires segment < TWO_31 && position < TWO_32 && size <= TWO_32 + 12
    ensures position + size < TWO_32 ==>
              Wrap64(Pack(segment, position) + size) == Pack(segment, position + size)
    ensures SegmentOf(Wrap64(Pack(segment, position) + size)) == segment <==> position + size < TWO_32
  {
    hide Pack;
    PackIsSum(segment, position);
    if position + size < TWO_32 {
      PackIsSum(segment, position + size);
    }
  }
}
