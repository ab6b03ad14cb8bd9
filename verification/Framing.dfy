/** The record format [timestamp:8][size:4][data:size] and the bytes a segment of records holds. */
module Framing {
  import opened Numbers

  const HEADER_SIZE: nat := 12

  datatype Record = Record(timestamp: Int64, data: seq<Byte>)

  /** The header Append writes: the size field is uint32(len(data)). */
  function Header(r: Record): (h: seq<Byte>)
    ensures |h| == HEADER_SIZE
  {
    BigEndian(ToUint64(r.timestamp), 8) + BigEndian(|r.data| % TWO_32, 4)
  }

  function Frame(r: Record): (f: seq<Byte>)
    ensures |f| == FrameSize(r)
  {
    Header(r) + r.data
  }

  function FrameSize(r: Record): nat {
    HEADER_SIZE + |r.data|
  }

  /** A well-framed segment: the frames of rs one after the other. */
  function Stream(rs: seq<Record>): (bytes: seq<Byte>)
    ensures |bytes| == Start(rs, |rs|)
  {
    if rs == [] then []
    else
      StartOfPrefix(rs, |rs| - 1, |rs| - 1);
      Stream(rs[..|rs| - 1]) + Frame(rs[|rs| - 1])
  }

  /** The position at which record k of the segment begins; Start(rs, |rs|) is the segment's size. */
  function Start(rs: seq<Record>, k: nat): nat
    requires k <= |rs|
  {
    if k == 0 then 0 else Start(rs, k - 1) + FrameSize(rs[k - 1])
  }

  lemma {:induction false} StartOfPrefix(rs: seq<Record>, n: nat, k: nat)
    requires k <= n <= |rs|
    ensures Start(rs[..n], k) == Start(rs, k)
  {
    if k > 0 {
      StartOfPrefix(rs, n, k - 1);
    }
  }

  lemma {:induction false} StartIncreases(rs: seq<Record>, j: nat, k: nat)
    requires j <= k <= |rs|
    ensures Start(rs, j) + HEADER_SIZE * (k - j) <= Start(rs, k)
  {
    if j < k {
      StartIncreases(rs, j, k - 1);
    }
  }

  lemma StartIsInjective(rs: seq<Record>, j: nat, k: nat)
    requires j <= |rs| && k <= |rs|
    ensures Start(rs, j) < Start(rs, k) <==> j < k
    ensures Start(rs, j) == Start(rs, k) <==> j == k
  {
    if j <= k {
      StartIncreases(rs, j, k);
    } else {
      StartIncreases(rs, k, j);
    }
  }

  /** Appending one record adds its frame and moves no earlier record. */
  lemma StreamOfOneMore(rs: seq<Record>, r: Record)
    ensures Stream(rs + [r]) == Stream(rs) + Frame(r)
    ensures forall i | 0 <= i <= |rs| :: Start(rs + [r], i) == Start(rs, i)
  {
    assert (rs + [r])[..|rs|] == rs;
    forall i | 0 <= i <= |rs|
      ensures Start(rs + [r], i) == Start(rs, i)
    {
      StartOfPrefix(rs + [r], |rs|, i);
    }
  }

  /** The first bytes of a segment, up to a boundary, are the segment of the first records. */
  lemma {:induction false} StreamUpTo(rs: seq<Record>, k: nat)
    requires k <= |rs|
    ensures Start(rs, k) <= |Stream(rs)|
    ensures Stream(rs)[..Start(rs, k)] == Stream(rs[..k])
  {
    hide Frame;
    StartIncreases(rs, k, |rs|);
    if k == |rs| {
      assert rs[..k] == rs;
    } else {
      var front := rs[..|rs| - 1];
      StreamUpTo(front, k);
      StartOfPrefix(rs, |rs| - 1, k);
      assert front[..k] == rs[..k];
    }
  }

  /** Record k's frame stands at its start, whatever was appended after it. */
  lemma FrameStandsAt(rs: seq<Record>, k: nat)
    requires k < |rs|
    ensures Start(rs, k) + FrameSize(rs[k]) == Start(rs, k + 1) <= |Stream(rs)|
    ensures Stream(rs)[Start(rs, k)..Start(rs, k + 1)] == Frame(rs[k])
  {
    StreamUpTo(rs, k + 1);
    StreamUpTo(rs, k);
    var upto := rs[..k + 1];
    assert upto[..k] == rs[..k];
    assert Stream(upto) == Stream(rs[..k]) + Frame(rs[k]);
    assert Stream(rs)[..Start(rs, k + 1)][Start(rs, k)..] == Frame(rs[k]);
  }

  /** The bytes of a record: eight of the timestamp modulo 2^64, four of the length modulo 2^32, the data. */
  lemma FrameLayout(r: Record, k: nat)
    requires k < FrameSize(r)
    ensures FrameSize(r) == 12 + |r.data|
    ensures Frame(r)[k] == if k < 8 then r.timestamp % TWO_64 / Pow256(7 - k) % 256
                           else if k < 12 then |r.data| % TWO_32 / Pow256(11 - k) % 256
                           else r.data[k - 12]
  {
    hide BigEndian, Pow256;
    assert ToUint64(r.timestamp) == r.timestamp % TWO_64;
    if k < 8 {
      BigEndianByte(ToUint64(r.timestamp), 8, k);
    } else if k < 12 {
      BigEndianByte(|r.data| % TWO_32, 4, k - 8);
    }
  }

  /** How an attempt to read one record at a file position ends. */
  datatype ReadOutcome = Got(record: Record) | HeaderEof | HeaderTorn | DataTorn

  /** The two io.ReadFull calls of Read, on the bytes of one file. */
  function ReadAt(file: seq<Byte>, position: nat): ReadOutcome {
    if position >= |file| then HeaderEof
    else if |file| - position < HEADER_SIZE then HeaderTorn
    else
      var size := FromBigEndian(file[position + 8..position + 12]);
      if |file| - position - HEADER_SIZE < size then DataTorn
      else
        Uint64Bound(file[position..position + 8]);
        Got(Record(ToInt64(FromBigEndian(file[position..position + 8])),
                   file[position + 12..position + 12 + size]))
  }

  /** A header says what was put in it, wherever it stands. */
  lemma HeaderRoundTrip(r: Record, file: seq<Byte>, position: nat)
    requires |r.data| < TWO_32
    requires position + HEADER_SIZE <= |file|
    requires file[position..position + HEADER_SIZE] == Header(r)
    ensures FromBigEndian(file[position + 8..position + 12]) == |r.data|
    ensures FromBigEndian(file[position..position + 8]) == ToUint64(r.timestamp)
  {
    Uint32RoundTrip(|r.data|);
    Int64RoundTrip(r.timestamp);
    var h := file[position..position + HEADER_SIZE];
    assert file[position + 8..position + 12] == h[8..] == BigEndian(|r.data|, 4);
    assert file[position..position + 8] == h[..8] == BigEndian(ToUint64(r.timestamp), 8);
  }

  /** Reading inverts framing, whatever surrounds the frame. */
  lemma ReadInvertsFrame(r: Record, file: seq<Byte>, position: nat)
    requires |r.data| < TWO_32
    requires position + FrameSize(r) <= |file|
    requires file[position..position + FrameSize(r)] == Frame(r)
    ensures ReadAt(file, position) == Got(r)
  {
    var f := file[position..position + FrameSize(r)];
    assert file[position..position + HEADER_SIZE] == f[..HEADER_SIZE] == Header(r);
    HeaderRoundTrip(r, file, position);
    Int64RoundTrip(r.timestamp);
    assert file[position + 12..position + 12 + |r.data|] == f[12..] == r.data;
  }

  /** What is read is never longer than a four-byte size can say. */
  lemma DataBelow4GiB(file: seq<Byte>, position: nat)
    requires ReadAt(file, position).Got?
    ensures |ReadAt(file, position).record.data| < TWO_32
  {
    Pow256Values();
    FromBigEndianBound(file[position + 8..position + 12]);
  }

  lemma ReadBehindBytes(base: seq<Byte>, s: seq<Byte>, at: nat, r: Record)
    requires |r.data| < TWO_32 && at + FrameSize(r) <= |s| && s[at..at + FrameSize(r)] == Frame(r)
    ensures ReadAt(base + s, |base| + at) == Got(r)
  {
    var file := base + s;
    var n := FrameSize(r);
    assert file[|base| + at..|base| + at + n] == s[at..at + n];
    ReadInvertsFrame(r, file, |base| + at);
  }

  /** A record of a segment is read back wherever the segment was appended, even behind bytes that are no records. */
  lemma ReadBehind(base: seq<Byte>, rs: seq<Record>, i: nat)
    requires i < |rs| && |rs[i].data| < TWO_32
    ensures ReadAt(base + Stream(rs), |base| + Start(rs, i)) == Got(rs[i])
  {
    hide *;
    FrameStandsAt(rs, i);
    ReadBehindBytes(base, Stream(rs), Start(rs, i), rs[i]);
  }

  /** The four-byte size field is enough exactly for data below 2^32 bytes; a longer record comes back shortened. */
  lemma ReadInvertsFrameExactly(r: Record)
    ensures ReadAt(Frame(r), 0) == Got(r) <==> |r.data| < TWO_32
  {
    if |r.data| < TWO_32 {
      ReadInvertsFrame(r, Frame(r), 0);
    } else {
      if ReadAt(Frame(r), 0).Got? {
        DataBelow4GiB(Frame(r), 0);
      }
    }
  }

  /** A frame that the end of the file cuts short is reported, never returned in part. */
  lemma CutFrameIsAnError(r: Record, file: seq<Byte>, position: nat)
    requires |r.data| < TWO_32
    requires position < |file| < position + FrameSize(r)
    requires file[position..] == Frame(r)[..|file| - position]
    ensures ReadAt(file, position) == if |file| - position < 12 then HeaderTorn else DataTorn
  {
    if |file| - position >= HEADER_SIZE {
      var f := file[position..];
      assert file[position..position + HEADER_SIZE] == f[..HEADER_SIZE] == Header(r);
      HeaderRoundTrip(r, file, position);
    }
  }
}
