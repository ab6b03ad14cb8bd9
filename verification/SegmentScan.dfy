/** Rebuilding an index by scanning segment files (pkg/storage/index.go: Rebuild, scanSegment). */
module SegmentScan {
  import opened Numbers
  import opened Offsets
  import opened Framing
  import opened SegmentReads
  import opened IndexEntries

  /** The size field of the header at a file position. */
  function SizeAt(file: seq<Byte>, filePosition: nat): (size: nat)
    requires filePosition + HEADER_SIZE <= |file|
    ensures size < TWO_32
  {
    Pow256Values();
    FromBigEndianBound(file[filePosition + 8..filePosition + 12]);
    FromBigEndian(file[filePosition + 8..filePosition + 12])
  }

  /** What is added to the scanner's position: MessageHeaderSize + dataSize is a uint32 sum. */
  function PositionStep(size: nat): nat {
    (HEADER_SIZE + size) % TWO_32
  }

  /**
   * The entries a scan appends from a file position on. The file is read and seeked with full
   * 64-bit sizes, while the recorded position advances by 32-bit sums.
   */
  function Scan(file: seq<Byte>, segment: nat, filePosition: nat, position: nat): seq<IndexEntry>
    decreases |file| - filePosition
  {
    if filePosition + HEADER_SIZE > |file| then []
    else
      var size := SizeAt(file, filePosition);
      [IndexEntry(Pack(segment, position), Wrap64(position))]
      + Scan(file, segment, filePosition + HEADER_SIZE + size, position + PositionStep(size))
  }

  /** One entry per record of a segment: its packed offset and its position. */
  function IndexOf(segment: nat, rs: seq<Record>): (es: seq<IndexEntry>)
    ensures |es| == |rs|
    ensures forall k | 0 <= k < |rs| :: es[k] == IndexEntry(Pack(segment, Start(rs, k)), Wrap64(Start(rs, k)))
  {
    seq(|rs|, k requires 0 <= k < |rs| => IndexEntry(Pack(segment, Start(rs, k)), Wrap64(Start(rs, k))))
  }

  /** The number of records whose whole header lies before the cut. */
  ghost function HeadersBefore(rs: seq<Record>, cut: nat): (m: nat)
    requires cut <= Start(rs, |rs|)
    ensures m <= |rs|
    ensures forall k | 0 <= k < |rs| :: k < m <==> Start(rs, k) + HEADER_SIZE <= cut
  {
    var k := WholeBefore(rs, cut);
    var m := if k < |rs| && Start(rs, k) + HEADER_SIZE <= cut then k + 1 else k;
    forall j | 0 <= j < |rs|
      ensures j < m <==> Start(rs, j) + HEADER_SIZE <= cut
    {
      if j < k {
        StartIncreases(rs, j + 1, k);
      } else if j > k {
        StartIncreases(rs, k + 1, j);
      }
    }
    m
  }

  /** The uint32 sum is the record's size exactly while that is below 2^32; from there on it starts again at 0. */
  lemma StepIsSize(size: nat)
    requires size < TWO_32
    ensures PositionStep(size) == if 12 + size < TWO_32 then 12 + size else 12 + size - TWO_32
  {
  }

  lemma SizeOfRecord(rs: seq<Record>, cut: nat, k: nat)
    requires cut <= |Stream(rs)| < TWO_32 && k < |rs| && Start(rs, k) + HEADER_SIZE <= cut
    ensures SizeAt(Stream(rs)[..cut], Start(rs, k)) == |rs[k].data|
    ensures Start(rs, k) + PositionStep(|rs[k].data|) == Start(rs, k + 1) == Start(rs, k) + FrameSize(rs[k])
  {
    hide Stream, Frame, FromBigEndian, Header;
    FrameStandsAt(rs, k);
    HeaderStartsFrame(rs[k]);
    var file, at := Stream(rs)[..cut], Start(rs, k);
    var frame := Stream(rs)[at..Start(rs, k + 1)];
    assert file[at..at + HEADER_SIZE] == frame[..HEADER_SIZE];
    HeaderRoundTrip(rs[k], file, at);
  }

  lemma HeaderStartsFrame(r: Record)
    ensures Frame(r)[..HEADER_SIZE] == Header(r)
  {
  }

  /** Scanning any prefix of a segment from record j on finds exactly the records whose header is whole. */
  lemma {:induction false} ScanPrefixFrom(segment: nat, rs: seq<Record>, cut: nat, j: nat)
    requires cut <= |Stream(rs)| < TWO_32 && j <= |rs|
    requires j <= HeadersBefore(rs, cut)
    ensures Scan(Stream(rs)[..cut], segment, Start(rs, j), Start(rs, j))
         == IndexOf(segment, rs)[j..HeadersBefore(rs, cut)]
    decreases |rs| - j
  {
    hide SizeAt, PositionStep, Pack, Stream, Start, HeadersBefore;
    var m := HeadersBefore(rs, cut);
    if j < m {
      SizeOfRecord(rs, cut, j);
      ScanPrefixFrom(segment, rs, cut, j + 1);
      assert [IndexOf(segment, rs)[j]] + IndexOf(segment, rs)[j + 1..m] == IndexOf(segment, rs)[j..m];
    } else if j == |rs| {
      assert Start(rs, j) + HEADER_SIZE > cut;
    }
  }

  /**
   * A scan of any prefix of a well-framed segment records exactly the records whose header
   * survived: every whole record, and at most one torn record after them.
   */
  lemma ScanPrefix(segment: nat, rs: seq<Record>, cut: nat)
    requires cut <= |Stream(rs)| < TWO_32
    ensures Scan(Stream(rs)[..cut], segment, 0, 0) == IndexOf(segment, rs)[..HeadersBefore(rs, cut)]
    ensures WholeBefore(rs, cut) <= HeadersBefore(rs, cut) <= WholeBefore(rs, cut) + 1
    ensures HeadersBefore(rs, cut) > WholeBefore(rs, cut) ==> !OnBoundary(rs, cut)
  {
    ScanPrefixFrom(segment, rs, cut, 0);
    var m, k := HeadersBefore(rs, cut), WholeBefore(rs, cut);
    assert IndexOf(segment, rs)[0..m] == IndexOf(segment, rs)[..m];
    if k < |rs| {
      if k + 1 < |rs| {
        StartIncreases(rs, k + 1, k + 1);
        assert !(k + 1 < m);
      }
    }
    if k > 0 {
      StartIncreases(rs, k - 1, k);
      assert k - 1 < m;
    }
    if m > k {
      forall j | 0 <= j <= |rs|
        ensures Start(rs, j) != cut
      {
        if j <= k {
          StartIncreases(rs, j, k);
        } else {
          StartIncreases(rs, k + 1, j);
        }
      }
    }
  }

  /** A scan of a whole segment finds every record. */
  lemma ScanSegmentFile(segment: nat, rs: seq<Record>)
    requires |Stream(rs)| < TWO_32
    ensures Scan(Stream(rs), segment, 0, 0) == IndexOf(segment, rs)
  {
    var cut := |Stream(rs)|;
    assert Stream(rs)[..cut] == Stream(rs);
    ScanPrefix(segment, rs, cut);
    if rs != [] {
      StartIncreases(rs, |rs| - 1, |rs|);
      assert |rs| - 1 < HeadersBefore(rs, cut);
    }
    assert IndexOf(segment, rs)[..|rs|] == IndexOf(segment, rs);
  }
}
