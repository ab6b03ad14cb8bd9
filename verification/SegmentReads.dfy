/** What reading gives on well-framed segments and on files cut at any byte. */
module SegmentReads {
  import opened Numbers
  import opened Results
  import opened Offsets
  import opened Framing
  import opened SegmentLog

  /** The entry of record i, with the offset Append returned for it. */
  function EntryOf(segment: nat, rs: seq<Record>, i: nat): LogEntry
    requires i < |rs|
  {
    LogEntry(rs[i].timestamp, rs[i].data, Pack(segment, Start(rs, i)))
  }

  /** The entries of a segment's records, in order. */
  function Entries(segment: nat, rs: seq<Record>): (es: seq<LogEntry>)
    ensures |es| == |rs|
    ensures forall i | 0 <= i < |rs| :: es[i] == EntryOf(segment, rs, i)
  {
    seq(|rs|, i requires 0 <= i < |rs| => EntryOf(segment, rs, i))
  }

  /** The file holds the first cut bytes of the segment of rs. */
  ghost predicate HoldsCut(files: Files, segment: nat, rs: seq<Record>, cut: nat) {
    && segment < TWO_31
    && cut <= |Stream(rs)| < TWO_32
    && segment in files
    && files[segment] == Stream(rs)[..cut]
  }

  /** The file holds exactly the segment of rs, below 2^32 bytes. */
  ghost predicate Holds(files: Files, segment: nat, rs: seq<Record>) {
    && segment < TWO_31
    && |Stream(rs)| < TWO_32
    && segment in files
    && files[segment] == Stream(rs)
  }

  lemma HoldsIsUncut(files: Files, segment: nat, rs: seq<Record>)
    requires Holds(files, segment, rs)
    ensures HoldsCut(files, segment, rs, |Stream(rs)|)
  {
  }

  /** A record that lies before the cut is read back whole from the file's bytes. */
  lemma ReadRecordBytes(rs: seq<Record>, cut: nat, k: nat)
    requires cut <= |Stream(rs)| <= TWO_32 && k < |rs| && Start(rs, k + 1) <= cut
    ensures ReadAt(Stream(rs)[..cut], Start(rs, k)) == Got(rs[k])
  {
    hide Start, Stream, Frame, ReadAt;
    FrameStandsAt(rs, k);
    var file := Stream(rs)[..cut];
    assert file[Start(rs, k)..Start(rs, k + 1)] == Stream(rs)[Start(rs, k)..Start(rs, k + 1)];
    ReadInvertsFrame(rs[k], file, Start(rs, k));
  }

  /** The same through Read, with the record's own offset, from which the next record's follows. */
  lemma ReadRecord(files: Files, segment: nat, rs: seq<Record>, cut: nat, k: nat)
    requires HoldsCut(files, segment, rs, cut) && k < |rs| && Start(rs, k + 1) <= cut
    ensures Read(files, Pack(segment, Start(rs, k))) == Ok(EntryOf(segment, rs, k))
    ensures NextOffset(EntryOf(segment, rs, k)) == Pack(segment, Start(rs, k + 1))
  {
    hide Start, Stream, Frame, ReadAt, Pack;
    FrameStandsAt(rs, k);
    PackRoundTrip(segment, Start(rs, k));
    AdvanceWithinSegment(segment, Start(rs, k), FrameSize(rs[k]));
    ReadRecordBytes(rs, cut, k);
  }

  /** A record that the cut goes through is an error. */
  lemma ReadTornRecord(files: Files, segment: nat, rs: seq<Record>, cut: nat, k: nat)
    requires HoldsCut(files, segment, rs, cut) && k < |rs| && Start(rs, k) < cut < Start(rs, k + 1)
    ensures Read(files, Pack(segment, Start(rs, k)))
         == if cut - Start(rs, k) < 12 then Err(TornHeader) else Err(TornData)
  {
    hide Start, Stream, Frame, ReadAt, Pack;
    FrameStandsAt(rs, k);
    PackRoundTrip(segment, Start(rs, k));
    var file := files[segment];
    var frame := Stream(rs)[Start(rs, k)..Start(rs, k + 1)];
    assert file[Start(rs, k)..] == frame[..cut - Start(rs, k)];
    CutFrameIsAnError(rs[k], file, Start(rs, k));
  }

  /** An offset below zero, or in a segment that is not on disk, is an error at every position. */
  lemma MissingSegmentFails(files: Files, segment: int, position: nat)
    requires -TWO_31 <= segment < TWO_31 && position < TWO_32
    requires segment < 0 || segment !in files
    ensures var offset := segment * TWO_32 + position;
            Read(files, offset) == Err(SegmentMissing) && ReadAll(files, offset) == Err(SegmentMissing)
  {
    assert SegmentOf(segment * TWO_32 + position) == segment;
  }

  lemma ReadAtEnd(files: Files, segment: nat, rs: seq<Record>, cut: nat)
    requires HoldsCut(files, segment, rs, cut)
    ensures Read(files, Pack(segment, cut)) == Err(EndOfSegment)
  {
    PackRoundTrip(segment, cut);
  }

  /** Reading on from record j of a file cut at the boundary before record k gives records j to k - 1. */
  lemma {:induction false} ReadToBoundary(files: Files, segment: nat, rs: seq<Record>, j: nat, k: nat)
    requires j <= k <= |rs| && HoldsCut(files, segment, rs, Start(rs, k))
    ensures ReadAll(files, Pack(segment, Start(rs, j))) == Ok(Entries(segment, rs)[j..k])
    decreases k - j
  {
    hide Start, Stream, Read, NextOffset, Pack;
    if j == k {
      ReadAtEnd(files, segment, rs, Start(rs, k));
    } else {
      StartIncreases(rs, j + 1, k);
      ReadRecord(files, segment, rs, Start(rs, k), j);
      ReadToBoundary(files, segment, rs, j + 1, k);
      assert [Entries(segment, rs)[j]] + Entries(segment, rs)[j + 1..k] == Entries(segment, rs)[j..k];
    }
  }

  /** Reading on from record j of a file cut inside record k is an error. */
  lemma {:induction false} ReadToTear(files: Files, segment: nat, rs: seq<Record>, cut: nat, j: nat, k: nat)
    requires j <= k < |rs| && Start(rs, k) < cut < Start(rs, k + 1) && HoldsCut(files, segment, rs, cut)
    ensures ReadAll(files, Pack(segment, Start(rs, j))).Err?
    decreases k - j
  {
    if j == k {
      ReadTornRecord(files, segment, rs, cut, k);
    } else {
      StartIncreases(rs, j + 1, k);
      ReadRecord(files, segment, rs, cut, j);
      ReadToTear(files, segment, rs, cut, j + 1, k);
    }
  }

  /** ReadFrom at any record boundary of a segment returns exactly the records from there on. */
  lemma ReadFromBoundary(files: Files, segment: nat, rs: seq<Record>, j: nat)
    requires Holds(files, segment, rs) && j <= |rs|
    ensures ReadAll(files, Pack(segment, Start(rs, j))) == Ok(Entries(segment, rs)[j..])
  {
    assert Stream(rs)[..Start(rs, |rs|)] == Stream(rs);
    ReadToBoundary(files, segment, rs, j, |rs|);
    assert Entries(segment, rs)[j..|rs|] == Entries(segment, rs)[j..];
  }

  /** The number of records that lie wholly before the cut. */
  ghost function WholeBefore(rs: seq<Record>, cut: nat): (k: nat)
    ensures k <= |rs| && Start(rs, k) <= cut
    ensures k < |rs| ==> cut < Start(rs, k + 1)
  {
    if rs == [] then 0
    else if Start(rs, |rs|) <= cut then |rs|
    else
      var front := rs[..|rs| - 1];
      var k := WholeBefore(front, cut);
      StartOfPrefix(rs, |rs| - 1, k);
      if k < |front| then StartOfPrefix(rs, |rs| - 1, k + 1); k else k
  }

  /** The cut falls between two records, or at an end of the segment. */
  ghost predicate OnBoundary(rs: seq<Record>, cut: nat) {
    exists k :: 0 <= k <= |rs| && Start(rs, k) == cut
  }

  /**
   * A segment file cut at any byte: read from its start it gives the records before the cut
   * when the cut is on a boundary, and an error in every other case.
   */
  lemma ReadCutSegment(files: Files, segment: nat, rs: seq<Record>, cut: nat)
    requires HoldsCut(files, segment, rs, cut)
    ensures ReadAll(files, Pack(segment, 0)).Ok? <==> OnBoundary(rs, cut)
    ensures OnBoundary(rs, cut) ==>
              ReadAll(files, Pack(segment, 0)) == Ok(Entries(segment, rs)[..WholeBefore(rs, cut)])
  {
    var k := WholeBefore(rs, cut);
    if Start(rs, k) == cut {
      ReadToBoundary(files, segment, rs, 0, k);
      assert Entries(segment, rs)[0..k] == Entries(segment, rs)[..k];
    } else {
      forall j | 0 <= j <= |rs|
        ensures Start(rs, j) != cut
      {
        if j <= k {
          StartIncreases(rs, j, k);
        } else {
          StartIncreases(rs, k + 1, j);
        }
      }
      ReadToTear(files, segment, rs, cut, 0, k);
    }
  }

  /** A log whose only segment has reached 2^32 bytes cannot be read to its end from anywhere: positions stop short. */
  lemma {:induction false} FullLogFails(files: Files, offset: Int64)
    requires files.Keys == {0} && |files[0]| >= TWO_32
    ensures ReadAll(files, offset).Err?
    decreases Distance(files, offset)
  {
    hide NextOffset;
    if Read(files, offset).Ok? {
      ReadMakesProgress(files, offset);
      FullLogFails(files, NextOffset(Read(files, offset).value));
    }
  }

  /** The bound is sharp: a one-segment log can be read from a record on exactly while it is below 2^32 bytes. */
  lemma ReadNeedsRoom(rs: seq<Record>, j: nat)
    requires j < |rs|
    ensures ReadAll(map[0 := Stream(rs)], Pack(0, Start(rs, j))).Ok? <==> |Stream(rs)| < TWO_32
  {
    hide Stream, Start, ReadAll, Pack;
    var files: Files := map[0 := Stream(rs)];
    if |Stream(rs)| < TWO_32 {
      ReadFromBoundary(files, 0, rs, j);
    } else {
      FullLogFails(files, Pack(0, Start(rs, j)));
    }
  }
}
