/** Any sequence of appends, rotations and restarts on one log directory. */
module LogRuns {
  import opened Numbers
  import opened Results
  import opened Offsets
  import opened Framing
  import opened SegmentLog

  datatype LogOp = Append(record: Record) | Rotate | Reopen

  /** The log after the run, and the offsets its appends returned. */
  function Run(st: LogState, maxSize: int, ops: seq<LogOp>): (r: (LogState, seq<Int64>))
    requires ValidLog(st)
    ensures ValidLog(r.0)
  {
    if ops == [] then (st, [])
    else
      var (mid, offsets) := Run(st, maxSize, ops[..|ops| - 1]);
      match ops[|ops| - 1]
      case Append(r) =>
        AppendIgnoresMaxSize(mid, maxSize, r);
        var (next, offset) := AppendStep(mid, maxSize, r);
        (next, offsets + [offset])
      case Rotate => OpenedIsValid(mid.files); (Opened(mid.files), offsets)
      case Reopen => OpenedIsValid(mid.files); (Opened(mid.files), offsets)
  }

  /** The records a run appends, in order. */
  function Records(ops: seq<LogOp>): seq<Record> {
    if ops == [] then []
    else
      match ops[|ops| - 1]
      case Append(r) => Records(ops[..|ops| - 1]) + [r]
      case _ => Records(ops[..|ops| - 1])
  }

  /**
   * The highest segment holds its old bytes followed by the frames of rs, every other file is as
   * it was, currentSize is the segment's length, and offsets are where the frames begin.
   */
  ghost predicate Extends(st: LogState, rs: seq<Record>, end: LogState, offsets: seq<Int64>)
    requires ValidLog(st)
  {
    var n := st.segmentIndex;
    && end.segmentIndex == n
    && end.files == st.files[n := st.files[n] + Stream(rs)]
    && end.currentSize == st.currentSize + Start(rs, |rs|)
    && |offsets| == |rs|
    && forall i | 0 <= i < |rs| :: offsets[i] == Pack(n, st.currentSize + Start(rs, i))
  }

  lemma LastStart(rs: seq<Record>)
    requires rs != []
    ensures Start(rs, |rs|) == Start(rs, |rs| - 1) + FrameSize(rs[|rs| - 1])
  {
  }

  lemma AppendExtends(st: LogState, rs: seq<Record>, mid: LogState, offsets: seq<Int64>, r: Record)
    requires ValidLog(st) && Extends(st, rs, mid, offsets)
    ensures Extends(st, rs + [r], Appended(mid, r), offsets + [Pack(mid.segmentIndex, mid.currentSize)])
  {
    hide Start, Frame, Pack, Stream;
    StreamOfOneMore(rs, r);
    assert Start(rs + [r], |rs| + 1) == Start(rs, |rs|) + FrameSize(r) by {
      LastStart(rs + [r]);
    }
    var before := st.files[st.segmentIndex];
    assert before + Stream(rs) + Frame(r) == before + Stream(rs + [r]);
  }

  /** Nothing is lost, moved or overlapped by any run, whatever maxSize is. */
  lemma {:induction false} RunExtends(st: LogState, maxSize: int, ops: seq<LogOp>)
    requires ValidLog(st)
    ensures Extends(st, Records(ops), Run(st, maxSize, ops).0, Run(st, maxSize, ops).1)
  {
    if ops == [] {
      assert st.files[st.segmentIndex] + [] == st.files[st.segmentIndex];
    } else {
      var front := ops[..|ops| - 1];
      RunExtends(st, maxSize, front);
      var (mid, offsets) := Run(st, maxSize, front);
      match ops[|ops| - 1]
      case Append(r) =>
        AppendIgnoresMaxSize(mid, maxSize, r);
        AppendExtends(st, Records(front), mid, offsets, r);
      case _ =>
        ReopenIsIdentity(mid);
    }
  }

  /** The offset an append returned leads back to its record exactly while that record began below 2^32 bytes. */
  lemma OffsetLeadsBack(st: LogState, rs: seq<Record>, end: LogState, offsets: seq<Int64>, i: nat)
    requires ValidLog(st) && Extends(st, rs, end, offsets) && i < |rs| && st.segmentIndex < TWO_31
    ensures SegmentOf(offsets[i]) == st.segmentIndex && PositionOf(offsets[i]) == st.currentSize + Start(rs, i)
       <==> st.currentSize + Start(rs, i) < TWO_32
  {
    PackRoundTrip(st.segmentIndex, st.currentSize + Start(rs, i));
  }

  lemma OffsetReadsItsRecord(st: LogState, rs: seq<Record>, end: LogState, offsets: seq<Int64>, i: nat)
    requires ValidLog(st) && Extends(st, rs, end, offsets) && i < |rs| && st.segmentIndex < TWO_31
    requires st.currentSize + Start(rs, i) < TWO_32
    ensures Read(end.files, offsets[i]) == Ok(LogEntry(rs[i].timestamp, rs[i].data, offsets[i]))
       <==> |rs[i].data| < TWO_32
  {
    hide Stream, Start, ReadAt;
    var n := st.segmentIndex;
    OffsetLeadsBack(st, rs, end, offsets, i);
    assert end.files[n] == st.files[n] + Stream(rs);
    if |rs[i].data| < TWO_32 {
      ReadBehind(st.files[n], rs, i);
    } else if Read(end.files, offsets[i]).Ok? {
      DataBelow4GiB(end.files[n], PositionOf(offsets[i]));
    }
  }

  /**
   * An offset that an append returned addresses the place where its record was put exactly while that
   * place is below 2^32 bytes, and reading there then gives back the record exactly when its data is
   * below 2^32 bytes: whatever the directory held before, and whatever was appended, rotated or
   * reopened afterwards, however large the log has become.
   */
  lemma EveryOffsetReadsItsRecord(st: LogState, maxSize: int, ops: seq<LogOp>, i: nat)
    requires ValidLog(st) && st.segmentIndex < TWO_31
    requires i < |Run(st, maxSize, ops).1|
    ensures i < |Records(ops)|
    ensures var (end, offsets) := Run(st, maxSize, ops);
            var r, at := Records(ops)[i], st.currentSize + Start(Records(ops), i);
            && (SegmentOf(offsets[i]) == st.segmentIndex && PositionOf(offsets[i]) == at <==> at < TWO_32)
            && (at < TWO_32 ==>
                  (Read(end.files, offsets[i]) == Ok(LogEntry(r.timestamp, r.data, offsets[i])) <==>
                     |r.data| < TWO_32))
  {
    hide Run, Records, Read, SegmentOf, PositionOf, Start, Stream;
    RunExtends(st, maxSize, ops);
    var (end, offsets) := Run(st, maxSize, ops);
    OffsetLeadsBack(st, Records(ops), end, offsets, i);
    if st.currentSize + Start(Records(ops), i) < TWO_32 {
      OffsetReadsItsRecord(st, Records(ops), end, offsets, i);
    }
  }

  /** The configured segment size bounds the open segment exactly when everything put in it fits anyway. */
  lemma MaxSizeDoesNotBound(st: LogState, maxSize: int, ops: seq<LogOp>)
    requires ValidLog(st)
    ensures Run(st, maxSize, ops).0.currentSize <= maxSize
       <==> st.currentSize + Start(Records(ops), |Records(ops)|) <= maxSize
  {
    RunExtends(st, maxSize, ops);
  }
}
