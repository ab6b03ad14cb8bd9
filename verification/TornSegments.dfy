/** What a segment reads as when an Append was cut short and the log was opened again and appended to. */
module TornSegments {
  import opened Numbers
  import opened Results
  import opened Offsets
  import opened Framing
  import opened SegmentLog
  import opened SegmentReads
  import LogRuns

  /** The segment of rs was cut short, and the frames of more were written behind what was left. */
  ghost predicate HoldsTorn(files: Files, segment: nat, rs: seq<Record>, cut: nat, more: seq<Record>) {
    && segment < TWO_31
    && cut <= |Stream(rs)|
    && cut + |Stream(more)| < TWO_32
    && segment in files
    && files[segment] == Stream(rs)[..cut] + Stream(more)
  }

  /** The entries of records whose frames begin at position base, with the offsets their appends returned. */
  function EntriesBehind(segment: nat, base: nat, rs: seq<Record>): (es: seq<LogEntry>)
    ensures |es| == |rs|
  {
    seq(|rs|, i requires 0 <= i < |rs| =>
      LogEntry(rs[i].timestamp, rs[i].data, Pack(segment, base + Start(rs, i))))
  }

  /** A crash inside an Append, a restart, and any appends, rotations and further restarts behind it. */
  lemma AppendsAfterCrash(files: Files, rs: seq<Record>, cut: nat, maxSize: int, ops: seq<LogRuns.LogOp>)
    requires var n := Latest(files);
             n < TWO_31 && n in files && cut <= |Stream(rs)| && files[n] == Stream(rs)[..cut]
    ensures ValidLog(Opened(files))
    ensures var n := Latest(files);
            var more := LogRuns.Records(ops);
            var (end, offsets) := LogRuns.Run(Opened(files), maxSize, ops);
            && (cut + |Stream(more)| < TWO_32 ==> HoldsTorn(end.files, n, rs, cut, more))
            && |offsets| == |more|
            && (forall i | 0 <= i < |more| :: offsets[i] == Pack(n, cut + Start(more, i)))
  {
    hide Stream, Start, Pack;
    OpenedIsValid(files);
    LogRuns.RunExtends(Opened(files), maxSize, ops);
  }

  // ---------- Reading past whole records ----------

  /** One record read, and what follows it. */
  lemma ReadOn(files: Files, segment: nat, at: nat, r: Record)
    requires segment < TWO_31 && segment in files && at + FrameSize(r) <= |files[segment]| < TWO_32
    requires ReadAt(files[segment], at) == Got(r)
    ensures Read(files, Pack(segment, at)) == Ok(LogEntry(r.timestamp, r.data, Pack(segment, at)))
    ensures ReadAll(files, Pack(segment, at))
         == Prepend([LogEntry(r.timestamp, r.data, Pack(segment, at))],
                    ReadAll(files, Pack(segment, at + FrameSize(r))))
  {
    hide ReadAt, Pack;
    PackRoundTrip(segment, at);
    AdvanceWithinSegment(segment, at, FrameSize(r));
  }

  /** Read from an offset that an Append behind the tear returned, the records from there on come back as enqueued. */
  lemma {:induction false} ReadBehindAll(files: Files, segment: nat, base: seq<Byte>, rs: seq<Record>, j: nat)
    requires segment < TWO_31 && segment in files && files[segment] == base + Stream(rs)
    requires |base| + |Stream(rs)| < TWO_32 && j <= |rs|
    ensures ReadAll(files, Pack(segment, |base| + Start(rs, j)))
         == Ok(EntriesBehind(segment, |base|, rs)[j..])
    decreases |rs| - j
  {
    hide Start, Stream, Pack, ReadAt;
    var at := |base| + Start(rs, j);
    if j == |rs| {
      ReadAtLength(files, segment);
      assert EntriesBehind(segment, |base|, rs)[j..] == [];
    } else {
      FrameStandsAt(rs, j);
      ReadBehind(base, rs, j);
      ReadOn(files, segment, at, rs[j]);
      ReadBehindAll(files, segment, base, rs, j + 1);
      var es := EntriesBehind(segment, |base|, rs);
      assert [es[j]] + es[j + 1..] == es[j..];
    }
  }

  lemma ReadAtLength(files: Files, segment: nat)
    requires segment < TWO_31 && segment in files && |files[segment]| < TWO_32
    ensures ReadAll(files, Pack(segment, |files[segment]|)) == Ok([])
  {
    hide Pack;
    PackRoundTrip(segment, |files[segment]|);
  }

  /** The records that lie whole before the cut are read as they were enqueued; then comes what stands at the cut. */
  lemma {:induction false} ReadUpTo(files: Files, segment: nat, rs: seq<Record>, cut: nat, more: seq<Record>,
                                    j: nat, k: nat)
    requires HoldsTorn(files, segment, rs, cut, more) && j <= k <= |rs| && Start(rs, k) <= cut
    ensures ReadAll(files, Pack(segment, Start(rs, j)))
         == Prepend(Entries(segment, rs)[j..k], ReadAll(files, Pack(segment, Start(rs, k))))
    decreases k - j
  {
    hide Start, Stream, Pack, ReadAt, ReadAll;
    var es := Entries(segment, rs);
    if j == k {
      assert es[j..k] == [];
    } else {
      StartIncreases(rs, j + 1, k);
      FrameStandsAt(rs, j);
      var file := files[segment];
      assert file[Start(rs, j)..Start(rs, j + 1)] == Stream(rs)[Start(rs, j)..Start(rs, j + 1)];
      ReadInvertsFrame(rs[j], file, Start(rs, j));
      ReadOn(files, segment, Start(rs, j), rs[j]);
      ReadUpTo(files, segment, rs, cut, more, j + 1, k);
      assert [es[j]] + es[j + 1..k] == es[j..k];
      PrependTwice([es[j]], es[j + 1..k], ReadAll(files, Pack(segment, Start(rs, k))));
    }
  }

  // ---------- The torn record ----------

  /** A frame whose data was cut after h bytes is read with what stands behind it as the rest of its data. */
  lemma ReadCompletedFrame(base: seq<Byte>, r: Record, h: nat, tail: seq<Byte>)
    requires h < |r.data| < TWO_32
    ensures ReadAt(base + (Header(r) + r.data[..h]) + tail, |base|)
         == if |r.data| - h > |tail| then DataTorn
            else Got(Record(r.timestamp, r.data[..h] + tail[..|r.data| - h]))
  {
    hide Header;
    var file, at := base + (Header(r) + r.data[..h]) + tail, |base|;
    assert file[at..at + HEADER_SIZE] == Header(r);
    assert file[at + HEADER_SIZE..] == r.data[..h] + tail;
    HeaderRoundTrip(r, file, at);
    Int64RoundTrip(r.timestamp);
    if |r.data| - h <= |tail| {
      assert file[at + HEADER_SIZE..at + HEADER_SIZE + |r.data|] == (r.data[..h] + tail)[..|r.data|];
    }
  }

  /** What the cut leaves of a segment: the records before it, and the beginning of one frame. */
  lemma CutInsideData(rs: seq<Record>, k: nat, h: nat)
    requires k < |rs| && h < |rs[k].data|
    ensures Start(rs, k) + HEADER_SIZE + h <= |Stream(rs)|
    ensures Stream(rs)[..Start(rs, k) + HEADER_SIZE + h]
         == Stream(rs)[..Start(rs, k)] + (Header(rs[k]) + rs[k].data[..h])
  {
    hide Start, Stream, Header;
    FrameStandsAt(rs, k);
    var at, frame := Start(rs, k), Stream(rs)[Start(rs, k)..Start(rs, k + 1)];
    assert frame[..HEADER_SIZE + h] == Header(rs[k]) + rs[k].data[..h];
    assert Stream(rs)[..at + HEADER_SIZE + h] == Stream(rs)[..at] + frame[..HEADER_SIZE + h];
  }

  /**
   * Of record k the header and the first h bytes of data survived: what is read in its place has its
   * timestamp and its length, the missing bytes being taken from the frames behind it; there is an
   * error only if those do not reach.
   */
  lemma TornRecordIsCompleted(files: Files, segment: nat, rs: seq<Record>, cut: nat, more: seq<Record>, k: nat, h: nat)
    requires HoldsTorn(files, segment, rs, cut, more) && k < |rs| && |rs[k].data| < TWO_32
    requires h < |rs[k].data| && cut == Start(rs, k) + HEADER_SIZE + h
    ensures var missing, offset := |rs[k].data| - h, Pack(segment, Start(rs, k));
            Read(files, offset)
              == if missing > |Stream(more)| then Err(TornData)
                 else Ok(LogEntry(rs[k].timestamp, rs[k].data[..h] + Stream(more)[..missing], offset))
  {
    hide Start, Stream, Pack, ReadAt, Header;
    PackRoundTrip(segment, Start(rs, k));
    CutInsideData(rs, k, h);
    ReadCompletedFrame(Stream(rs)[..Start(rs, k)], rs[k], h, Stream(more));
  }

  /**
   * When the missing bytes are those of the first j later frames, these records are swallowed: in their
   * place and the torn one's stands a record that nobody enqueued. The others are read as enqueued.
   */
  lemma LaterRecordsAreSwallowed(files: Files, segment: nat, rs: seq<Record>, cut: nat, more: seq<Record>,
                                 k: nat, h: nat, j: nat)
    requires HoldsTorn(files, segment, rs, cut, more) && k < |rs| && |rs[k].data| < TWO_32 && j <= |more|
    requires h < |rs[k].data| && cut == Start(rs, k) + HEADER_SIZE + h && |rs[k].data| - h == Start(more, j)
    ensures var made := LogEntry(rs[k].timestamp, rs[k].data[..h] + Stream(more[..j]), Pack(segment, Start(rs, k)));
            ReadAll(files, Pack(segment, 0))
              == Ok(Entries(segment, rs)[..k] + [made] + EntriesBehind(segment, cut, more)[j..])
  {
    hide Start, Stream, Pack, Read, ReadAt, ReadAll;
    var made := LogEntry(rs[k].timestamp, rs[k].data[..h] + Stream(more[..j]), Pack(segment, Start(rs, k)));
    StreamUpTo(more, j);
    TornRecordIsCompleted(files, segment, rs, cut, more, k, h);
    StartIncreases(rs, 0, k);
    assert Start(rs, 0) == 0 by {
      StartOfNothing(rs);
    }
    ReadUpTo(files, segment, rs, cut, more, 0, k);
    ReadStep(files, segment, Start(rs, k), made);
    ReadBehindAll(files, segment, Stream(rs)[..cut], more, j);
    var es, rest := Entries(segment, rs)[..k], EntriesBehind(segment, cut, more)[j..];
    assert Entries(segment, rs)[0..k] == es;
    assert es + ([made] + rest) == es + [made] + rest;
  }

  lemma StartOfNothing(rs: seq<Record>)
    ensures Start(rs, 0) == 0
  {
  }

  lemma ReadStep(files: Files, segment: nat, at: nat, e: LogEntry)
    requires segment < TWO_31 && at < TWO_32 && Read(files, Pack(segment, at)) == Ok(e)
    requires at + HEADER_SIZE + |e.data| < TWO_32 && e.offset == Pack(segment, at)
    ensures ReadAll(files, Pack(segment, at))
         == Prepend([e], ReadAll(files, Pack(segment, at + HEADER_SIZE + |e.data|)))
  {
    hide Pack, Read;
    AdvanceWithinSegment(segment, at, HEADER_SIZE + |e.data|);
  }

  // ---------- When it is harmless ----------

  /** What stands at the torn record's place is an entry, or an error, never the end. */
  lemma TornPlaceIsRead(files: Files, segment: nat, rs: seq<Record>, cut: nat, more: seq<Record>, k: nat)
    requires HoldsTorn(files, segment, rs, cut, more) && k < |rs| && Start(rs, k) < cut
    ensures var rest := ReadAll(files, Pack(segment, Start(rs, k)));
            rest.Ok? ==> |rest.value| > 0 && rest.value[0].offset == Pack(segment, Start(rs, k))
  {
    hide Start, Stream, Pack;
    PackRoundTrip(segment, Start(rs, k));
  }

  /** Some Append returned the offset: of a record before the cut, or of one behind it. */
  ghost predicate Returned(segment: nat, rs: seq<Record>, cut: nat, more: seq<Record>, offset: Int64) {
    || (exists i | 0 <= i < WholeBefore(rs, cut) :: offset == Pack(segment, Start(rs, i)))
    || (exists j | 0 <= j < |more| :: offset == Pack(segment, cut + Start(more, j)))
  }

  /** The torn record's own Append returned nothing, nor did any other return its offset. */
  lemma TornOffsetIsNobodys(segment: nat, rs: seq<Record>, cut: nat, more: seq<Record>)
    requires segment < TWO_31 && cut <= |Stream(rs)| && cut + |Stream(more)| < TWO_32 && !OnBoundary(rs, cut)
    ensures var k := WholeBefore(rs, cut);
            k < |rs| && Start(rs, k) < cut && !Returned(segment, rs, cut, more, Pack(segment, Start(rs, k)))
  {
    hide Stream, Start, Pack;
    var k := WholeBefore(rs, cut);
    assert Start(rs, k) != cut;
    forall i | 0 <= i < k
      ensures Pack(segment, Start(rs, i)) != Pack(segment, Start(rs, k))
    {
      StartIncreases(rs, i + 1, k);
      StartIncreases(rs, i, i + 1);
      PackPreservesOrder(segment, Start(rs, i), segment, Start(rs, k));
    }
    forall j | 0 <= j < |more|
      ensures Pack(segment, cut + Start(more, j)) != Pack(segment, Start(rs, k))
    {
      StartIncreases(more, j, |more|);
      PackPreservesOrder(segment, Start(rs, k), segment, cut + Start(more, j));
    }
  }

  /**
   * Read from its start, the segment gives exactly the records before the cut and those enqueued after
   * the crash, each at the offset its Append returned, when the crash fell between two records; in
   * every other case there is an error, or an entry at an offset that no Append returned.
   */
  lemma TornSegmentExactly(files: Files, segment: nat, rs: seq<Record>, cut: nat, more: seq<Record>)
    requires HoldsTorn(files, segment, rs, cut, more)
    ensures var all := ReadAll(files, Pack(segment, 0));
            var enqueued := Entries(segment, rs)[..WholeBefore(rs, cut)] + EntriesBehind(segment, cut, more);
            && (OnBoundary(rs, cut) ==> all == Ok(enqueued))
            && (OnBoundary(rs, cut) <==>
                  all.Ok? && forall e | e in all.value :: Returned(segment, rs, cut, more, e.offset))
  {
    hide Stream, Start, Pack, ReadAll, Returned;
    var k := WholeBefore(rs, cut);
    StartOfNothing(rs);
    ReadUpTo(files, segment, rs, cut, more, 0, k);
    assert Entries(segment, rs)[0..k] == Entries(segment, rs)[..k];
    if OnBoundary(rs, cut) {
      BoundaryIsWhole(rs, cut);
      StartOfNothing(more);
      ReadBehindAll(files, segment, Stream(rs)[..cut], more, 0);
      EnqueuedAreReturned(segment, rs, cut, more);
    } else {
      TornOffsetIsNobodys(segment, rs, cut, more);
      TornPlaceIsRead(files, segment, rs, cut, more, k);
      var rest := ReadAll(files, Pack(segment, Start(rs, k)));
      if rest.Ok? {
        assert (Entries(segment, rs)[..k] + rest.value)[k] == rest.value[0];
      }
    }
  }

  lemma BoundaryIsWhole(rs: seq<Record>, cut: nat)
    requires OnBoundary(rs, cut)
    ensures Start(rs, WholeBefore(rs, cut)) == cut
  {
    hide Start;
    var j :| 0 <= j <= |rs| && Start(rs, j) == cut;
    var k := WholeBefore(rs, cut);
    if j < k {
      StartIncreases(rs, j, k);
    } else if k < j {
      StartIncreases(rs, k + 1, j);
    }
  }

  lemma EnqueuedAreReturned(segment: nat, rs: seq<Record>, cut: nat, more: seq<Record>)
    ensures forall e | e in Entries(segment, rs)[..WholeBefore(rs, cut)] + EntriesBehind(segment, cut, more) ::
              Returned(segment, rs, cut, more, e.offset)
  {
    hide Start, Pack;
    var es := Entries(segment, rs)[..WholeBefore(rs, cut)] + EntriesBehind(segment, cut, more);
    forall i | 0 <= i < |es|
      ensures Returned(segment, rs, cut, more, es[i].offset)
    {
      var k := WholeBefore(rs, cut);
      if i < k {
        assert es[i].offset == Pack(segment, Start(rs, i));
      } else {
        assert es[i].offset == Pack(segment, cut + Start(more, i - k));
      }
    }
  }

  /** The same of every run that follows the crash: restarts, rotations and appends with any segment size. */
  lemma CrashIsHarmlessExactly(files: Files, rs: seq<Record>, cut: nat, maxSize: int, ops: seq<LogRuns.LogOp>)
    requires var n := Latest(files);
             n < TWO_31 && n in files && cut <= |Stream(rs)| && files[n] == Stream(rs)[..cut]
    requires cut + |Stream(LogRuns.Records(ops))| < TWO_32
    ensures ValidLog(Opened(files))
    ensures var n, more := Latest(files), LogRuns.Records(ops);
            var all := ReadAll(LogRuns.Run(Opened(files), maxSize, ops).0.files, Pack(n, 0));
            && (OnBoundary(rs, cut) ==>
                  all == Ok(Entries(n, rs)[..WholeBefore(rs, cut)] + EntriesBehind(n, cut, more)))
            && (OnBoundary(rs, cut) <==>
                  all.Ok? && forall e | e in all.value :: Returned(n, rs, cut, more, e.offset))
  {
    hide Stream, Pack, ReadAll, Returned, LogRuns.Run, LogRuns.Records;
    AppendsAfterCrash(files, rs, cut, maxSize, ops);
    var end := LogRuns.Run(Opened(files), maxSize, ops).0;
    TornSegmentExactly(end.files, Latest(files), rs, cut, LogRuns.Records(ops));
  }
}
