/** The append-only log of pkg/storage/log.go: a directory of segment files and the segment open for writing. */
module SegmentLog {
  import opened Numbers
  import opened Results
  import opened Offsets
  import opened Framing

  /** The directory: the bytes of each segment file, by segment number. */
  type Files = map<nat, seq<Byte>>

  datatype LogEntry = LogEntry(timestamp: Int64, data: seq<Byte>, offset: Int64)

  datatype ReadError = SegmentMissing | EndOfSegment | TornHeader | TornData

  // ---------- The directory listing ----------

  lemma {:induction false} Maximum(s: set<nat>) returns (m: nat)
    requires s != {}
    ensures m in s && forall x | x in s :: x <= m
  {
    var x :| x in s;
    m := x;
    var rest := s - {x};
    if rest != {} {
      var n := Maximum(rest);
      m := if n < x then x else n;
    }
    assert forall y | y in s :: y == x || y in rest;
  }

  lemma HasMaximum(s: set<nat>)
    requires s != {}
    ensures exists m :: m in s && forall x | x in s :: x <= m
  {
    var m := Maximum(s);
  }

  function MaxOf(s: set<nat>): (m: nat)
    requires s != {}
    ensures m in s && forall x | x in s :: x <= m
  {
    HasMaximum(s);
    var m :| m in s && forall x | x in s :: x <= m;
    m
  }

  /** os.ReadDir on zero-padded names: the segment numbers in ascending order. */
  function Ascending(s: set<nat>): (listing: seq<nat>)
    ensures forall x :: x in s <==> x in listing
    ensures forall i, j | 0 <= i < j < |listing| :: listing[i] < listing[j]
  {
    if s == {} then []
    else
      var m := MaxOf(s);
      Ascending(s - {m}) + [m]
  }

  /** The highest segment number on disk, 0 for an empty directory. */
  function Latest(files: Files): nat {
    if files == map[] then 0 else MaxOf(files.Keys)
  }

  // ---------- Reading ----------

  /** Read: open the segment, seek, read header and data. */
  function Read(files: Files, offset: Int64): Result<LogEntry, ReadError> {
    var segment := SegmentOf(offset);
    if segment < 0 || segment !in files then Err(SegmentMissing)
    else
      match ReadAt(files[segment], PositionOf(offset))
      case HeaderEof => Err(EndOfSegment)
      case HeaderTorn => Err(TornHeader)
      case DataTorn => Err(TornData)
      case Got(r) => Ok(LogEntry(r.timestamp, r.data, offset))
  }

  /** The offset ReadFrom tries after an entry. */
  function NextOffset(e: LogEntry): Int64 {
    Wrap64(e.offset + HEADER_SIZE + |e.data|)
  }

  /** How far an offset is from the end of the last segment's address range. */
  function Distance(files: Files, offset: Int64): nat {
    if offset < 0 || offset >= (Latest(files) + 1) * TWO_32 then 0
    else (Latest(files) + 1) * TWO_32 - offset
  }

  /** Every entry read brings the offset nearer the end of the directory's address range (or wraps it below zero). */
  lemma ReadMakesProgress(files: Files, offset: Int64)
    requires Read(files, offset).Ok?
    ensures Distance(files, NextOffset(Read(files, offset).value)) < Distance(files, offset)
  {
    var segment := SegmentOf(offset);
    assert segment <= Latest(files);
    DataBelow4GiB(files[segment], PositionOf(offset));
    assert offset < (segment + 1) * TWO_32 <= (Latest(files) + 1) * TWO_32;
  }

  function Prepend(es: seq<LogEntry>, rest: Result<seq<LogEntry>, ReadError>): (r: Result<seq<LogEntry>, ReadError>)
    ensures es == [] ==> r == rest
  {
    match rest
    case Ok(more) => assert [] + more == more; Ok(es + more)
    case Err(e) => Err(e)
  }

  lemma PrependTwice(es: seq<LogEntry>, fs: seq<LogEntry>, rest: Result<seq<LogEntry>, ReadError>)
    ensures Prepend(es, Prepend(fs, rest)) == Prepend(es + fs, rest)
  {
    if rest.Ok? {
      assert es + (fs + rest.value) == es + fs + rest.value;
    }
  }

  /** All entries from an offset on: the end of the segment ends the list, any other error is returned. */
  function ReadAll(files: Files, offset: Int64): Result<seq<LogEntry>, ReadError>
    decreases Distance(files, offset)
  {
    match Read(files, offset)
    case Err(EndOfSegment) => Ok([])
    case Err(e) => Err(e)
    case Ok(entry) =>
      ReadMakesProgress(files, offset);
      Prepend([entry], ReadAll(files, NextOffset(entry)))
  }

  // ---------- Writing ----------

  datatype LogState = LogState(files: Files, segmentIndex: nat, currentSize: nat)

  /** The file open for appending is there. */
  predicate SegmentExists(st: LogState) {
    st.segmentIndex in st.files
  }

  /** The open segment is the highest on disk and currentSize is its length. */
  ghost predicate ValidLog(st: LogState) {
    && SegmentExists(st)
    && st.segmentIndex == Latest(st.files)
    && st.currentSize == |st.files[st.segmentIndex]|
  }

  /** What opening a directory gives: the highest segment, created empty when there is none. */
  function Opened(files: Files): LogState {
    var n := Latest(files);
    if n in files then LogState(files, n, |files[n]|) else LogState(files[n := []], n, 0)
  }

  /** What an append leaves: the open segment grown by one frame, everything else as it was. */
  function Appended(st: LogState, r: Record): LogState
    requires SegmentExists(st)
  {
    LogState(st.files[st.segmentIndex := st.files[st.segmentIndex] + Frame(r)],
             st.segmentIndex, st.currentSize + FrameSize(r))
  }

  /**
   * Append as the code runs it: a record that would pass maxSize first closes and reopens the segment,
   * which is when a log learns what another log on the same directory has appended.
   */
  function AppendStep(st: LogState, maxSize: int, r: Record): (LogState, Int64)
    requires SegmentExists(st)
  {
    var open := if st.currentSize + FrameSize(r) > maxSize then Opened(st.files) else st;
    (Appended(open, r), Pack(open.segmentIndex, open.currentSize))
  }

  lemma OpenedIsValid(files: Files)
    ensures ValidLog(Opened(files))
    ensures forall n :: n in files ==> n in Opened(files).files && Opened(files).files[n] == files[n]
  {
    if files == map[] {
      assert Opened(files).files.Keys == {0};
    }
  }

  /** Opening what a valid log left on disk gives that log back: rotation and restart are both this. */
  lemma ReopenIsIdentity(st: LogState)
    requires ValidLog(st)
    ensures Opened(st.files) == st
  {
  }

  /** No maxSize changes where a record goes or which offset it gets. */
  lemma AppendIgnoresMaxSize(st: LogState, maxSize: int, r: Record)
    requires ValidLog(st)
    ensures AppendStep(st, maxSize, r) == (Appended(st, r), Pack(st.segmentIndex, st.currentSize))
    ensures ValidLog(AppendStep(st, maxSize, r).0)
  {
    ReopenIsIdentity(st);
    AppendedIsValid(st, r);
  }

  lemma AppendedIsValid(st: LogState, r: Record)
    requires ValidLog(st)
    ensures ValidLog(Appended(st, r))
  {
    assert Appended(st, r).files.Keys == st.files.Keys;
  }

  /** An append neither takes a file away nor makes one. */
  lemma AppendKeepsSegments(st: LogState, maxSize: int, r: Record)
    requires SegmentExists(st)
    ensures SegmentExists(AppendStep(st, maxSize, r).0)
    ensures st.files.Keys == AppendStep(st, maxSize, r).0.files.Keys
  {
  }

  /**
   * An append puts its frame at the end of the highest segment in any case, but the offset it returns
   * is where that frame begins only if currentSize was right or the segment was reopened first.
   */
  lemma AppendOffsetIsRight(st: LogState, maxSize: int, r: Record)
    requires SegmentExists(st) && st.segmentIndex == Latest(st.files) < TWO_31
    requires st.currentSize < TWO_32 && |st.files[st.segmentIndex]| < TWO_32
    ensures var (next, offset) := AppendStep(st, maxSize, r);
            var n := st.segmentIndex;
            && next.files == st.files[n := st.files[n] + Frame(r)]
            && (offset == Pack(n, |st.files[n]|) <==>
                  st.currentSize == |st.files[n]| || st.currentSize + FrameSize(r) > maxSize)
  {
    hide Pack;
    PackIsSum(st.segmentIndex, st.currentSize);
    PackIsSum(st.segmentIndex, |st.files[st.segmentIndex]|);
  }

  /** The segment files of one directory: every log opened on the directory reads and appends to these. */
  class SegmentFiles {
    var files: Files

    constructor (files: Files)
      ensures this.files == files
    {
      this.files := files;
    }
  }

  class Log {
    const directory: SegmentFiles
    var segmentIndex: nat
    var currentSize: nat
    const maxSize: int

    function State(): LogState
      reads this, directory
    {
      LogState(directory.files, segmentIndex, currentSize)
    }

    constructor (directory: SegmentFiles, maxSize: int)
      modifies directory
      ensures this.directory == directory && this.maxSize == maxSize
      ensures State() == Opened(old(directory.files)) && ValidLog(State())
    {
      this.directory := directory;
      this.maxSize := maxSize;
      segmentIndex := 0;
      currentSize := 0;
      new;
      OpenCurrentSegment();
    }

    method FindLatestSegment() returns (maxIndex: nat)
      ensures maxIndex == Latest(directory.files)
    {
      var listing := Ascending(directory.files.Keys);
      maxIndex := 0;
      for i := 0 to |listing|
        invariant forall j | 0 <= j < i :: listing[j] <= maxIndex
        invariant maxIndex == 0 || maxIndex in listing
      {
        if listing[i] > maxIndex {
          maxIndex := listing[i];
        }
      }
      if directory.files != map[] {
        assert Latest(directory.files) in listing;
        assert maxIndex in directory.files.Keys || maxIndex == 0;
      }
    }

    method ListSegments() returns (segments: seq<nat>)
      ensures segments == Ascending(directory.files.Keys)
    {
      segments := Ascending(directory.files.Keys);
    }

    method OpenCurrentSegment()
      modifies this, directory
      ensures State() == Opened(old(directory.files)) && ValidLog(State())
    {
      segmentIndex := FindLatestSegment();
      OpenedIsValid(directory.files);
      if segmentIndex !in directory.files {
        directory.files := directory.files[segmentIndex := []];
      }
      currentSize := |directory.files[segmentIndex]|;
    }

    /** The increment is lost: reopening looks for the highest file on disk, which is the one just closed. */
    method RotateSegment()
      modifies this, directory
      ensures State() == Opened(old(directory.files)) && ValidLog(State())
      ensures old(ValidLog(State())) ==> State() == old(State())
    {
      segmentIndex := segmentIndex + 1;
      currentSize := 0;
      OpenCurrentSegment();
    }

    method Append(timestamp: Int64, data: seq<Byte>) returns (offset: Int64)
      requires SegmentExists(State())
      modifies this, directory
      ensures SegmentExists(State())
      ensures (State(), offset) == AppendStep(old(State()), maxSize, Record(timestamp, data))
      ensures old(ValidLog(State())) ==>
                && State() == Appended(old(State()), Record(timestamp, data)) && ValidLog(State())
                && offset == Pack(old(segmentIndex), old(currentSize))
    {
      hide Pack, Frame, BigEndian;
      if ValidLog(State()) {
        AppendIgnoresMaxSize(State(), maxSize, Record(timestamp, data));
      }
      var messageSize := HEADER_SIZE + |data|;
      if currentSize + messageSize > maxSize {
        RotateSegment();
      }
      ghost var ready := State();
      var position := currentSize;
      var header := BigEndian(ToUint64(timestamp), 8) + BigEndian(|data| % TWO_32, 4);
      WriteFrame(timestamp, header, data);
      currentSize := currentSize + messageSize;
      offset := Pack(segmentIndex, position);
      assert State() == Appended(ready, Record(timestamp, data));
    }

    /** The two writes to the open segment, header and data. */
    method WriteFrame(timestamp: Int64, header: seq<Byte>, data: seq<Byte>)
      requires SegmentExists(State()) && header == Header(Record(timestamp, data))
      modifies directory
      ensures directory.files
           == old(directory.files)[segmentIndex := old(directory.files)[segmentIndex] + Frame(Record(timestamp, data))]
    {
      ghost var before := directory.files[segmentIndex];
      directory.files := directory.files[segmentIndex := directory.files[segmentIndex] + header];
      directory.files := directory.files[segmentIndex := directory.files[segmentIndex] + data];
      assert before + header + data == before + Frame(Record(timestamp, data));
    }

    method ReadFrom(globalOffset: Int64) returns (result: Result<seq<LogEntry>, ReadError>)
      ensures result == ReadAll(directory.files, globalOffset)
    {
      var entries: seq<LogEntry> := [];
      var currentOffset := globalOffset;
      while true
        invariant ReadAll(directory.files, globalOffset) == Prepend(entries, ReadAll(directory.files, currentOffset))
        decreases Distance(directory.files, currentOffset)
      {
        var outcome := Read(directory.files, currentOffset);
        if outcome.Err? {
          if outcome.error == EndOfSegment {
            assert entries + [] == entries;
            return Ok(entries);
          }
          return Err(outcome.error);
        }
        ReadMakesProgress(directory.files, currentOffset);
        PrependTwice(entries, [outcome.value], ReadAll(directory.files, NextOffset(outcome.value)));
        entries := entries + [outcome.value];
        currentOffset := NextOffset(outcome.value);
      }
    }

    /** The address just past the last record, in packed form. */
    function GetSize(): Int64
      reads this
    {
      Pack(segmentIndex, currentSize)
    }
  }
}
