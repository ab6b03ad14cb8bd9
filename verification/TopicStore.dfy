/** A topic: one log, its index and its consumers' offsets (pkg/queue/topic.go). */
module TopicStore {
  import opened Numbers
  import opened Results
  import opened Offsets
  import opened Directories
  import opened Framing
  import opened SegmentLog
  import opened IndexEntries
  import opened IndexStore
  import opened CatalogStore

  /** The topics directory, and the settings a topic reads; the code's validation keeps the interval positive. */
  datatype Settings = Settings(root: Path, indexInterval: int, segmentSize: int)

  type Config = c: Settings | c.indexInterval > 0 witness Settings([], 1, 0)

  datatype TopicState = TopicState(log: LogState, index: IndexState, catalog: CatalogState, closed: bool)

  datatype TopicError = TopicClosed | ReadFailed(error: ReadError) | WriteFailed

  /** What a topic's directory holds: segment files, index.idx and consumers.json. */
  datatype Disk = Disk(files: Files, indexFile: seq<Byte>, catalogFile: Option<CatalogStore.Offsets>)

  const EMPTY_DISK := Disk(map[], [], None)

  /** What a topic keeps in memory. */
  datatype TopicMemory = TopicMemory(segmentIndex: nat, currentSize: nat, entries: seq<IndexEntry>, indexDirty: bool,
                                     consumers: CatalogStore.Offsets, catalogDirty: bool, closed: bool)

  function OnDisk(st: TopicState): Disk {
    Disk(st.log.files, st.index.file, st.catalog.file)
  }

  function InMemory(st: TopicState): TopicMemory {
    TopicMemory(st.log.segmentIndex, st.log.currentSize, st.index.entries, st.index.dirty,
                st.catalog.consumers, st.catalog.dirty, st.closed)
  }

  /** A topic that keeps m in memory and works on disk. */
  function Joined(m: TopicMemory, disk: Disk): TopicState {
    TopicState(LogState(disk.files, m.segmentIndex, m.currentSize), IndexState(m.entries, m.indexDirty, disk.indexFile),
               CatalogState(m.consumers, m.catalogDirty, disk.catalogFile), m.closed)
  }

  /** The disk with its log opened. */
  function WithLog(disk: Disk): Disk {
    disk.(files := Opened(disk.files).files)
  }

  lemma JoinedAgain(st: TopicState)
    ensures Joined(InMemory(st), OnDisk(st)) == st
  {
  }

  /** initialize: open the log, load the index, load the catalog. */
  function Initialized(disk: Disk): (st: TopicState)
    ensures SegmentExists(st.log) && !st.closed
  {
    OpenedIsValid(disk.files);
    TopicState(Opened(disk.files), LoadedIndex(disk.indexFile), LoadedCatalog(disk.catalogFile), false)
  }

  /** A topic that is alone on its directory: memory and files are in step. */
  ghost predicate ValidTopic(st: TopicState) {
    ValidLog(st.log) && ValidIndex(st.index) && ValidCatalog(st.catalog)
  }

  /** shouldIndex: every offset that is a multiple of the configured interval. */
  predicate ShouldIndex(interval: int, offset: Int64)
    requires interval > 0
  {
    offset % interval == 0
  }

  function Indexed(config: Config, st: IndexState, offset: Int64): IndexState {
    if ShouldIndex(config.indexInterval, offset)
    then IndexState(Inserted(st.entries, IndexEntry(offset, offset)), true, st.file)
    else st
  }

  function EnqueueStep(config: Config, st: TopicState, r: Record): (TopicState, Result<Int64, TopicError>)
    requires SegmentExists(st.log)
  {
    if st.closed then (st, Err(TopicClosed))
    else
      var (log, offset) := AppendStep(st.log, config.segmentSize, r);
      (st.(log := log, index := Indexed(config, st.index, offset)), Ok(offset))
  }

  /** readFromOffset's limit. */
  function Limited(entries: seq<LogEntry>, limit: nat): seq<LogEntry> {
    if |entries| > limit then entries[..limit] else entries
  }

  /** A batch moves the consumer to just past its last entry; an empty batch leaves it. */
  function Advanced(st: CatalogState, consumer: string, batch: seq<LogEntry>): CatalogState {
    if batch == [] then st else Updated(st, consumer, NextOffset(batch[|batch| - 1]))
  }

  function DequeueStep(st: TopicState, consumer: string, limit: nat): (TopicState, Result<seq<LogEntry>, TopicError>) {
    if st.closed then (st, Err(TopicClosed))
    else
      match ReadAll(st.log.files, OffsetOf(st.catalog.consumers, consumer))
      case Err(e) => (st, Err(ReadFailed(e)))
      case Ok(all) =>
        var batch := Limited(all, limit);
        (st.(catalog := Advanced(st.catalog, consumer, batch)), Ok(batch))
  }

  function SetOffsetStep(st: TopicState, consumer: string, offset: Int64): (TopicState, Result<(), TopicError>) {
    if st.closed then (st, Err(TopicClosed))
    else (st.(catalog := Updated(st.catalog, consumer, offset)), Ok(()))
  }

  /** The state with index and catalog written out. */
  function Saved(st: TopicState): TopicState {
    st.(index := SavedIndex(st.index), catalog := SavedCatalog(st.catalog))
  }

  /** Sync: the index is written first; a snapshot that cannot be written stays dirty. */
  function SyncStep(st: TopicState, writable: bool := true): (TopicState, Result<(), TopicError>) {
    if st.closed then (st, Err(TopicClosed))
    else if writable || !st.catalog.dirty then (Saved(st), Ok(()))
    else (st.(index := SavedIndex(st.index)), Err(WriteFailed))
  }

  /** Close: as Sync, and the topic is closed even if its snapshot could not be written. */
  function CloseStep(st: TopicState, writable: bool := true): TopicState {
    if st.closed then st else SyncStep(st, writable).0.(closed := true)
  }

  /** The process stops between two operations and the topic is loaded again from its directory. */
  function RestartStep(st: TopicState): TopicState {
    Initialized(OnDisk(st))
  }

  /** On a topic that is alone on its directory the segment size plays no part. */
  lemma EnqueueAppends(config: Config, st: TopicState, r: Record)
    requires ValidLog(st.log) && !st.closed
    ensures var offset := Pack(st.log.segmentIndex, st.log.currentSize);
            EnqueueStep(config, st, r)
              == (st.(log := Appended(st.log, r), index := Indexed(config, st.index, offset)), Ok(offset))
  {
    hide Pack, Appended;
    AppendIgnoresMaxSize(st.log, config.segmentSize, r);
  }

  lemma EnqueueKeepsValid(config: Config, st: TopicState, r: Record)
    requires ValidTopic(st)
    ensures ValidTopic(EnqueueStep(config, st, r).0)
  {
    hide Pack, Appended, AppendStep, Indexed, ValidIndex;
    if !st.closed {
      EnqueueAppends(config, st, r);
      AppendedIsValid(st.log, r);
      IndexedKeepsValid(config, st.index, Pack(st.log.segmentIndex, st.log.currentSize));
    }
  }

  lemma IndexedKeepsValid(config: Config, st: IndexState, offset: Int64)
    requires ValidIndex(st)
    ensures ValidIndex(Indexed(config, st, offset))
  {
    hide Inserted, Upsert;
    InsertedIsUpsert(st.entries, IndexEntry(offset, offset));
    UpsertKeepsSorted(st.entries, IndexEntry(offset, offset));
  }

  lemma SavedKeepsValid(st: TopicState)
    requires ValidTopic(st)
    ensures ValidTopic(Saved(st)) && ValidTopic(CloseStep(st))
  {
    SaveThenLoad(st.index);
  }

  lemma RestartKeepsValid(st: TopicState)
    requires ValidTopic(st)
    ensures ValidTopic(RestartStep(st)) && RestartStep(st).log == st.log
  {
    ReopenIsIdentity(st.log);
  }

  lemma InitializedIsValid(disk: Disk)
    requires Sorted(Decode(disk.indexFile))
    ensures ValidTopic(Initialized(disk))
  {
    OpenedIsValid(disk.files);
  }

  /** Whatever else works on the directory, no step of a topic takes a segment file away or makes one. */
  lemma StepsKeepSegments(config: Config, st: TopicState, r: Record)
    requires SegmentExists(st.log)
    ensures st.log.files.Keys == EnqueueStep(config, st, r).0.log.files.Keys
    ensures SegmentExists(EnqueueStep(config, st, r).0.log)
  {
    hide AppendStep;
    AppendKeepsSegments(st.log, config.segmentSize, r);
  }

  /** Closing and loading again gives back every record, every index entry and every consumer's offset. */
  lemma CloseThenRestartLosesNothing(st: TopicState)
    requires ValidTopic(st) && !st.closed
    ensures var back := RestartStep(CloseStep(st));
            && back == Saved(st)
            && back.log == st.log
            && back.index.entries == st.index.entries
            && back.catalog.consumers == st.catalog.consumers
  {
    SaveThenLoad(st.index);
    ReopenIsIdentity(st.log);
  }

  /** A snapshot that could not be written is written by the next Sync that can write it, as if none had failed. */
  lemma FailedSyncIsMadeGood(st: TopicState)
    requires !st.closed
    ensures var (failed, reply) := SyncStep(st, false);
            && (reply.Err? <==> st.catalog.dirty)
            && failed.catalog == st.catalog && failed.log == st.log && !failed.closed
            && SyncStep(failed, true) == SyncStep(st, true)
            && SyncStep(st, true).1 == Ok(())
            && SyncStep(st, true).0.catalog.file == if st.catalog.dirty then Some(st.catalog.consumers)
                                                    else st.catalog.file
  {
  }

  /** getMessageCount's estimate from the topic's size, at least one byte of data a message; / truncates toward zero. */
  function MessageCount(size: Int64): int {
    var n: int := size;
    if n >= 0 then n / (HEADER_SIZE + 1) else -(-n / (HEADER_SIZE + 1))
  }

  /** The bytes of data in a log. */
  function DataBytes(rs: seq<Record>): nat {
    if rs == [] then 0 else DataBytes(rs[..|rs| - 1]) + |rs[|rs| - 1].data|
  }

  lemma {:induction false} SizeIsHeadersAndData(rs: seq<Record>)
    ensures Start(rs, |rs|) == HEADER_SIZE * |rs| + DataBytes(rs)
  {
    if rs != [] {
      var front := rs[..|rs| - 1];
      SizeIsHeadersAndData(front);
      StartOfPrefix(rs, |rs| - 1, |rs| - 1);
    }
  }

  /**
   * When the highest segment holds rs, the estimate is their number exactly when the packed size less
   * the headers lies between |rs| and |rs| + 12. In segment 0 that difference is the data; above
   * segment 0 it counts the segment's number as bytes, and the estimate is always too high.
   */
  lemma MessageCountIsExact(segment: nat, rs: seq<Record>)
    ensures var size := Pack(segment, Start(rs, |rs|));
            && (size >= 0 ==> (MessageCount(size) == |rs| <==>
                  |rs| <= size - HEADER_SIZE * |rs| <= |rs| + HEADER_SIZE))
            && (segment == 0 && Start(rs, |rs|) < TWO_63 ==> size - HEADER_SIZE * |rs| == DataBytes(rs))
            && (0 < segment < TWO_31 && Start(rs, |rs|) < TWO_32 ==> MessageCount(size) > |rs|)
  {
    hide Pack, Start;
    SizeIsHeadersAndData(rs);
    if segment == 0 && Start(rs, |rs|) < TWO_63 {
      FirstSegmentIsPlain(Start(rs, |rs|));
    }
    if segment < TWO_31 && Start(rs, |rs|) < TWO_32 {
      PackIsSum(segment, Start(rs, |rs|));
    }
  }

  /** A topic's directory: what every topic opened on it shares. */
  class Directory {
    const segments: SegmentFiles
    const indexFile: IndexFile
    const snapshot: SnapshotFile

    ghost const Repr: set<object> := {segments, indexFile, snapshot}

    function Contents(): Disk
      reads Repr
    {
      Disk(segments.files, indexFile.bytes, snapshot.content)
    }

    constructor (disk: Disk)
      ensures fresh(Repr) && Contents() == disk
    {
      segments := new SegmentFiles(disk.files);
      indexFile := new IndexFile(disk.indexFile);
      snapshot := new SnapshotFile(disk.catalogFile);
    }

    /** NewLog without the rest of NewTopic: the highest segment is there afterwards. */
    method OpenLog(segmentSize: int)
      modifies Repr
      ensures Contents() == WithLog(old(Contents()))
    {
      hide Opened;
      var log := new Log(segments, segmentSize);
    }
  }

  class Topic {
    const name: string
    const config: Config
    const directory: Directory
    const log: Log
    const index: Index
    const catalog: Catalog
    var closed: bool

    /** The topic's own objects; its directory may have other users. */
    ghost const Own: set<object> := {this, log, index, catalog}
    ghost const Repr: set<object> := Own + directory.Repr

    /** Log, index and catalog work on the topic's directory. */
    ghost predicate Wired() {
      && log.directory == directory.segments && log.maxSize == config.segmentSize
      && index.file == directory.indexFile
      && catalog.file == directory.snapshot
    }

    ghost predicate Valid()
      reads Repr
    {
      Wired() && SegmentExists(State().log)
    }

    ghost function Memory(): TopicMemory
      reads Own
    {
      TopicMemory(log.segmentIndex, log.currentSize, index.entries, index.dirty,
                  catalog.consumers, catalog.dirty, closed)
    }

    ghost function State(): TopicState
      reads Repr
    {
      Joined(Memory(), directory.Contents())
    }

    /** NewTopic on its directory, which another topic may already be using. */
    constructor (name: string, config: Config, directory: Directory)
      modifies directory.Repr
      ensures Valid() && fresh(Own)
      ensures State() == Initialized(old(directory.Contents()))
      ensures this.name == name && this.config == config && this.directory == directory
    {
      OpenedIsValid(directory.segments.files);
      this.name := name;
      this.config := config;
      this.directory := directory;
      this.closed := false;
      this.log := new Log(directory.segments, config.segmentSize);
      this.index := new Index(directory.indexFile);
      this.catalog := new Catalog(directory.snapshot);
    }

    method Enqueue(timestamp: Int64, data: seq<Byte>) returns (result: Result<Int64, TopicError>)
      requires Valid()
      modifies Repr
      ensures Valid()
      ensures (State(), result) == EnqueueStep(config, old(State()), Record(timestamp, data))
    {
      if closed {
        return Err(TopicClosed);
      }
      hide AppendStep, Inserted;
      var offset := log.Append(timestamp, data);
      if offset % config.indexInterval == 0 {
        index.AddEntry(offset, offset);
      }
      return Ok(offset);
    }

    method ReadFromOffset(offset: Int64, maxMessages: nat) returns (result: Result<seq<LogEntry>, ReadError>)
      ensures result == match ReadAll(log.directory.files, offset)
                        case Err(e) => Err(e)
                        case Ok(all) => Ok(Limited(all, maxMessages))
    {
      var allEntries := log.ReadFrom(offset);
      if allEntries.Err? {
        return allEntries;
      }
      if |allEntries.value| > maxMessages {
        return Ok(allEntries.value[..maxMessages]);
      }
      return allEntries;
    }

    method Dequeue(consumer: string, maxMessages: nat) returns (result: Result<seq<LogEntry>, TopicError>)
      requires Valid()
      modifies Repr
      ensures Valid()
      ensures (State(), result) == DequeueStep(old(State()), consumer, maxMessages)
    {
      if closed {
        return Err(TopicClosed);
      }
      var offset := catalog.GetOffset(consumer);
      var entries := ReadFromOffset(offset, maxMessages);
      if entries.Err? {
        return Err(ReadFailed(entries.error));
      }
      if |entries.value| > 0 {
        var lastEntry := entries.value[|entries.value| - 1];
        catalog.UpdateOffset(consumer, Wrap64(lastEntry.offset + HEADER_SIZE + |lastEntry.data|));
      }
      return Ok(entries.value);
    }

    method UpdateConsumerOffset(consumer: string, offset: Int64) returns (result: Result<(), TopicError>)
      requires Valid()
      modifies Repr
      ensures Valid()
      ensures (State(), result) == SetOffsetStep(old(State()), consumer, offset)
    {
      if closed {
        return Err(TopicClosed);
      }
      catalog.UpdateOffset(consumer, offset);
      return Ok(());
    }

    method Sync(writable: bool) returns (result: Result<(), TopicError>)
      requires Valid()
      modifies Repr
      ensures Valid()
      ensures (State(), result) == SyncStep(old(State()), writable)
    {
      if closed {
        return Err(TopicClosed);
      }
      index.Sync();
      var saved := catalog.Sync(writable);
      return if saved then Ok(()) else Err(WriteFailed);
    }

    method Close(writable: bool) returns (result: Result<(), TopicError>)
      requires Valid()
      modifies Repr
      ensures Valid()
      ensures State() == CloseStep(old(State()), writable)
      ensures result == if old(closed) then Ok(()) else SyncStep(old(State()), writable).1
    {
      if closed {
        return Ok(());
      }
      index.Sync();
      var saved := catalog.Sync(writable);
      closed := true;
      return if saved then Ok(()) else Err(WriteFailed);
    }
  }
}
