/** The queue: topics by name, created on first use, over directories that names may share (pkg/queue/queue.go). */
module QueueStore {
  import opened Numbers
  import opened Results
  import opened Directories
  import opened Offsets
  import opened Framing
  import opened SegmentLog
  import opened CatalogStore
  import opened TopicStore

  /** What is on disk, by directory, and what the queue keeps in memory, by topic name. */
  datatype QueueState = QueueState(disks: map<Path, Disk>, topics: map<string, TopicMemory>, closed: bool)

  datatype QueueError =
    | QueueClosed
    | NoSuchTopic
    | TopicExists
    | EmptyTopicName
    | CannotOpen
    | Unsaved(topics: seq<string>)
    | FromTopic(error: TopicError)

  const EMPTY_QUEUE := QueueState(map[], map[], false)

  function Home(config: Config, name: string): Path {
    DirectoryOf(config.root, name)
  }

  function At(disks: map<Path, Disk>, at: Path): Disk {
    if at in disks then disks[at] else EMPTY_DISK
  }

  function DiskAt(q: QueueState, at: Path): Disk {
    At(q.disks, at)
  }

  /** A topic as its operations see it: its own memory, and whatever now lies in its directory. */
  function TopicAt(config: Config, q: QueueState, name: string): TopicState
    requires name in q.topics
  {
    Joined(q.topics[name], DiskAt(q, Home(config, name)))
  }

  /** The topic has moved on to st, in memory and on disk. */
  function Put(config: Config, q: QueueState, name: string, st: TopicState): QueueState {
    q.(disks := q.disks[Home(config, name) := OnDisk(st)], topics := q.topics[name := InMemory(st)])
  }

  function WithDirectory(q: QueueState, at: Path): QueueState {
    q.(disks := q.disks[at := DiskAt(q, at)])
  }

  /** Every topic finds the segment it appends to. */
  ghost predicate ValidQueue(config: Config, q: QueueState) {
    forall n | n in q.topics :: SegmentExists(TopicAt(config, q, n).log)
  }

  function WrapError<T>(r: Result<T, TopicError>): Result<T, QueueError> {
    match r
    case Ok(v) => Ok(v)
    case Err(e) => Err(FromTopic(e))
  }

  // ---------- Opening a topic ----------

  /** A directory was made at this path: for a topic there or further down. */
  predicate DirectoryThere(disks: map<Path, Disk>, path: Path) {
    exists d | d in disks.Keys :: path <= d
  }

  /** A file of this name stands in the directory: a segment, the index of an opened log, or a snapshot. */
  predicate FileThere(disks: map<Path, Disk>, dir: Path, name: string)
    requires dir in disks
  {
    && !DirectoryThere(disks, dir + [name])
    && (|| (exists n | n in disks[dir].files.Keys :: SegmentName(n) == name)
        || (name == INDEX_FILE && disks[dir].files != map[])
        || (name == CATALOG_FILE && disks[dir].catalogFile.Some?))
  }

  /** os.MkdirAll fails: a file stands in the way. */
  predicate Blocked(disks: map<Path, Disk>, home: Path) {
    exists dir | dir in disks.Keys && |dir| < |home| && dir <= home :: FileThere(disks, dir, home[|dir|])
  }

  /** The log cannot be opened: a directory stands where its first segment would be made. */
  predicate NoLog(disks: map<Path, Disk>, home: Path) {
    At(disks, home).files == map[] && DirectoryThere(disks, home + [FIRST_SEGMENT])
  }

  /** Index or catalog cannot be loaded: a directory stands in the place of their file. */
  predicate NoIndexOrCatalog(disks: map<Path, Disk>, home: Path) {
    DirectoryThere(disks, home + [INDEX_FILE]) || DirectoryThere(disks, home + [CATALOG_FILE])
  }

  predicate CanOpen(disks: map<Path, Disk>, home: Path) {
    !Blocked(disks, home) && !NoLog(disks, home) && !NoIndexOrCatalog(disks, home)
  }

  /** What is on disk after NewTopic, whether it succeeded or not: it leaves what it made before it failed. */
  function AfterOpening(disks: map<Path, Disk>, home: Path): map<Path, Disk> {
    if Blocked(disks, home) then disks
    else disks[home := if NoLog(disks, home) then At(disks, home) else WithLog(At(disks, home))]
  }

  /** getOrCreateTopic: the topic of that name is open, or is opened on what its directory holds, or cannot be. */
  function Ready(config: Config, q: QueueState, name: string): (QueueState, bool) {
    var home := Home(config, name);
    if name in q.topics then (q, true)
    else if CanOpen(q.disks, home) then (Put(config, q, name, Initialized(DiskAt(q, home))), true)
    else (q.(disks := AfterOpening(q.disks, home)), false)
  }

  // ---------- Operations ----------

  /** Enqueue opens the topic when it is not open. */
  function QueueEnqueue(config: Config, q: QueueState, name: string, r: Record)
      : (QueueState, Result<Int64, QueueError>)
    requires ValidQueue(config, q)
  {
    if q.closed then (q, Err(QueueClosed))
    else if name !in q.topics && name == "" then (q, Err(EmptyTopicName))
    else
      ReadyIsValid(config, q, name);
      var (mid, ok) := Ready(config, q, name);
      if !ok then (mid, Err(CannotOpen))
      else
        var (next, result) := TopicStore.EnqueueStep(config, TopicAt(config, mid, name), r);
        (Put(config, mid, name, next), WrapError(result))
  }

  function QueueDequeue(config: Config, q: QueueState, name: string, consumer: string, limit: nat)
      : (QueueState, Result<seq<LogEntry>, QueueError>)
  {
    if q.closed then (q, Err(QueueClosed))
    else if name !in q.topics then (q, Err(NoSuchTopic))
    else
      var (next, result) := TopicStore.DequeueStep(TopicAt(config, q, name), consumer, limit);
      (Put(config, q, name, next), WrapError(result))
  }

  function QueueSetOffset(config: Config, q: QueueState, name: string, consumer: string, offset: Int64)
      : (QueueState, Result<(), QueueError>)
  {
    if q.closed then (q, Err(QueueClosed))
    else if name !in q.topics then (q, Err(NoSuchTopic))
    else
      var (next, result) := TopicStore.SetOffsetStep(TopicAt(config, q, name), consumer, offset);
      (Put(config, q, name, next), WrapError(result))
  }

  function QueueCreate(config: Config, q: QueueState, name: string): (QueueState, Result<(), QueueError>) {
    if q.closed then (q, Err(QueueClosed))
    else if name in q.topics then (q, Err(TopicExists))
    else if name == "" then (q, Err(EmptyTopicName))
    else
      var (mid, ok) := Ready(config, q, name);
      (mid, if ok then Ok(()) else Err(CannotOpen))
  }

  /** The snapshot of the topics on this directory can be written: nothing stands in the place of its files. */
  predicate Writable(disks: map<Path, Disk>, home: Path) {
    !DirectoryThere(disks, home + [CATALOG_FILE]) && !DirectoryThere(disks, home + [CATALOG_TEMP])
  }

  function SyncOne(config: Config, q: QueueState, name: string): QueueState {
    if name in q.topics
    then Put(config, q, name, SyncStep(TopicAt(config, q, name), Writable(q.disks, Home(config, name))).0)
    else q
  }

  /** The topics of order are written out one after the other, those that share a directory over each other. */
  function SyncAll(config: Config, q: QueueState, order: seq<string>): QueueState {
    if order == [] then q else SyncOne(config, SyncAll(config, q, order[..|order| - 1]), order[|order| - 1])
  }

  function CloseOne(config: Config, q: QueueState, name: string): QueueState {
    if name in q.topics
    then Put(config, q, name, CloseStep(TopicAt(config, q, name), Writable(q.disks, Home(config, name))))
    else q
  }

  function CloseAll(config: Config, q: QueueState, order: seq<string>): QueueState {
    if order == [] then q else CloseOne(config, CloseAll(config, q, order[..|order| - 1]), order[|order| - 1])
  }

  /** Sync would fail on this topic now. */
  predicate FailsToSync(config: Config, q: QueueState, name: string) {
    name in q.topics && SyncStep(TopicAt(config, q, name), Writable(q.disks, Home(config, name))).1.Err?
  }

  /** Close would: a topic that is closed already is passed over. */
  predicate FailsToClose(config: Config, q: QueueState, name: string) {
    FailsToSync(config, q, name) && !q.topics[name].closed
  }

  /** The topics of order that could not be written out. */
  function SyncFailures(config: Config, q: QueueState, order: seq<string>): seq<string> {
    if order == [] then []
    else
      var front, name := order[..|order| - 1], order[|order| - 1];
      SyncFailures(config, q, front) + if FailsToSync(config, SyncAll(config, q, front), name) then [name] else []
  }

  function CloseFailures(config: Config, q: QueueState, order: seq<string>): seq<string> {
    if order == [] then []
    else
      var front, name := order[..|order| - 1], order[|order| - 1];
      CloseFailures(config, q, front) + if FailsToClose(config, CloseAll(config, q, front), name) then [name] else []
  }

  /** Sync writes out every topic, in the order in which Go's map iteration happens to list them. */
  function QueueSync(config: Config, q: QueueState, order: seq<string>): (QueueState, Result<(), QueueError>) {
    if q.closed then (q, Err(QueueClosed))
    else
      var failed := SyncFailures(config, q, order);
      (SyncAll(config, q, order), if failed == [] then Ok(()) else Err(Unsaved(failed)))
  }

  /** Close closes every topic, which writes it out first. */
  function QueueClose(config: Config, q: QueueState, order: seq<string>): (QueueState, Result<(), QueueError>) {
    if q.closed then (q, Ok(()))
    else
      var failed := CloseFailures(config, q, order);
      (CloseAll(config, q, order).(closed := true), if failed == [] then Ok(()) else Err(Unsaved(failed)))
  }

  // ---------- Opening the queue ----------

  /** os.ReadDir on the topics directory: the names of the directories right below it. */
  function Children(root: Path, at: set<Path>): set<string> {
    set d | d in at && |d| > |root| && d[..|root|] == root && Plain(d[|root|]) :: d[|root|]
  }

  /** LoadTopic for one name of the listing; a topic that cannot be loaded is passed over. */
  function LoadOne(config: Config, q: QueueState, name: string): QueueState {
    if name !in Children(config.root, q.disks.Keys) then q else Ready(config, q, name).0
  }

  /** loadExistingTopics: the topics of order are opened on what their directories hold. */
  function LoadAll(config: Config, q: QueueState, order: seq<string>): (r: QueueState)
    ensures q.disks.Keys <= r.disks.Keys
  {
    if order == [] then q
    else LoadOne(config, LoadAll(config, q, order[..|order| - 1]), order[|order| - 1])
  }

  /** The directories, and no topic open on them. */
  function Unopened(disks: map<Path, Disk>): QueueState {
    QueueState(disks, map[], false)
  }

  /** The process has stopped, and NewQueue loads what is on disk. */
  function Reopened(config: Config, q: QueueState, order: seq<string>): QueueState {
    LoadAll(config, Unopened(q.disks), order)
  }

  /** order lists every name of the set once. */
  ghost predicate Lists(order: seq<string>, names: set<string>) {
    && (forall n :: n in order <==> n in names)
    && (forall i, j | 0 <= i < j < |order| :: order[i] != order[j])
  }

  // ---------- Validity ----------

  /** A change of one disk that takes no segment away leaves every topic its segment. */
  lemma DiskKeepsValid(config: Config, q: QueueState, home: Path, disk: Disk)
    requires ValidQueue(config, q) && DiskAt(q, home).files.Keys <= disk.files.Keys
    ensures ValidQueue(config, q.(disks := q.disks[home := disk]))
  {
    hide Home;
    var next := q.(disks := q.disks[home := disk]);
    forall n | n in next.topics
      ensures SegmentExists(TopicAt(config, next, n).log)
    {
      assert SegmentExists(TopicAt(config, q, n).log);
    }
  }

  lemma MemoryKeepsValid(config: Config, q: QueueState, name: string, m: TopicMemory)
    requires ValidQueue(config, q) && SegmentExists(Joined(m, DiskAt(q, Home(config, name))).log)
    ensures ValidQueue(config, q.(topics := q.topics[name := m]))
  {
    hide Home;
    var next := q.(topics := q.topics[name := m]);
    forall n | n in next.topics
      ensures SegmentExists(TopicAt(config, next, n).log)
    {
      if n != name {
        assert SegmentExists(TopicAt(config, q, n).log);
      }
    }
  }

  lemma FlagKeepsValid(config: Config, q: QueueState, closed: bool)
    requires ValidQueue(config, q)
    ensures ValidQueue(config, q.(closed := closed))
  {
    hide Home;
    var next := q.(closed := closed);
    forall n | n in next.topics
      ensures SegmentExists(TopicAt(config, next, n).log)
    {
      assert SegmentExists(TopicAt(config, q, n).log);
    }
  }

  /** A step that takes no segment away leaves every topic its segment, also those that share the directory. */
  lemma PutKeepsValid(config: Config, q: QueueState, name: string, st: TopicState)
    requires ValidQueue(config, q) && SegmentExists(st.log)
    requires DiskAt(q, Home(config, name)).files.Keys <= st.log.files.Keys
    ensures ValidQueue(config, Put(config, q, name, st))
  {
    hide Home;
    var next := Put(config, q, name, st);
    forall n | n in next.topics
      ensures SegmentExists(TopicAt(config, next, n).log)
    {
      if n != name {
        assert SegmentExists(TopicAt(config, q, n).log);
      }
    }
  }

  lemma DirectoryKeepsValid(config: Config, q: QueueState, at: Path)
    requires ValidQueue(config, q)
    ensures ValidQueue(config, WithDirectory(q, at))
  {
    hide ValidQueue;
    DiskKeepsValid(config, q, at, DiskAt(q, at));
  }

  /** An attempt to open a topic leaves the queue valid. */
  lemma ReadyIsValid(config: Config, q: QueueState, name: string)
    requires ValidQueue(config, q)
    ensures var (mid, ok) := Ready(config, q, name);
            && ValidQueue(config, mid) && mid.closed == q.closed
            && (ok ==> name in mid.topics && SegmentExists(TopicAt(config, mid, name).log))
  {
    var home := Home(config, name);
    OpenedIsValid(DiskAt(q, home).files);
    if name in q.topics {
    } else if CanOpen(q.disks, home) {
      hide Home, ValidQueue, CanOpen, Initialized;
      PutKeepsValid(config, q, name, Initialized(DiskAt(q, home)));
      PutTwice(config, q, name, Initialized(DiskAt(q, home)), Initialized(DiskAt(q, home)));
    } else if !Blocked(q.disks, home) {
      hide Home, ValidQueue, CanOpen, NoLog, Blocked;
      DiskKeepsValid(config, q, home, if NoLog(q.disks, home) then DiskAt(q, home) else WithLog(DiskAt(q, home)));
    } else {
      assert q.(disks := q.disks) == q;
    }
  }

  lemma QueueEnqueueKeepsValid(config: Config, q: QueueState, name: string, r: Record)
    requires ValidQueue(config, q)
    ensures ValidQueue(config, QueueEnqueue(config, q, name, r).0)
  {
    hide TopicStore.EnqueueStep, Home, ValidQueue, Ready;
    ReadyIsValid(config, q, name);
    var (mid, ok) := Ready(config, q, name);
    if ok {
      StepsKeepSegments(config, TopicAt(config, mid, name), r);
      PutKeepsValid(config, mid, name, TopicStore.EnqueueStep(config, TopicAt(config, mid, name), r).0);
    }
  }

  lemma QueueCreateKeepsValid(config: Config, q: QueueState, name: string)
    requires ValidQueue(config, q)
    ensures ValidQueue(config, QueueCreate(config, q, name).0)
  {
    hide Home, ValidQueue, Ready;
    ReadyIsValid(config, q, name);
  }

  /** What a step does that leaves the log alone. */
  lemma PutKeepsLog(config: Config, q: QueueState, name: string, st: TopicState)
    requires ValidQueue(config, q) && name in q.topics && st.log == TopicAt(config, q, name).log
    ensures ValidQueue(config, Put(config, q, name, st))
  {
    hide Home;
    PutKeepsValid(config, q, name, st);
  }

  lemma QueueDequeueKeepsValid(config: Config, q: QueueState, name: string, consumer: string, limit: nat)
    requires ValidQueue(config, q)
    ensures ValidQueue(config, QueueDequeue(config, q, name, consumer, limit).0)
  {
    hide Home, ValidQueue, ReadAll, NextOffset;
    if name in q.topics {
      PutKeepsLog(config, q, name, TopicStore.DequeueStep(TopicAt(config, q, name), consumer, limit).0);
    }
  }

  lemma QueueSetOffsetKeepsValid(config: Config, q: QueueState, name: string, consumer: string, offset: Int64)
    requires ValidQueue(config, q)
    ensures ValidQueue(config, QueueSetOffset(config, q, name, consumer, offset).0)
  {
    hide Home, ValidQueue;
    if name in q.topics {
      PutKeepsLog(config, q, name, TopicStore.SetOffsetStep(TopicAt(config, q, name), consumer, offset).0);
    }
  }

  lemma SyncOneKeepsValid(config: Config, q: QueueState, name: string)
    requires ValidQueue(config, q)
    ensures ValidQueue(config, SyncOne(config, q, name)) && ValidQueue(config, CloseOne(config, q, name))
  {
    hide Home, ValidQueue, Writable;
    if name in q.topics {
      var writable := Writable(q.disks, Home(config, name));
      PutKeepsLog(config, q, name, SyncStep(TopicAt(config, q, name), writable).0);
      PutKeepsLog(config, q, name, CloseStep(TopicAt(config, q, name), writable));
    }
  }

  lemma {:induction false} SyncAllKeepsValid(config: Config, q: QueueState, order: seq<string>)
    requires ValidQueue(config, q)
    ensures ValidQueue(config, SyncAll(config, q, order))
    ensures SyncAll(config, q, order).topics.Keys == q.topics.Keys && SyncAll(config, q, order).closed == q.closed
  {
    hide Home, ValidQueue, Writable, SyncStep;
    if order != [] {
      SyncAllKeepsValid(config, q, order[..|order| - 1]);
      SyncOneKeepsValid(config, SyncAll(config, q, order[..|order| - 1]), order[|order| - 1]);
    }
  }

  lemma {:induction false} CloseAllKeepsValid(config: Config, q: QueueState, order: seq<string>)
    requires ValidQueue(config, q)
    ensures ValidQueue(config, CloseAll(config, q, order))
    ensures CloseAll(config, q, order).topics.Keys == q.topics.Keys && CloseAll(config, q, order).closed == q.closed
  {
    hide Home, ValidQueue, Writable, CloseStep;
    if order != [] {
      CloseAllKeepsValid(config, q, order[..|order| - 1]);
      SyncOneKeepsValid(config, CloseAll(config, q, order[..|order| - 1]), order[|order| - 1]);
    }
  }

  lemma QueueCloseKeepsValid(config: Config, q: QueueState, order: seq<string>)
    requires ValidQueue(config, q)
    ensures ValidQueue(config, QueueClose(config, q, order).0)
  {
    hide ValidQueue, CloseAll, CloseFailures;
    CloseAllKeepsValid(config, q, order);
    FlagKeepsValid(config, CloseAll(config, q, order), true);
  }

  lemma {:induction false} LoadAllKeepsValid(config: Config, q: QueueState, order: seq<string>)
    requires ValidQueue(config, q)
    ensures ValidQueue(config, LoadAll(config, q, order)) && LoadAll(config, q, order).closed == q.closed
  {
    hide ValidQueue, Ready;
    if order != [] {
      LoadAllKeepsValid(config, q, order[..|order| - 1]);
      ReadyIsValid(config, LoadAll(config, q, order[..|order| - 1]), order[|order| - 1]);
    }
  }

  lemma OneMoreLoaded(config: Config, q: QueueState, order: seq<string>, name: string)
    ensures LoadAll(config, q, order + [name]) == LoadOne(config, LoadAll(config, q, order), name)
  {
    hide LoadOne;
    assert (order + [name])[..|order|] == order;
  }

  lemma MoreChildren(root: Path, few: set<Path>, more: set<Path>)
    requires few <= more
    ensures Children(root, few) <= Children(root, more)
  {
    hide Plain;
  }

  /** Making the directory, opening the topic on it and entering it amounts to one Put. */
  lemma NewTopicPut(config: Config, q: QueueState, name: string)
    ensures var home := Home(config, name);
            var made := WithDirectory(q, home);
            var st := Initialized(DiskAt(q, home));
            var opened' := made.(disks := made.disks[home := OnDisk(st)]);
            && DiskAt(made, home) == DiskAt(q, home)
            && SegmentExists(Joined(InMemory(st), DiskAt(opened', home)).log)
            && opened'.(topics := opened'.topics[name := InMemory(st)]) == Put(config, q, name, st)
  {
    hide Home;
    var home := Home(config, name);
    var st := Initialized(DiskAt(q, home));
    hide Initialized;
    assert q.disks[home := DiskAt(q, home)][home := OnDisk(st)] == q.disks[home := OnDisk(st)];
  }

  lemma PutTwice(config: Config, q: QueueState, name: string, st: TopicState, next: TopicState)
    ensures Put(config, Put(config, q, name, st), name, next) == Put(config, q, name, next)
    ensures TopicAt(config, Put(config, q, name, st), name) == st
  {
    hide Home;
    var home := Home(config, name);
    assert q.disks[home := OnDisk(st)][home := OnDisk(next)] == q.disks[home := OnDisk(next)];
    assert q.topics[name := InMemory(st)][name := InMemory(next)] == q.topics[name := InMemory(next)];
  }

  lemma DequeueKeepsLog(st: TopicState, consumer: string, limit: nat)
    ensures TopicStore.DequeueStep(st, consumer, limit).0.log == st.log
  {
    hide ReadAll, NextOffset;
  }

  lemma NoneLoaded(config: Config, q: QueueState)
    ensures LoadAll(config, q, []) == q
  {
  }

  /** Making the topic's directory neither blocks nor frees what is below it. */
  lemma DirectoryChangesNothing(q: QueueState, home: Path)
    ensures var made := WithDirectory(q, home);
            && NoLog(made.disks, home) == NoLog(q.disks, home)
            && NoIndexOrCatalog(made.disks, home) == NoIndexOrCatalog(q.disks, home)
            && made == q.(disks := q.disks[home := At(q.disks, home)])
            && made.disks[home := WithLog(DiskAt(made, home))] == q.disks[home := WithLog(At(q.disks, home))]
  {
    hide WithLog;
    var made := WithDirectory(q, home);
    assert made.disks.Keys == q.disks.Keys + {home};
    forall file: string
      ensures DirectoryThere(made.disks, home + [file]) == DirectoryThere(q.disks, home + [file])
    {
      assert !(home + [file] <= home);
    }
  }

  ghost function FilesOf(directories: map<Path, Directory>): (files: set<object>)
    ensures forall d | d in directories :: directories[d].Repr <= files
  {
    var files := set d, o | d in directories && o in directories[d].Repr :: o;
    forall d | d in directories
      ensures directories[d].Repr <= files
    {
      forall o | o in directories[d].Repr
        ensures o in files
      {
      }
    }
    files
  }

  class Queue {
    const config: Config
    /** The directories on disk that topics have been opened on. */
    var directories: map<Path, Directory>
    var topics: map<string, Topic>
    var closed: bool

    ghost var Repr: set<object>

    /** The queue's objects: itself, each topic's own, and the directories, all apart; topics may share a directory. */
    ghost predicate Framed()
      reads this
    {
      && this in Repr
      && (forall d | d in directories :: directories[d].Repr <= Repr - {this})
      && (forall d, e | d in directories && e in directories && d != e :: directories[d].Repr !! directories[e].Repr)
      && (forall n | n in topics :: topics[n].Own <= Repr - {this} && topics[n].Wired() && topics[n].config == config)
      && (forall m, n | m in topics && n in topics && m != n :: topics[m].Own !! topics[n].Own)
      && (forall n, d | n in topics && d in directories :: topics[n].Own !! directories[d].Repr)
      && (forall n | n in topics :: Home(config, n) in directories)
      && (forall n | n in topics :: topics[n].directory == directories[Home(config, n)])
    }

    ghost predicate Valid()
      reads this, Repr
    {
      Framed() && ValidQueue(config, State())
    }

    ghost function State(): QueueState
      requires Framed()
      reads this, Repr
    {
      QueueState(Disks(), map n | n in topics :: topics[n].Memory(), closed)
    }

    /** What the file system holds. */
    function Disks(): map<Path, Disk>
      requires Framed()
      reads this, Repr
    {
      map d | d in directories :: directories[d].Contents()
    }

    /** A topic's own state is what the queue's state says of its name. */
    lemma TopicState(name: string)
      requires Valid() && name in topics
      ensures topics[name].State() == TopicAt(config, State(), name) && topics[name].Valid()
    {
      hide Home, TopicStore.Topic.Memory, Directory.Contents;
      assert SegmentExists(TopicAt(config, State(), name).log);
    }

    static twostate lemma DirectoryUntouched(d: Directory)
      requires unchanged(d.Repr)
      ensures old(d.Contents()) == d.Contents()
    {
    }

    static twostate lemma TopicUntouched(t: Topic)
      requires unchanged(t.Own)
      ensures old(t.Memory()) == t.Memory()
    {
    }

    twostate lemma DisksAfter(home: Path)
      requires old(Framed()) && Framed() && home in directories && directories == old(directories)
      requires forall d | d in directories && d != home :: unchanged(directories[d].Repr)
      ensures State().disks == old(State()).disks[home := directories[home].Contents()]
    {
      hide Framed, Directory.Contents;
      forall d | d in directories && d != home
        ensures old(directories[d].Contents()) == directories[d].Contents()
      {
        DirectoryUntouched(directories[d]);
      }
    }

    twostate lemma TopicsAfter(name: string)
      requires old(Framed()) && Framed()
      requires name in topics && topics == old(topics)[name := topics[name]]
      requires forall n | n in old(topics) && n != name :: unchanged(old(topics[n]).Own)
      ensures State().topics == old(State()).topics[name := topics[name].Memory()]
    {
      hide Framed, TopicStore.Topic.Memory;
      forall n | n in old(topics) && n != name
        ensures old(topics[n].Memory()) == topics[n].Memory()
      {
        TopicUntouched(topics[n]);
      }
    }

    twostate lemma DisksSame()
      requires old(Framed()) && Framed() && directories == old(directories)
      requires forall d | d in directories :: unchanged(directories[d].Repr)
      ensures State().disks == old(State()).disks
    {
      hide Framed, Directory.Contents;
      forall d | d in directories
        ensures old(directories[d].Contents()) == directories[d].Contents()
      {
        DirectoryUntouched(directories[d]);
      }
    }

    twostate lemma TopicsSame()
      requires old(Framed()) && Framed() && topics == old(topics)
      requires forall n | n in topics :: unchanged(topics[n].Own)
      ensures State().topics == old(State()).topics
    {
      hide Framed, TopicStore.Topic.Memory;
      forall n | n in topics
        ensures old(topics[n].Memory()) == topics[n].Memory()
      {
        TopicUntouched(topics[n]);
      }
    }

    twostate lemma FramedStays()
      requires old(Framed()) && unchanged(this)
      ensures Framed()
    {
    }

    /** When only one topic and its directory changed, the queue's state changed there only. */
    twostate lemma OnlyTopicChanged(name: string)
      requires old(Framed()) && Framed() && name in topics && unchanged(this)
      requires forall n | n in topics && n != name :: unchanged(topics[n].Own)
      requires forall d | d in directories && d != Home(config, name) :: unchanged(directories[d].Repr)
      ensures State() == Put(config, old(State()), name, topics[name].State())
    {
      TopicParts(topics[name]);
      hide Home, TopicStore.Topic.Memory, TopicStore.Topic.State, Directory.Contents;
      DisksAfter(Home(config, name));
      TopicsAfter(name);
    }

    static lemma TopicParts(t: Topic)
      ensures InMemory(t.State()) == t.Memory() && OnDisk(t.State()) == t.directory.Contents()
    {
    }

    /** One topic's objects and its directory are apart from everything else. */
    lemma TopicApart(name: string)
      requires Framed() && name in topics
      ensures topics[name].Repr <= Repr && this !in topics[name].Repr
      ensures forall n | n in topics && n != name :: topics[n].Own !! topics[name].Repr
      ensures forall d | d in directories && d != Home(config, name) :: directories[d].Repr !! topics[name].Repr
    {
      hide Home;
      assert topics[name].directory.Repr == directories[Home(config, name)].Repr;
    }

    /** A step of one topic that takes no segment away keeps the queue valid. */
    twostate lemma TopicMoved(name: string)
      requires old(Valid()) && name in topics && unchanged(this)
      requires forall n | n in topics && n != name :: unchanged(topics[n].Own)
      requires forall d | d in directories && d != Home(config, name) :: unchanged(directories[d].Repr)
      requires SegmentExists(topics[name].State().log)
      requires old(topics[name].State()).log.files.Keys <= topics[name].State().log.files.Keys
      ensures Valid() && State() == Put(config, old(State()), name, topics[name].State())
    {
      assert Framed();
      assert old(topics[name].State()) == TopicAt(config, old(State()), name);
      hide Home, TopicStore.Topic.State, Framed, ValidQueue;
      OnlyTopicChanged(name);
      PutKeepsValid(config, old(State()), name, topics[name].State());
    }

    /** A queue on these directories, with no topic open yet. */
    constructor (config: Config, directories: map<Path, Directory>)
      requires forall d, e | d in directories && e in directories && d != e ::
                 directories[d].Repr !! directories[e].Repr
      ensures Valid() && this.config == config && this.directories == directories
      ensures fresh(Repr - FilesOf(directories))
      ensures State() == Unopened(map d | d in directories :: directories[d].Contents())
    {
      this.config := config;
      this.directories := directories;
      this.topics := map[];
      this.closed := false;
      this.Repr := {this} + FilesOf(directories);
      new;
      hide FilesOf, Home, Directory.Contents;
    }

    twostate lemma DisksWith(at: Path)
      requires old(Framed()) && Framed()
      requires at in directories && at !in old(directories) && directories == old(directories)[at := directories[at]]
      requires forall d | d in old(directories) :: unchanged(old(directories[d]).Repr)
      requires directories[at].Contents() == EMPTY_DISK
      ensures State().disks == WithDirectory(old(State()), at).disks
    {
      hide Framed, Directory.Contents;
      forall d | d in old(directories)
        ensures old(directories[d].Contents()) == directories[d].Contents()
      {
        DirectoryUntouched(old(directories[d]));
      }
    }

    /** An empty directory made where there was none. */
    twostate lemma DirectoryAdded(at: Path)
      requires old(Valid()) && Framed() && closed == old(closed) && topics == old(topics)
      requires at in directories && at !in old(directories) && directories == old(directories)[at := directories[at]]
      requires forall d | d in old(directories) :: unchanged(old(directories[d]).Repr)
      requires forall n | n in topics :: unchanged(topics[n].Own)
      requires directories[at].Contents() == EMPTY_DISK
      ensures Valid() && State() == WithDirectory(old(State()), at)
    {
      hide Framed, ValidQueue, TopicStore.Topic.Memory;
      TopicsSame();
      DisksWith(at);
      DirectoryKeepsValid(config, old(State()), at);
    }

    twostate lemma FramedWithDirectory(at: Path)
      requires old(Framed()) && topics == old(topics)
      requires at in directories && at !in old(directories) && directories == old(directories)[at := directories[at]]
      requires fresh(directories[at].Repr) && Repr == old(Repr) + directories[at].Repr
      ensures Framed()
    {
      hide Home;
    }

    twostate lemma FramedWithTopic(name: string)
      requires old(Framed()) && directories == old(directories) && Home(config, name) in directories
      requires name in topics && name !in old(topics) && topics == old(topics)[name := topics[name]]
      requires topics[name].Own !! old(Repr) && Repr == old(Repr) + topics[name].Own
      requires topics[name].Wired() && topics[name].config == config
      requires topics[name].directory == directories[Home(config, name)]
      ensures Framed()
    {
      hide Home;
    }

    lemma StateNames()
      requires Framed()
      ensures State().topics.Keys == topics.Keys && State().disks.Keys == directories.Keys
      ensures State().closed == closed && State().disks == Disks()
    {
    }

    lemma DirectoryInside(at: Path)
      requires Framed() && at in directories
      ensures directories[at].Repr <= Repr
    {
    }

    lemma StandsApart()
      requires Framed()
      ensures this in Repr
      ensures forall n | n in topics :: this !in topics[n].Own
      ensures forall d | d in directories :: this !in directories[d].Repr
    {
    }

    /** os.MkdirAll: the directory is there, empty if it was not there before. */
    method MakeDirectory(at: Path)
      requires Valid()
      modifies this
      ensures Valid() && fresh(Repr - old(Repr)) && old(Repr) <= Repr
      ensures topics == old(topics) && closed == old(closed) && at in directories
      ensures State() == WithDirectory(old(State()), at)
    {
      hide Home, ValidQueue, Framed, TopicStore.Topic.Memory;
      StandsApart();
      if at in directories {
        assert State().disks[at := DiskAt(State(), at)] == State().disks;
        return;
      }
      var directory := new Directory(EMPTY_DISK);
      directories := directories[at := directory];
      Repr := Repr + directory.Repr;
      FramedWithDirectory(at);
      DirectoryAdded(at);
    }

    /** NewTopic on what its directory holds; nobody's memory and no other directory changes. */
    method OpenTopic(name: string) returns (topic: Topic)
      requires Valid() && Home(config, name) in directories
      modifies directories[Home(config, name)].Repr
      ensures Valid() && unchanged(this) && fresh(topic.Own)
      ensures topic.Wired() && topic.config == config && topic.directory == directories[Home(config, name)]
      ensures var st := Initialized(DiskAt(old(State()), Home(config, name)));
              && topic.Memory() == InMemory(st)
              && State() == old(State()).(disks := old(State()).disks[Home(config, name) := OnDisk(st)])
    {
      var home := Home(config, name);
      var directory := directories[home];
      assert directory.Contents() == DiskAt(State(), home);
      assert forall n | n in topics :: topics[n].Own !! directory.Repr;
      assert forall d | d in directories && d != home :: directories[d].Repr !! directory.Repr;
      OpenedIsValid(directory.Contents().files);
      DiskKeepsValid(config, State(), home, OnDisk(Initialized(DiskAt(State(), home))));
      hide Home, Framed, State, DiskAt, Initialized, ValidQueue, TopicStore.Topic.State, TopicStore.Topic.Memory,
           Directory.Contents;
      topic := new Topic(name, config, directory);
      TopicParts(topic);
      OnlyDirectoryChanged(home);
    }

    twostate lemma OnlyDirectoryChanged(home: Path)
      requires old(Framed()) && unchanged(this) && home in directories
      requires forall n | n in topics :: unchanged(topics[n].Own)
      requires forall d | d in directories && d != home :: unchanged(directories[d].Repr)
      ensures Framed() && State() == old(State()).(disks := old(State()).disks[home := directories[home].Contents()])
    {
      hide Framed;
      FramedStays();
      DisksAfter(home);
      TopicsSame();
    }

    /** The topic entered under its name. */
    method Register(name: string, topic: Topic)
      requires Valid() && name !in topics && Home(config, name) in directories && topic.Own !! Repr
      requires topic.Wired() && topic.config == config && topic.directory == directories[Home(config, name)]
      requires SegmentExists(Joined(topic.Memory(), DiskAt(State(), Home(config, name))).log)
      modifies this
      ensures Valid() && Repr == old(Repr) + topic.Own
      ensures topics == old(topics)[name := topic] && closed == old(closed)
      ensures State() == old(State()).(topics := old(State()).topics[name := topic.Memory()])
    {
      hide Home, Framed, State, DiskAt, ValidQueue, Joined, TopicStore.Topic.Memory, TopicStore.Topic.Wired;
      MemoryKeepsValid(config, State(), name, topic.Memory());
      StandsApart();
      topics := topics[name := topic];
      Repr := Repr + topic.Own;
      FramedWithTopic(name);
      OnlyTopicAdded(name);
    }

    twostate lemma OnlyTopicAdded(name: string)
      requires old(Framed()) && Framed() && directories == old(directories) && closed == old(closed)
      requires name in topics && name !in old(topics) && topics == old(topics)[name := topics[name]]
      requires forall n | n in old(topics) :: unchanged(old(topics[n]).Own)
      requires forall d | d in directories :: unchanged(directories[d].Repr)
      ensures State() == old(State()).(topics := old(State()).topics[name := topics[name].Memory()])
    {
      hide Framed;
      TopicsAfter(name);
      DisksSame();
    }

    /** NewLog, on a directory where index or catalog will not open: the first segment is there afterwards. */
    method OpenLogOnly(home: Path)
      requires Valid() && home in directories
      modifies directories[home].Repr
      ensures Valid() && unchanged(this)
      ensures State() == old(State()).(disks := old(State()).disks[home := WithLog(DiskAt(old(State()), home))])
    {
      var directory := directories[home];
      assert directory.Contents() == DiskAt(State(), home);
      assert forall n | n in topics :: topics[n].Own !! directory.Repr;
      assert forall d | d in directories && d != home :: directories[d].Repr !! directory.Repr;
      OpenedIsValid(directory.Contents().files);
      DiskKeepsValid(config, State(), home, WithLog(DiskAt(State(), home)));
      hide Home, Framed, State, DiskAt, ValidQueue, TopicStore.Topic.State, TopicStore.Topic.Memory, WithLog,
           Directory.Contents;
      directory.OpenLog(config.segmentSize);
      OnlyDirectoryChanged(home);
    }

    /** NewTopic under a new name, which leaves what it made on disk if it fails halfway. */
    method AddTopic(name: string) returns (ok: bool)
      requires Valid() && name !in topics && !closed
      modifies Repr
      ensures Valid() && fresh(Repr - old(Repr)) && old(Repr) <= Repr
      ensures topics.Keys == old(topics.Keys) + (if ok then {name} else {}) && closed == old(closed)
      ensures (State(), ok) == Ready(config, old(State()), name)
    {
      hide Home, Initialized, ValidQueue, Framed, State, Put, DiskAt, WithDirectory, Joined, OnDisk, InMemory,
           Blocked, NoLog, NoIndexOrCatalog, WithLog;
      StandsApart();
      StateNames();
      NewTopicPut(config, State(), name);
      ghost var q := State();
      var home := Home(config, name);
      DirectoryChangesNothing(q, home);
      if Blocked(Disks(), home) {
        return false;
      }
      MakeDirectory(home);
      DirectoryInside(home);
      StateNames();
      if NoLog(Disks(), home) {
        return false;
      }
      if NoIndexOrCatalog(Disks(), home) {
        OpenLogOnly(home);
        return false;
      }
      var topic := OpenTopic(name);
      Register(name, topic);
      return true;
    }

    /** Every directory right below the topics directory becomes a topic of that name; os.ReadDir gave the listing. */
    method LoadExistingTopics(listing: seq<string>)
      requires Valid() && topics == map[] && !closed
      requires Lists(listing, Children(config.root, State().disks.Keys))
      modifies Repr
      ensures Valid() && fresh(Repr - old(Repr))
      ensures State() == LoadAll(config, old(State()), listing)
    {
      hide Home, ValidQueue, Framed, State, LoadAll, Children;
      ghost var q := State();
      NoneLoaded(config, q);
      for i := 0 to |listing|
        invariant forall n | n in topics :: n in listing[..i]
        invariant Valid() && !closed && fresh(Repr - old(Repr)) && old(Repr) <= Repr
        invariant State() == LoadAll(config, q, listing[..i])
      {
        assert listing[..i + 1] == listing[..i] + [listing[i]];
        assert listing[i] in listing;
        LoadTopic(listing[i], q, listing[..i]);
      }
      assert listing[..|listing|] == listing;
    }

    method LoadTopic(name: string, ghost q: QueueState, ghost order: seq<string>)
      requires Valid() && name !in topics && !closed
      requires State() == LoadAll(config, q, order)
      requires name in Children(config.root, q.disks.Keys)
      modifies Repr
      ensures Valid() && fresh(Repr - old(Repr)) && old(Repr) <= Repr
      ensures topics.Keys <= old(topics.Keys) + {name} && !closed
      ensures State() == LoadAll(config, q, order + [name])
    {
      StateNames();
      hide Home, ValidQueue, Framed, State, LoadAll, Children, Ready;
      MoreChildren(config.root, q.disks.Keys, State().disks.Keys);
      OneMoreLoaded(config, q, order, name);
      var ok := AddTopic(name);
    }

    method GetOrCreateTopic(name: string) returns (result: Result<(), QueueError>)
      requires Valid() && !closed
      modifies Repr
      ensures Valid() && fresh(Repr - old(Repr)) && old(Repr) <= Repr && closed == old(closed)
      ensures result.Ok? ==> name in topics
      ensures name in old(topics) ==> result == Ok(()) && State() == old(State()) && Repr == old(Repr)
      ensures name !in old(topics) && name == "" ==> result == Err(EmptyTopicName) && State() == old(State())
      ensures name !in old(topics) && name != "" ==>
                var (next, ok) := Ready(config, old(State()), name);
                State() == next && result == if ok then Ok(()) else Err(CannotOpen)
    {
      hide Ready, ValidQueue, Framed, State;
      if name in topics {
        return Ok(());
      }
      if name == "" {
        return Err(EmptyTopicName);
      }
      var ok := AddTopic(name);
      return if ok then Ok(()) else Err(CannotOpen);
    }

    method EnqueueInto(name: string, timestamp: Int64, data: seq<Byte>) returns (result: Result<Int64, TopicError>)
      requires Valid() && name in topics
      modifies Repr
      ensures Valid() && Repr == old(Repr)
      ensures var st := TopicAt(config, old(State()), name);
              var (next, outcome) := TopicStore.EnqueueStep(config, st, Record(timestamp, data));
              State() == Put(config, old(State()), name, next) && result == outcome
    {
      TopicState(name);
      StepsKeepSegments(config, topics[name].State(), Record(timestamp, data));
      TopicApart(name);
      hide TopicStore.EnqueueStep, Home, ValidQueue, Framed, State, TopicStore.Topic.State, TopicStore.Topic.Memory;
      result := topics[name].Enqueue(timestamp, data);
      TopicMoved(name);
    }

    method Enqueue(name: string, timestamp: Int64, data: seq<Byte>) returns (result: Result<Int64, QueueError>)
      requires Valid()
      modifies Repr
      ensures Valid() && fresh(Repr - old(Repr))
      ensures (State(), result) == QueueEnqueue(config, old(State()), name, Record(timestamp, data))
    {
      hide TopicStore.EnqueueStep, Home, ValidQueue, Framed, State, CanOpen, AfterOpening, Initialized;
      StateNames();
      if closed {
        return Err(QueueClosed);
      }
      var opening := GetOrCreateTopic(name);
      if opening.Err? {
        return Err(opening.error);
      }
      var offset := EnqueueInto(name, timestamp, data);
      return WrapError(offset);
    }

    method DequeueWithLimit(name: string, consumer: string, maxMessages: nat)
        returns (result: Result<seq<LogEntry>, QueueError>)
      requires Valid()
      modifies Repr
      ensures Valid() && Repr == old(Repr)
      ensures (State(), result) == QueueDequeue(config, old(State()), name, consumer, maxMessages)
    {
      if closed {
        return Err(QueueClosed);
      }
      if name !in topics {
        return Err(NoSuchTopic);
      }
      TopicState(name);
      DequeueKeepsLog(topics[name].State(), consumer, maxMessages);
      TopicApart(name);
      hide TopicStore.DequeueStep, Home, ValidQueue, Framed, State, TopicStore.Topic.State, TopicStore.Topic.Memory;
      var entries := topics[name].Dequeue(consumer, maxMessages);
      TopicMoved(name);
      return WrapError(entries);
    }

    method UpdateConsumerOffset(name: string, consumer: string, offset: Int64) returns (result: Result<(), QueueError>)
      requires Valid()
      modifies Repr
      ensures Valid() && Repr == old(Repr)
      ensures (State(), result) == QueueSetOffset(config, old(State()), name, consumer, offset)
    {
      if closed {
        return Err(QueueClosed);
      }
      if name !in topics {
        return Err(NoSuchTopic);
      }
      TopicState(name);
      TopicApart(name);
      hide Home, ValidQueue, Framed, State, TopicStore.Topic.State, TopicStore.Topic.Memory;
      var updated := topics[name].UpdateConsumerOffset(consumer, offset);
      TopicMoved(name);
      return WrapError(updated);
    }

    method GetConsumerOffset(name: string, consumer: string) returns (result: Result<Int64, QueueError>)
      requires Valid()
      ensures name !in State().topics ==> result == Err(NoSuchTopic)
      ensures name in State().topics ==> result == Ok(OffsetOf(State().topics[name].consumers, consumer))
    {
      hide Home, ValidQueue;
      if name !in topics {
        return Err(NoSuchTopic);
      }
      return Ok(topics[name].catalog.GetOffset(consumer));
    }

    /** The Size of GetTopicStats: the packed size of the topic's open segment as its log knows it. */
    method GetTopicSize(name: string) returns (result: Result<Int64, QueueError>)
      requires Valid()
      ensures name !in State().topics ==> result == Err(NoSuchTopic)
      ensures name in State().topics ==>
                var m := State().topics[name];
                result == Ok(Pack(m.segmentIndex, m.currentSize))
    {
      hide Home, ValidQueue, Pack;
      if name !in topics {
        return Err(NoSuchTopic);
      }
      return Ok(topics[name].log.GetSize());
    }

    method CreateTopic(name: string) returns (result: Result<(), QueueError>)
      requires Valid()
      modifies Repr
      ensures Valid() && fresh(Repr - old(Repr))
      ensures (State(), result) == QueueCreate(config, old(State()), name)
    {
      hide ValidQueue, Framed, State, Ready;
      StateNames();
      if closed {
        return Err(QueueClosed);
      }
      if name in topics {
        return Err(TopicExists);
      }
      if name == "" {
        return Err(EmptyTopicName);
      }
      var ok := AddTopic(name);
      return if ok then Ok(()) else Err(CannotOpen);
    }

    method Sync() returns (result: Result<(), QueueError>, ghost order: seq<string>)
      requires Valid()
      modifies Repr
      ensures Valid() && Repr == old(Repr)
      ensures !closed ==> Lists(order, topics.Keys)
      ensures (State(), result) == QueueSync(config, old(State()), order)
    {
      hide Home, ValidQueue, Framed, SyncAll, SyncFailures;
      if closed {
        return Err(QueueClosed), [];
      }
      var failed;
      order, failed := SyncTopics();
      return if failed == [] then Ok(()) else Err(Unsaved(failed)), order;
    }

    /** The topics come in any order, as Go's map iteration gives them; those that fail are passed over. */
    method SyncTopics() returns (ghost order: seq<string>, failed: seq<string>)
      requires Valid()
      modifies Repr
      ensures Valid() && unchanged(this) && Lists(order, topics.Keys)
      ensures State() == SyncAll(config, old(State()), order)
      ensures failed == SyncFailures(config, old(State()), order)
    {
      hide Home, ValidQueue, Framed, SyncOne, FailsToSync, State;
      order, failed := [], [];
      var rest := topics.Keys;
      while rest != {}
        invariant Valid() && unchanged(this) && rest <= topics.Keys
        invariant Lists(order, topics.Keys - rest)
        invariant State() == SyncAll(config, old(State()), order)
        invariant failed == SyncFailures(config, old(State()), order)
        decreases rest
      {
        var n :| n in rest;
        var synced := SyncTopic(n);
        assert (order + [n])[..|order|] == order;
        order := order + [n];
        failed := failed + if synced.Err? then [n] else [];
        rest := rest - {n};
      }
    }

    method SyncTopic(name: string) returns (result: Result<(), TopicError>)
      requires Valid() && name in topics
      modifies Repr
      ensures Valid() && unchanged(this) && State() == SyncOne(config, old(State()), name)
      ensures result.Err? <==> FailsToSync(config, old(State()), name)
    {
      TopicState(name);
      TopicApart(name);
      StateNames();
      hide Home, ValidQueue, Framed, State, TopicStore.Topic.State, TopicStore.Topic.Memory, Writable;
      result := topics[name].Sync(Writable(Disks(), Home(config, name)));
      TopicMoved(name);
    }

    method Close() returns (result: Result<(), QueueError>, ghost order: seq<string>)
      requires Valid()
      modifies Repr
      ensures Valid() && Repr == old(Repr)
      ensures !old(closed) ==> Lists(order, topics.Keys)
      ensures (State(), result) == QueueClose(config, old(State()), order)
    {
      assert this in Repr;
      hide Home, ValidQueue, Framed, CloseAll, CloseFailures;
      if closed {
        return Ok(()), [];
      }
      var failed;
      order, failed := CloseTopics();
      SetClosed();
      return if failed == [] then Ok(()) else Err(Unsaved(failed)), order;
    }

    method CloseTopics() returns (ghost order: seq<string>, failed: seq<string>)
      requires Valid()
      modifies Repr
      ensures Valid() && unchanged(this) && Lists(order, topics.Keys)
      ensures State() == CloseAll(config, old(State()), order)
      ensures failed == CloseFailures(config, old(State()), order)
    {
      hide Home, ValidQueue, Framed, CloseOne, FailsToClose, State;
      order, failed := [], [];
      var rest := topics.Keys;
      while rest != {}
        invariant Valid() && unchanged(this) && rest <= topics.Keys
        invariant Lists(order, topics.Keys - rest)
        invariant State() == CloseAll(config, old(State()), order)
        invariant failed == CloseFailures(config, old(State()), order)
        decreases rest
      {
        var n :| n in rest;
        var saved := CloseTopic(n);
        assert (order + [n])[..|order|] == order;
        order := order + [n];
        failed := failed + if saved.Err? then [n] else [];
        rest := rest - {n};
      }
    }

    method CloseTopic(name: string) returns (result: Result<(), TopicError>)
      requires Valid() && name in topics
      modifies Repr
      ensures Valid() && unchanged(this) && State() == CloseOne(config, old(State()), name)
      ensures result.Err? <==> FailsToClose(config, old(State()), name)
    {
      TopicState(name);
      TopicApart(name);
      StateNames();
      hide Home, ValidQueue, Framed, State, TopicStore.Topic.State, TopicStore.Topic.Memory, Writable;
      result := topics[name].Close(Writable(Disks(), Home(config, name)));
      TopicMoved(name);
    }

    twostate lemma SameState()
      requires old(Framed()) && Framed() && directories == old(directories) && topics == old(topics)
      requires forall n | n in topics :: unchanged(topics[n].Own)
      requires forall d | d in directories :: unchanged(directories[d].Repr)
      ensures State() == old(State()).(closed := closed)
    {
      hide Framed;
      TopicsSame();
      DisksSame();
    }

    twostate lemma OnlyFlagChanged()
      requires old(Valid()) && Framed() && directories == old(directories) && topics == old(topics)
      requires forall n | n in topics :: unchanged(topics[n].Own)
      requires forall d | d in directories :: unchanged(directories[d].Repr)
      ensures Valid() && State() == old(State()).(closed := closed)
    {
      hide Framed, ValidQueue, State;
      SameState();
      FlagKeepsValid(config, old(State()), closed);
    }

    method SetClosed()
      requires Valid()
      modifies this
      ensures Valid() && Repr == old(Repr) && topics == old(topics) && State() == old(State()).(closed := true)
    {
      hide TopicStore.Topic.Memory, Directory.Contents, ValidQueue, Home;
      closed := true;
      OnlyFlagChanged();
    }
  }
}
