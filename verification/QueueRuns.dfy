/** Runs of a queue with many topics, seen from one topic and one consumer. */
module QueueRuns {
  import opened Numbers
  import opened Directories
  import opened Framing
  import opened SegmentLog
  import opened TopicStore
  import opened QueueStore
  import TopicRuns

  /** Sync and Close carry the order in which they come to the topics. */
  datatype QueueOp =
    | Enqueue(topic: string, record: Record)
    | Dequeue(topic: string, consumer: string, limit: nat)
    | SetOffset(topic: string, consumer: string, offset: Int64)
    | Create(topic: string)
    | Sync(order: seq<string>)
    | Close(order: seq<string>)

  datatype Reply = Accepted(offset: Int64) | Batch(entries: seq<LogEntry>) | Done | Rejected(error: QueueError)

  function Step(config: Config, q: QueueState, op: QueueOp): (r: (QueueState, Reply))
    requires ValidQueue(config, q)
    ensures ValidQueue(config, r.0)
  {
    match op
    case Enqueue(topic, record) =>
      QueueEnqueueKeepsValid(config, q, topic, record);
      var (next, result) := QueueEnqueue(config, q, topic, record);
      (next, if result.Ok? then Accepted(result.value) else Rejected(result.error))
    case Dequeue(topic, consumer, limit) =>
      QueueDequeueKeepsValid(config, q, topic, consumer, limit);
      var (next, result) := QueueDequeue(config, q, topic, consumer, limit);
      (next, if result.Ok? then Batch(result.value) else Rejected(result.error))
    case SetOffset(topic, consumer, offset) =>
      QueueSetOffsetKeepsValid(config, q, topic, consumer, offset);
      var (next, result) := QueueSetOffset(config, q, topic, consumer, offset);
      (next, if result.Ok? then Done else Rejected(result.error))
    case Create(topic) =>
      QueueCreateKeepsValid(config, q, topic);
      var (next, result) := QueueCreate(config, q, topic);
      (next, if result.Ok? then Done else Rejected(result.error))
    case Sync(order) =>
      SyncAllKeepsValid(config, q, order);
      var (next, result) := QueueSync(config, q, order);
      (next, if result.Ok? then Done else Rejected(result.error))
    case Close(order) =>
      QueueCloseKeepsValid(config, q, order);
      var (next, result) := QueueClose(config, q, order);
      (next, if result.Ok? then Done else Rejected(result.error))
  }

  function Run(config: Config, q: QueueState, ops: seq<QueueOp>): (r: (QueueState, seq<Reply>))
    requires ValidQueue(config, q)
    ensures ValidQueue(config, r.0) && |r.1| == |ops|
  {
    if ops == [] then (q, [])
    else
      var (mid, replies) := Run(config, q, ops[..|ops| - 1]);
      var (next, reply) := Step(config, mid, ops[|ops| - 1]);
      (next, replies + [reply])
  }

  lemma RunOneMore(config: Config, q: QueueState, ops: seq<QueueOp>, op: QueueOp)
    requires ValidQueue(config, q)
    ensures var (mid, replies) := Run(config, q, ops);
            Run(config, q, ops + [op]) == (Step(config, mid, op).0, replies + [Step(config, mid, op).1])
  {
    hide Step;
    assert (ops + [op])[..|ops|] == ops;
  }

  // ---------- Topics that get in each other's way ----------

  /** The operation may open a topic of another name whose directory gets in the way of this one's. */
  predicate Intrudes(config: Config, topic: string, op: QueueOp) {
    && (op.Enqueue? || op.Create?) && op.topic != topic && op.topic != ""
    && Interferes(Home(config, op.topic), Home(config, topic))
  }

  /** No operation of the run opens such a topic. */
  ghost predicate NoneIntrudes(config: Config, topic: string, ops: seq<QueueOp>) {
    forall i | 0 <= i < |ops| :: !Intrudes(config, topic, ops[i])
  }

  /** Nothing on disk stands in the way of a topic on this directory. */
  ghost predicate Clear(disks: map<Path, Disk>, home: Path) {
    !Blocked(disks, home) && forall d | d in disks.Keys && d != home :: !Interferes(d, home)
  }

  /** No other open topic works on the topic's directory, and nothing on disk stands in its way. */
  ghost predicate Alone(config: Config, q: QueueState, topic: string) {
    && (forall n | n in q.topics && n != topic :: Home(config, n) != Home(config, topic))
    && Clear(q.disks, Home(config, topic))
  }

  /** Names without a slash, other than "." and "..", never get in each other's way. */
  lemma PlainNamesDoNotIntrude(config: Config, topic: string, ops: seq<QueueOp>)
    requires Plain(topic)
    requires forall i | 0 <= i < |ops| && (ops[i].Enqueue? || ops[i].Create?) && ops[i].topic != "" ::
               Plain(ops[i].topic)
    ensures NoneIntrudes(config, topic, ops)
  {
    hide Interferes;
    forall i | 0 <= i < |ops|
      ensures !Intrudes(config, topic, ops[i])
    {
      if (ops[i].Enqueue? || ops[i].Create?) && ops[i].topic != "" {
        PlainNamesDoNotInterfere(config.root, ops[i].topic, topic);
      }
    }
  }

  /** On a clear directory a topic can be opened and saved. */
  lemma ClearDirectoryServes(disks: map<Path, Disk>, home: Path)
    requires Clear(disks, home)
    ensures CanOpen(disks, home) && Writable(disks, home)
  {
    forall d, file | d in disks.Keys && home + [file] <= d
      ensures file !in {FIRST_SEGMENT, INDEX_FILE, CATALOG_FILE, CATALOG_TEMP}
    {
      assert Inside(d, home, file);
    }
  }

  /** Directories were made, and first segments in them; no other segment, and nothing was taken away. */
  ghost predicate Grown(few: map<Path, Disk>, more: map<Path, Disk>) {
    && few.Keys <= more.Keys
    && (forall d | d in more.Keys :: more[d].files.Keys <= At(few, d).files.Keys + {0})
  }

  lemma ClearStays(few: map<Path, Disk>, more: map<Path, Disk>, home: Path)
    requires Clear(few, home) && Grown(few, more)
    requires forall d | d in more.Keys && d !in few.Keys && d != home :: !Interferes(d, home)
    ensures Clear(more, home)
  {
    forall dir | dir in more.Keys && |dir| < |home| && dir <= home
      ensures !FileThere(more, dir, home[|dir|])
    {
      var name := home[|dir|];
      assert !Interferes(dir, home);
      assert name !in {FIRST_SEGMENT, INDEX_FILE, CATALOG_FILE} by {
        assert name in {FIRST_SEGMENT, INDEX_FILE, CATALOG_FILE} ==> Inside(home, dir, name);
      }
      assert DirectoryThere(few, dir + [name]) ==> DirectoryThere(more, dir + [name]);
      assert dir in few.Keys ==> !FileThere(few, dir, name);
    }
  }

  /** Making and filling one directory that is not in the way. */
  lemma DiskKeepsAlone(config: Config, q: QueueState, home: Path, disk: Disk, topic: string)
    requires Alone(config, q, topic)
    requires home == Home(config, topic) || home in q.disks || !Interferes(home, Home(config, topic))
    requires disk.files.Keys <= DiskAt(q, home).files.Keys + {0}
    ensures Alone(config, q.(disks := q.disks[home := disk]), topic)
  {
    hide Home, Interferes, Clear;
    ClearStays(q.disks, q.disks[home := disk], Home(config, topic));
  }

  lemma OpeningMakesFirst(files: Files)
    ensures Opened(files).files.Keys <= files.Keys + {0}
  {
    OpenedIsValid(files);
  }

  /** Another open topic is on a directory that is not in the way. */
  lemma OthersApart(config: Config, q: QueueState, topic: string, name: string)
    requires ValidQueue(config, q) && Alone(config, q, topic) && name in q.topics && name != topic
    ensures Home(config, name) in q.disks && Home(config, name) != Home(config, topic)
    ensures !Interferes(Home(config, name), Home(config, topic))
  {
    hide Home, Interferes;
    assert SegmentExists(TopicAt(config, q, name).log);
  }

  /** A topic's state, or what it would be opened with. */
  function View(config: Config, q: QueueState, topic: string): TopicState {
    if topic in q.topics then TopicAt(config, q, topic) else Initialized(DiskAt(q, Home(config, topic)))
  }

  /** What can be seen from a topic has not changed. */
  ghost predicate SameFrom(config: Config, topic: string, p: QueueState, q: QueueState) {
    && p.closed == q.closed
    && (topic in p.topics <==> topic in q.topics)
    && View(config, p, topic) == View(config, q, topic)
  }

  lemma PutElsewhere(config: Config, q: QueueState, name: string, st: TopicState, topic: string)
    requires Home(config, name) != Home(config, topic)
    ensures SameFrom(config, topic, Put(config, q, name, st), q)
  {
    hide Home, Initialized;
  }

  lemma PutHere(config: Config, q: QueueState, topic: string, st: TopicState)
    ensures View(config, Put(config, q, topic, st), topic) == st
  {
    JoinedAgain(st);
  }

  lemma PutKeepsAlone(config: Config, q: QueueState, name: string, st: TopicState, topic: string)
    requires Alone(config, q, topic) && (name == topic || !Interferes(Home(config, name), Home(config, topic)))
    requires st.log.files.Keys <= DiskAt(q, Home(config, name)).files.Keys + {0}
    ensures Alone(config, Put(config, q, name, st), topic)
  {
    DiskKeepsAlone(config, q, Home(config, name), OnDisk(st), topic);
    hide Home, Clear;
  }

  /** Of a topic that is alone, a step takes it where the step takes its view. */
  lemma PutStep(config: Config, q: QueueState, topic: string, st: TopicState)
    requires ValidQueue(config, q) && Alone(config, q, topic) && topic in q.topics
    requires st.log.files.Keys == TopicAt(config, q, topic).log.files.Keys
    ensures Alone(config, Put(config, q, topic, st), topic) && View(config, Put(config, q, topic, st), topic) == st
    ensures Put(config, q, topic, st).closed == q.closed && topic in Put(config, q, topic, st).topics
  {
    hide Home, Alone, Interferes, View;
    PutKeepsAlone(config, q, topic, st, topic);
    PutHere(config, q, topic, st);
  }

  /** A step of another topic is not seen. */
  lemma OtherPut(config: Config, q: QueueState, name: string, st: TopicState, topic: string)
    requires ValidQueue(config, q) && Alone(config, q, topic) && name in q.topics && name != topic
    requires st.log.files.Keys == TopicAt(config, q, name).log.files.Keys
    ensures Alone(config, Put(config, q, name, st), topic) && SameFrom(config, topic, Put(config, q, name, st), q)
  {
    hide Home, Alone, Interferes;
    OthersApart(config, q, topic, name);
    PutKeepsAlone(config, q, name, st, topic);
    PutElsewhere(config, q, name, st, topic);
  }

  /** A topic that is alone can be opened, on what its directory holds. */
  lemma ReadyHere(config: Config, q: QueueState, topic: string)
    requires ValidQueue(config, q) && Alone(config, q, topic)
    ensures var (mid, ok) := Ready(config, q, topic);
            && ok && ValidQueue(config, mid) && topic in mid.topics && mid.closed == q.closed
            && Alone(config, mid, topic)
            && View(config, mid, topic) == View(config, q, topic)
            && TopicAt(config, mid, topic) == View(config, q, topic)
            && (topic in q.topics ==> mid == q)
  {
    var home := Home(config, topic);
    ReadyIsValid(config, q, topic);
    OpeningMakesFirst(DiskAt(q, home).files);
    ClearDirectoryServes(q.disks, home);
    hide Home, ValidQueue, CanOpen, Clear;
    if topic !in q.topics {
      PutKeepsAlone(config, q, topic, Initialized(DiskAt(q, home)), topic);
      PutHere(config, q, topic, Initialized(DiskAt(q, home)));
    }
  }

  /** An attempt to open another topic that is not in the way is not seen. */
  lemma ReadyElsewhere(config: Config, q: QueueState, name: string, topic: string)
    requires ValidQueue(config, q) && Alone(config, q, topic) && name != topic
    requires name in q.topics || !Interferes(Home(config, name), Home(config, topic))
    ensures var (mid, ok) := Ready(config, q, name);
            && ValidQueue(config, mid) && (ok ==> name in mid.topics)
            && Alone(config, mid, topic) && SameFrom(config, topic, mid, q)
  {
    var home := Home(config, name);
    ReadyIsValid(config, q, name);
    OpeningMakesFirst(DiskAt(q, home).files);
    SameFromItself(config, topic, q);
    if name in q.topics {
    } else if CanOpen(q.disks, home) {
      hide Home, ValidQueue, CanOpen, Alone, SameFrom, Interferes;
      InterferesWithItself(home);
      PutKeepsAlone(config, q, name, Initialized(DiskAt(q, home)), topic);
      PutElsewhere(config, q, name, Initialized(DiskAt(q, home)), topic);
    } else if !Blocked(q.disks, home) {
      hide Home, ValidQueue, CanOpen, NoLog, Blocked, Alone, Interferes, SameFrom;
      InterferesWithItself(home);
      var disk := if NoLog(q.disks, home) then DiskAt(q, home) else WithLog(DiskAt(q, home));
      DiskKeepsAlone(config, q, home, disk, topic);
      DiskElsewhere(config, q, home, disk, topic);
    } else {
      assert q.(disks := q.disks) == q;
    }
  }

  lemma InterferesWithItself(home: Path)
    ensures Interferes(home, home)
  {
  }

  lemma DiskElsewhere(config: Config, q: QueueState, home: Path, disk: Disk, topic: string)
    requires home != Home(config, topic)
    ensures SameFrom(config, topic, q.(disks := q.disks[home := disk]), q)
  {
    hide Home, Initialized;
  }

  lemma SameFromItself(config: Config, topic: string, q: QueueState)
    ensures SameFrom(config, topic, q, q)
  {
  }

  // ---------- Sync and Close ----------

  lemma {:induction false} SyncAllSeen(config: Config, q: QueueState, order: seq<string>, topic: string)
    requires ValidQueue(config, q) && Alone(config, q, topic)
    ensures var next := SyncAll(config, q, order);
            && Alone(config, next, topic) && next.closed == q.closed && (topic in next.topics <==> topic in q.topics)
            && View(config, next, topic)
               == (if topic in order && topic in q.topics then SyncStep(View(config, q, topic)).0
                   else View(config, q, topic))
            && (topic in SyncFailures(config, q, order) <==>
                  topic in order && topic in q.topics && View(config, q, topic).closed)
  {
    hide Home, SyncStep, TopicAt, View, Alone, FailsToSync, ValidQueue;
    if order != [] {
      var front, name := order[..|order| - 1], order[|order| - 1];
      assert order == front + [name];
      SyncAllSeen(config, q, front, topic);
      SyncAllKeepsValid(config, q, front);
      SyncOneSeen(config, SyncAll(config, q, front), name, topic);
      SyncTwice(View(config, q, topic));
    }
  }

  /** Writing a topic out leaves its log alone, and where the snapshot can be written fails only once it is closed. */
  lemma SavingKeepsLog(st: TopicState, writable: bool)
    ensures SyncStep(st, writable).0.log == st.log && CloseStep(st, writable).log == st.log
    ensures writable ==> (SyncStep(st, writable).1.Err? <==> st.closed)
  {
  }

  lemma SyncOneSeen(config: Config, q: QueueState, name: string, topic: string)
    requires ValidQueue(config, q) && Alone(config, q, topic)
    ensures var next := SyncOne(config, q, name);
            && Alone(config, next, topic) && next.closed == q.closed && (topic in next.topics <==> topic in q.topics)
            && View(config, next, topic)
               == (if name == topic && topic in q.topics then SyncStep(View(config, q, topic)).0
                   else View(config, q, topic))
            && (FailsToSync(config, q, topic) <==> topic in q.topics && View(config, q, topic).closed)
  {
    ClearDirectoryServes(q.disks, Home(config, topic));
    hide Home, ValidQueue, Clear, Writable, Alone, SyncStep;
    if topic in q.topics {
      SavingKeepsLog(TopicAt(config, q, topic), true);
    }
    if name in q.topics {
      SavingKeepsLog(TopicAt(config, q, name), Writable(q.disks, Home(config, name)));
      var st := SyncStep(TopicAt(config, q, name), Writable(q.disks, Home(config, name))).0;
      if name == topic {
        PutStep(config, q, topic, st);
      } else {
        OtherPut(config, q, name, st, topic);
      }
    }
  }

  lemma SyncTwice(st: TopicState)
    ensures SyncStep(SyncStep(st).0).0 == SyncStep(st).0 && SyncStep(st).0.closed == st.closed
  {
  }

  lemma {:induction false} CloseAllSeen(config: Config, q: QueueState, order: seq<string>, topic: string)
    requires ValidQueue(config, q) && Alone(config, q, topic)
    ensures var next := CloseAll(config, q, order);
            && Alone(config, next, topic) && next.closed == q.closed && (topic in next.topics <==> topic in q.topics)
            && View(config, next, topic)
               == (if topic in order && topic in q.topics then CloseStep(View(config, q, topic))
                   else View(config, q, topic))
            && topic !in CloseFailures(config, q, order)
  {
    hide Home, CloseStep, TopicAt, View, Alone, FailsToClose, ValidQueue;
    if order != [] {
      var front, name := order[..|order| - 1], order[|order| - 1];
      assert order == front + [name];
      CloseAllSeen(config, q, front, topic);
      CloseAllKeepsValid(config, q, front);
      CloseOneSeen(config, CloseAll(config, q, front), name, topic);
      CloseTwice(View(config, q, topic));
    }
  }

  lemma CloseOneSeen(config: Config, q: QueueState, name: string, topic: string)
    requires ValidQueue(config, q) && Alone(config, q, topic)
    ensures var next := CloseOne(config, q, name);
            && Alone(config, next, topic) && next.closed == q.closed && (topic in next.topics <==> topic in q.topics)
            && View(config, next, topic)
               == (if name == topic && topic in q.topics then CloseStep(View(config, q, topic))
                   else View(config, q, topic))
            && !FailsToClose(config, q, topic)
  {
    ClearDirectoryServes(q.disks, Home(config, topic));
    hide Home, ValidQueue, Clear, Writable, Alone, SyncStep, CloseStep;
    if topic in q.topics {
      SavingKeepsLog(TopicAt(config, q, topic), true);
    }
    if name in q.topics {
      SavingKeepsLog(TopicAt(config, q, name), Writable(q.disks, Home(config, name)));
      var st := CloseStep(TopicAt(config, q, name), Writable(q.disks, Home(config, name)));
      if name == topic {
        PutStep(config, q, topic, st);
      } else {
        OtherPut(config, q, name, st, topic);
      }
    }
  }

  lemma CloseTwice(st: TopicState)
    ensures CloseStep(CloseStep(st)) == CloseStep(st)
  {
  }

  lemma ClosedQueueSeen(config: Config, q: QueueState, topic: string)
    ensures View(config, q.(closed := true), topic) == View(config, q, topic)
    ensures Alone(config, q.(closed := true), topic) == Alone(config, q, topic)
  {
    hide Home, Initialized, Clear;
  }

  // ---------- One operation, seen from one topic ----------

  predicate Touches(topic: string, op: QueueOp) {
    op.Sync? || op.Close? || op.topic == topic
  }

  /** An operation on another topic that is not in the way is not seen. */
  lemma OtherTopicUnseen(config: Config, q: QueueState, topic: string, op: QueueOp)
    requires ValidQueue(config, q) && Alone(config, q, topic) && !Intrudes(config, topic, op) && !Touches(topic, op)
    ensures SameFrom(config, topic, Step(config, q, op).0, q) && Alone(config, Step(config, q, op).0, topic)
  {
    hide Home, ValidQueue, TopicStore.EnqueueStep, TopicStore.DequeueStep, Ready, TopicAt, Put, SameFrom, Alone,
         Interferes;
    SameFromItself(config, topic, q);
    match op
    case Enqueue(name, r) =>
      if !q.closed && (name in q.topics || name != "") {
        ReadyElsewhere(config, q, name, topic);
        var (mid, ok) := Ready(config, q, name);
        if ok {
          OtherEnqueue(config, mid, name, r, topic);
          SameFromOnward(config, topic, Step(config, q, op).0, mid, q);
        }
      }
    case Create(name) =>
      if name !in q.topics && name != "" {
        ReadyElsewhere(config, q, name, topic);
      }
    case Dequeue(name, c, n) =>
      if name in q.topics {
        DequeueKeepsLog(TopicAt(config, q, name), c, n);
        OtherPut(config, q, name, TopicStore.DequeueStep(TopicAt(config, q, name), c, n).0, topic);
      }
    case SetOffset(name, c, o) =>
      if name in q.topics {
        OtherPut(config, q, name, SetOffsetStep(TopicAt(config, q, name), c, o).0, topic);
      }
  }

  lemma OtherEnqueue(config: Config, q: QueueState, name: string, r: Record, topic: string)
    requires ValidQueue(config, q) && Alone(config, q, topic) && name in q.topics && name != topic
    ensures SegmentExists(TopicAt(config, q, name).log)
    ensures var next := Put(config, q, name, TopicStore.EnqueueStep(config, TopicAt(config, q, name), r).0);
            Alone(config, next, topic) && SameFrom(config, topic, next, q)
  {
    assert SegmentExists(TopicAt(config, q, name).log);
    hide Home, ValidQueue, Alone, SameFrom, Put, TopicStore.EnqueueStep, TopicAt;
    StepsKeepSegments(config, TopicAt(config, q, name), r);
    OtherPut(config, q, name, TopicStore.EnqueueStep(config, TopicAt(config, q, name), r).0, topic);
  }

  lemma SameFromOnward(config: Config, topic: string, a: QueueState, b: QueueState, c: QueueState)
    requires SameFrom(config, topic, a, b) && SameFrom(config, topic, b, c)
    ensures SameFrom(config, topic, a, c)
  {
    hide View;
  }

  /** What an operation on the queue does to one topic. */
  function OnTopic(topic: string, op: QueueOp): seq<TopicRuns.TopicOp> {
    if !Touches(topic, op) then []
    else
      match op
      case Enqueue(_, r) => [TopicRuns.Enqueue(r)]
      case Dequeue(_, c, n) => [TopicRuns.Dequeue(c, n)]
      case SetOffset(_, c, o) => [TopicRuns.SetOffset(c, o)]
      case Create(_) => []
      case Sync(order) => if topic in order then [TopicRuns.Sync] else []
      case Close(order) => if topic in order then [TopicRuns.Close] else []
  }

  /** The same, nothing while the queue is closed or the topic does not exist and is not being created. */
  function Effect(q: QueueState, topic: string, op: QueueOp): seq<TopicRuns.TopicOp> {
    if q.closed then []
    else if topic in q.topics || (op.Enqueue? && topic != "") then OnTopic(topic, op)
    else []
  }

  function NewRecords(topic: string, op: QueueOp, reply: Reply): seq<Record> {
    if op.Enqueue? && op.topic == topic && reply.Accepted? then [op.record] else []
  }

  function NewEntries(topic: string, consumer: string, op: QueueOp, reply: Reply): seq<LogEntry> {
    if op.Dequeue? && op.topic == topic && op.consumer == consumer && reply.Batch? then reply.entries else []
  }

  // What an operation on the topic itself does, when the queue is open and the topic there or to be opened.

  lemma EnqueueHere(config: Config, q: QueueState, topic: string, r: Record)
    requires ValidQueue(config, q) && Alone(config, q, topic) && !q.closed && (topic in q.topics || topic != "")
    ensures SegmentExists(View(config, q, topic).log)
    ensures var (next, reply) := Step(config, q, Enqueue(topic, r));
            var (st, result) := TopicStore.EnqueueStep(config, View(config, q, topic), r);
            && Alone(config, next, topic) && !next.closed && topic in next.topics && View(config, next, topic) == st
            && reply == if result.Ok? then Accepted(result.value) else Rejected(FromTopic(result.error))
  {
    hide Home, ValidQueue, TopicStore.EnqueueStep, Ready, TopicAt, Put, Alone, View;
    ReadyHere(config, q, topic);
    ReadyIsValid(config, q, topic);
    var mid := Ready(config, q, topic).0;
    StepsKeepSegments(config, TopicAt(config, mid, topic), r);
    PutStep(config, mid, topic, TopicStore.EnqueueStep(config, TopicAt(config, mid, topic), r).0);
  }

  lemma DequeueHere(config: Config, q: QueueState, topic: string, consumer: string, limit: nat)
    requires ValidQueue(config, q) && Alone(config, q, topic) && !q.closed && topic in q.topics
    ensures var (next, reply) := Step(config, q, Dequeue(topic, consumer, limit));
            var (st, result) := TopicStore.DequeueStep(View(config, q, topic), consumer, limit);
            && Alone(config, next, topic) && !next.closed && topic in next.topics && View(config, next, topic) == st
            && reply == if result.Ok? then Batch(result.value) else Rejected(FromTopic(result.error))
  {
    assert View(config, q, topic) == TopicAt(config, q, topic);
    hide Home, ValidQueue, TopicStore.DequeueStep, TopicAt, Put, Alone, View;
    DequeueKeepsLog(TopicAt(config, q, topic), consumer, limit);
    PutStep(config, q, topic, TopicStore.DequeueStep(TopicAt(config, q, topic), consumer, limit).0);
  }

  lemma SetOffsetHere(config: Config, q: QueueState, topic: string, consumer: string, offset: Int64)
    requires ValidQueue(config, q) && Alone(config, q, topic) && !q.closed && topic in q.topics
    ensures var (next, reply) := Step(config, q, SetOffset(topic, consumer, offset));
            var (st, result) := SetOffsetStep(View(config, q, topic), consumer, offset);
            && Alone(config, next, topic) && !next.closed && topic in next.topics && View(config, next, topic) == st
            && reply == if result.Ok? then Done else Rejected(FromTopic(result.error))
  {
    assert View(config, q, topic) == TopicAt(config, q, topic);
    var st := SetOffsetStep(TopicAt(config, q, topic), consumer, offset).0;
    assert st.log == TopicAt(config, q, topic).log;
    hide Home, ValidQueue, SetOffsetStep, TopicAt, Put, Alone, View;
    PutStep(config, q, topic, st);
  }

  lemma CreateHere(config: Config, q: QueueState, topic: string)
    requires ValidQueue(config, q) && Alone(config, q, topic)
    ensures var (next, reply) := Step(config, q, Create(topic));
            && Alone(config, next, topic) && next.closed == q.closed
            && View(config, next, topic) == View(config, q, topic)
            && (topic in next.topics <==> topic in q.topics || (!q.closed && topic != ""))
            && reply == (if q.closed then Rejected(QueueClosed)
                         else if topic in q.topics then Rejected(TopicExists)
                         else if topic == "" then Rejected(EmptyTopicName)
                         else Done)
  {
    hide Home, ValidQueue, Ready, Alone, View;
    ReadyHere(config, q, topic);
  }

  /** One operation moves the topic by its effect, and the replies agree. */
  lemma StepOnTopic(config: Config, q: QueueState, topic: string, consumer: string, op: QueueOp)
    requires ValidQueue(config, q) && Alone(config, q, topic) && !Intrudes(config, topic, op)
    requires ValidTopic(View(config, q, topic))
    ensures var (next, reply) := Step(config, q, op);
            && Alone(config, next, topic)
            && (Effect(q, topic, op) == [] ==>
                  && View(config, next, topic) == View(config, q, topic)
                  && NewRecords(topic, op, reply) == [] && NewEntries(topic, consumer, op, reply) == [])
            && (Effect(q, topic, op) != [] ==>
                  var act := Effect(q, topic, op)[0];
                  var (st, answer) := TopicRuns.Step(config, View(config, q, topic), act);
                  && Effect(q, topic, op) == [act]
                  && View(config, next, topic) == st
                  && NewRecords(topic, op, reply) == TopicRuns.NewRecords(act, answer)
                  && NewEntries(topic, consumer, op, reply) == TopicRuns.NewEntries(consumer, act, answer))
  {
    hide ValidTopic, ValidQueue, Home, TopicStore.EnqueueStep, TopicStore.DequeueStep, Alone, View, Ready, Put, TopicAt,
         SyncStep, CloseStep, SetOffsetStep, Interferes;
    StepKeepsAlone(config, q, topic, op);
    match op
    case Sync(order) =>
      SyncAllSeen(config, q, order, topic);
    case Close(order) =>
      CloseAllSeen(config, q, order, topic);
      ClosedQueueSeen(config, CloseAll(config, q, order), topic);
    case _ =>
      if !Touches(topic, op) {
        OtherTopicUnseen(config, q, topic, op);
      } else {
        OwnStep(config, q, topic, op);
      }
  }

  /** The same for the operations on the topic alone, with the whole reply. */
  lemma OwnStep(config: Config, q: QueueState, topic: string, op: QueueOp)
    requires ValidQueue(config, q) && Alone(config, q, topic) && !op.Sync? && !op.Close? && op.topic == topic
    ensures var (next, reply) := Step(config, q, op);
            var st := View(config, q, topic);
            && Alone(config, next, topic)
            && (Effect(q, topic, op) == [] ==>
                  View(config, next, topic) == st && !reply.Accepted? && !reply.Batch?)
            && (Effect(q, topic, op) != [] ==>
                  match op
                  case Enqueue(_, r) =>
                    && SegmentExists(st.log)
                    && var (after, result) := TopicStore.EnqueueStep(config, st, r);
                    && View(config, next, topic) == after
                    && reply == if result.Ok? then Accepted(result.value) else Rejected(FromTopic(result.error))
                  case Dequeue(_, consumer, limit) =>
                    var (after, result) := TopicStore.DequeueStep(st, consumer, limit);
                    && View(config, next, topic) == after
                    && reply == if result.Ok? then Batch(result.value) else Rejected(FromTopic(result.error))
                  case SetOffset(_, consumer, offset) =>
                    var (after, result) := SetOffsetStep(st, consumer, offset);
                    && View(config, next, topic) == after && (reply.Done? || reply.Rejected?)
                  case _ => true)
  {
    hide ValidQueue, Home, TopicStore.EnqueueStep, TopicStore.DequeueStep, SetOffsetStep, Ready, Put, Alone, View,
         TopicAt;
    match op
    case Enqueue(_, r) =>
      if Effect(q, topic, op) != [] {
        EnqueueHere(config, q, topic, r);
      }
    case Dequeue(_, consumer, limit) =>
      if Effect(q, topic, op) != [] {
        DequeueHere(config, q, topic, consumer, limit);
      }
    case SetOffset(_, consumer, offset) =>
      if Effect(q, topic, op) != [] {
        SetOffsetHere(config, q, topic, consumer, offset);
      }
    case Create(_) =>
      CreateHere(config, q, topic);
  }

  /** While none that gets in its way is opened, an operation leaves the topic alone on its directory. */
  lemma StepKeepsAlone(config: Config, q: QueueState, topic: string, op: QueueOp)
    requires ValidQueue(config, q) && Alone(config, q, topic) && !Intrudes(config, topic, op)
    ensures Alone(config, Step(config, q, op).0, topic)
  {
    hide Home, ValidQueue, TopicStore.EnqueueStep, TopicStore.DequeueStep, Ready, Put, Alone, View, TopicAt, SyncAll,
         CloseAll, Interferes;
    match op
    case Sync(order) =>
      SyncAllSeen(config, q, order, topic);
    case Close(order) =>
      CloseAllSeen(config, q, order, topic);
      ClosedQueueSeen(config, CloseAll(config, q, order), topic);
    case _ =>
      if Touches(topic, op) {
        OwnStep(config, q, topic, op);
      } else {
        OtherTopicUnseen(config, q, topic, op);
      }
  }

  lemma {:induction false} RunKeepsAlone(config: Config, q: QueueState, topic: string, ops: seq<QueueOp>)
    requires ValidQueue(config, q) && Alone(config, q, topic) && NoneIntrudes(config, topic, ops)
    ensures Alone(config, Run(config, q, ops).0, topic)
  {
    hide Step, Alone, Intrudes, ValidQueue;
    if ops != [] {
      var n := |ops| - 1;
      RunKeepsAlone(config, q, topic, ops[..n]);
      StepKeepsAlone(config, Run(config, q, ops[..n]).0, topic, ops[n]);
    }
  }

  // ---------- Each topic of a queue run is a topic run ----------

  /** The operations that reach a topic: those on it from its creation on. */
  function Reaching(config: Config, topic: string, ops: seq<QueueOp>): seq<TopicRuns.TopicOp> {
    if ops == [] then []
    else
      var n := |ops| - 1;
      var mid := Run(config, EMPTY_QUEUE, ops[..n]).0;
      Reaching(config, topic, ops[..n]) + Effect(mid, topic, ops[n])
  }

  /** The records acknowledged to producers of a topic. */
  function Acknowledged(topic: string, ops: seq<QueueOp>, replies: seq<Reply>): seq<Record>
    requires |ops| == |replies|
  {
    if ops == [] then []
    else
      var n := |ops| - 1;
      Acknowledged(topic, ops[..n], replies[..n])
      + NewRecords(topic, ops[n], replies[n])
  }

  /** What a consumer of a topic was given, its batches joined in order. */
  function Delivered(topic: string, consumer: string, ops: seq<QueueOp>, replies: seq<Reply>): seq<LogEntry>
    requires |ops| == |replies|
  {
    if ops == [] then []
    else
      var n := |ops| - 1;
      Delivered(topic, consumer, ops[..n], replies[..n])
      + NewEntries(topic, consumer, ops[n], replies[n])
  }

  /** While none that gets in its way is opened, a run of the queue is on each topic a run of that topic. */
  lemma {:induction false} RunOnTopic(config: Config, topic: string, consumer: string, ops: seq<QueueOp>)
    requires NoneIntrudes(config, topic, ops)
    ensures var (q, replies) := Run(config, EMPTY_QUEUE, ops);
            var acts := Reaching(config, topic, ops);
            var (st, answers) := TopicRuns.Run(config, TopicRuns.Fresh(), acts);
            && Alone(config, q, topic)
            && View(config, q, topic) == st
            && Acknowledged(topic, ops, replies) == TopicRuns.Acknowledged(acts, answers)
            && Delivered(topic, consumer, ops, replies) == TopicRuns.Delivered(consumer, acts, answers)
  {
    hide Step, TopicRuns.Step, Intrudes, View, Effect, NewRecords, NewEntries, Alone;
    EmptyQueueIsClear(config, topic);
    if ops == [] {
      NothingToView(config, topic);
    } else {
      hide TopicRuns.Fresh;
      var n := |ops| - 1;
      RunOnTopic(config, topic, consumer, ops[..n]);
      var (mid, before) := Run(config, EMPTY_QUEUE, ops[..n]);
      assert (before + [Step(config, mid, ops[n]).1])[..n] == before;
      StepOnTopic(config, mid, topic, consumer, ops[n]);
      var acts, more := Reaching(config, topic, ops[..n]), Effect(mid, topic, ops[n]);
      if more == [] {
        assert acts + more == acts;
      } else {
        assert (acts + more)[..|acts|] == acts;
        TopicRuns.RunOfOneMore(config, acts + more, consumer);
      }
    }
  }

  lemma EmptyQueueIsClear(config: Config, topic: string)
    ensures ValidQueue(config, EMPTY_QUEUE) && Alone(config, EMPTY_QUEUE, topic)
  {
  }

  lemma NothingToView(config: Config, topic: string)
    ensures View(config, EMPTY_QUEUE, topic) == TopicRuns.Fresh()
  {
    hide Home;
  }

  /** The consumer never moves its offset on the topic by hand. */
  ghost predicate NeverSeeks(topic: string, consumer: string, ops: seq<QueueOp>) {
    forall i | 0 <= i < |ops| :: !(ops[i].SetOffset? && ops[i].topic == topic && ops[i].consumer == consumer)
  }

  /**
   * Through any run of a queue, with any number of topics and consumers, in which none is opened that
   * gets in the topic's way, what a consumer has been given of the topic is exactly a prefix of what
   * was enqueued to it, and its offset is where that prefix ends.
   */
  lemma QueueDeliversInOrder(config: Config, topic: string, consumer: string, ops: seq<QueueOp>)
    requires NoneIntrudes(config, topic, ops) && NeverSeeks(topic, consumer, ops)
    ensures var (q, replies) := Run(config, EMPTY_QUEUE, ops);
            TopicRuns.HasPrefix(View(config, q, topic), Acknowledged(topic, ops, replies), consumer,
                                Delivered(topic, consumer, ops, replies))
  {
    hide Run, View, TopicRuns.Run, TopicRuns.HasPrefix, TopicRuns.Fresh, NoneIntrudes, NeverSeeks, Alone;
    RunOnTopic(config, topic, consumer, ops);
    ReachingMoves(config, topic, consumer, ops);
    TopicRuns.InOrderDelivery(config, Reaching(config, topic, ops), consumer);
  }

  lemma {:induction false} ReachingMoves(config: Config, topic: string, consumer: string, ops: seq<QueueOp>)
    requires NeverSeeks(topic, consumer, ops)
    ensures TopicRuns.AllMoveByDequeue(consumer, Reaching(config, topic, ops))
  {
    hide Run, Effect, TopicRuns.AllMoveByDequeue;
    if ops == [] {
      NothingMoves(consumer);
    } else {
      var n := |ops| - 1;
      ReachingMoves(config, topic, consumer, ops[..n]);
      var mid := Run(config, EMPTY_QUEUE, ops[..n]).0;
      EffectMoves(mid, topic, consumer, ops[n]);
      TopicRuns.AllMoveTogether(consumer, Reaching(config, topic, ops[..n]), Effect(mid, topic, ops[n]));
    }
  }

  lemma NothingMoves(consumer: string)
    ensures TopicRuns.AllMoveByDequeue(consumer, [])
  {
  }

  lemma EffectMoves(q: QueueState, topic: string, consumer: string, op: QueueOp)
    requires !(op.SetOffset? && op.topic == topic && op.consumer == consumer)
    ensures TopicRuns.AllMoveByDequeue(consumer, Effect(q, topic, op))
  {
  }
}
