/** When the topics of a queue are isolated from each other. */
module QueueIsolation {
  import opened Numbers
  import opened Results
  import opened Directories
  import opened Framing
  import opened SegmentLog
  import opened SegmentReads
  import opened Offsets
  import opened CatalogStore
  import opened IndexEntries
  import opened TopicStore
  import opened QueueStore
  import TopicRuns
  import opened QueueRuns

  // ---------- Runs without the others ----------

  /** Operations on the topic, or on all topics, that are not another consumer's own. */
  predicate Concerns(topic: string, consumer: string, op: QueueOp) {
    Touches(topic, op) && ((op.Dequeue? || op.SetOffset?) ==> op.consumer == consumer)
  }

  function Projected(topic: string, consumer: string, ops: seq<QueueOp>): seq<QueueOp> {
    if ops == [] then []
    else
      var op := ops[|ops| - 1];
      Projected(topic, consumer, ops[..|ops| - 1]) + if Concerns(topic, consumer, op) then [op] else []
  }

  /** Of a reply to Sync or Close the part that is about the topic: whether it could be written out. */
  function Seen(topic: string, reply: Reply): Reply {
    if reply.Rejected? && reply.error.Unsaved?
    then if topic in reply.error.topics then Rejected(Unsaved([topic])) else Done
    else reply
  }

  /** The replies to the operations that the projection keeps. */
  function RepliesSeen(topic: string, consumer: string, ops: seq<QueueOp>, replies: seq<Reply>): seq<Reply>
    requires |ops| == |replies|
  {
    if ops == [] then []
    else
      var n := |ops| - 1;
      RepliesSeen(topic, consumer, ops[..n], replies[..n])
      + if Concerns(topic, consumer, ops[n]) then [Seen(topic, replies[n])] else []
  }

  /** Two topics that agree on everything one consumer can observe. */
  predicate Alike(consumer: string, a: TopicState, b: TopicState) {
    && a.log == b.log
    && a.closed == b.closed
    && OffsetOf(a.catalog.consumers, consumer) == OffsetOf(b.catalog.consumers, consumer)
  }

  /** Two queues that agree on everything one consumer of one topic can observe. */
  predicate Agree(config: Config, topic: string, consumer: string, p: QueueState, q: QueueState) {
    && p.closed == q.closed
    && (topic in p.topics <==> topic in q.topics)
    && Alike(consumer, View(config, p, topic), View(config, q, topic))
  }

  /** Alike topics answer alike and stay alike. */
  lemma AlikeEnqueues(config: Config, consumer: string, a: TopicState, b: TopicState, r: Record)
    requires Alike(consumer, a, b) && SegmentExists(a.log)
    ensures Alike(consumer, TopicStore.EnqueueStep(config, a, r).0, TopicStore.EnqueueStep(config, b, r).0)
    ensures TopicStore.EnqueueStep(config, a, r).1 == TopicStore.EnqueueStep(config, b, r).1
  {
    hide Indexed, AppendStep;
  }

  lemma AlikeDequeues(consumer: string, a: TopicState, b: TopicState, limit: nat)
    requires Alike(consumer, a, b)
    ensures Alike(consumer, TopicStore.DequeueStep(a, consumer, limit).0, TopicStore.DequeueStep(b, consumer, limit).0)
    ensures TopicStore.DequeueStep(a, consumer, limit).1 == TopicStore.DequeueStep(b, consumer, limit).1
  {
    hide ReadAll, NextOffset;
  }

  lemma AlikeSeeks(consumer: string, a: TopicState, b: TopicState, offset: Int64)
    requires Alike(consumer, a, b)
    ensures Alike(consumer, SetOffsetStep(a, consumer, offset).0, SetOffsetStep(b, consumer, offset).0)
    ensures SetOffsetStep(a, consumer, offset).1 == SetOffsetStep(b, consumer, offset).1
  {
  }

  lemma AlikeSweeps(consumer: string, a: TopicState, b: TopicState)
    requires Alike(consumer, a, b)
    ensures Alike(consumer, SyncStep(a).0, SyncStep(b).0) && Alike(consumer, CloseStep(a), CloseStep(b))
  {
  }

  /** What another consumer does leaves a topic alike. */
  lemma OthersLeaveAlike(consumer: string, st: TopicState, other: string, limit: nat, offset: Int64)
    requires other != consumer
    ensures Alike(consumer, TopicStore.DequeueStep(st, other, limit).0, st)
    ensures Alike(consumer, SetOffsetStep(st, other, offset).0, st)
  {
    hide ReadAll, NextOffset;
  }

  lemma SweepAgrees(config: Config, topic: string, consumer: string, p: QueueState, q: QueueState, op: QueueOp)
    requires ValidQueue(config, p) && ValidQueue(config, q) && Agree(config, topic, consumer, p, q)
    requires Alone(config, p, topic) && Alone(config, q, topic) && (op.Sync? || op.Close?)
    ensures Agree(config, topic, consumer, Step(config, p, op).0, Step(config, q, op).0)
    ensures Seen(topic, Step(config, p, op).1) == Seen(topic, Step(config, q, op).1)
  {
    hide Home, ValidQueue, Alone, TopicAt, Initialized, View, SyncStep, CloseStep, SyncAll, CloseAll;
    var a, b := View(config, p, topic), View(config, q, topic);
    AlikeSweeps(consumer, a, b);
    match op
    case Sync(order) =>
      SyncAllSeen(config, p, order, topic);
      SyncAllSeen(config, q, order, topic);
    case Close(order) =>
      CloseAllSeen(config, p, order, topic);
      CloseAllSeen(config, q, order, topic);
      ClosedQueueSeen(config, CloseAll(config, p, order), topic);
      ClosedQueueSeen(config, CloseAll(config, q, order), topic);
  }

  lemma EnqueueAgrees(config: Config, topic: string, consumer: string, p: QueueState, q: QueueState, r: Record)
    requires ValidQueue(config, p) && ValidQueue(config, q) && Agree(config, topic, consumer, p, q)
    requires Alone(config, p, topic) && Alone(config, q, topic)
    ensures Agree(config, topic, consumer, Step(config, p, Enqueue(topic, r)).0, Step(config, q, Enqueue(topic, r)).0)
    ensures Step(config, p, Enqueue(topic, r)).1 == Step(config, q, Enqueue(topic, r)).1
  {
    hide Home, ValidQueue, TopicStore.EnqueueStep, Put, Alike, View, Ready, Alone;
    if !p.closed && (topic in p.topics || topic != "") {
      EnqueueHere(config, p, topic, r);
      EnqueueHere(config, q, topic, r);
      hide Step;
      AlikeEnqueues(config, consumer, View(config, p, topic), View(config, q, topic), r);
    }
  }

  lemma DequeueAgrees(config: Config, topic: string, consumer: string, p: QueueState, q: QueueState, n: nat)
    requires ValidQueue(config, p) && ValidQueue(config, q) && Agree(config, topic, consumer, p, q)
    requires Alone(config, p, topic) && Alone(config, q, topic)
    ensures var op := Dequeue(topic, consumer, n);
            && Agree(config, topic, consumer, Step(config, p, op).0, Step(config, q, op).0)
            && Step(config, p, op).1 == Step(config, q, op).1
  {
    hide Home, ValidQueue, TopicStore.DequeueStep, Put, Alike, View, Alone;
    if !p.closed && topic in p.topics {
      DequeueHere(config, p, topic, consumer, n);
      DequeueHere(config, q, topic, consumer, n);
      hide Step;
      AlikeDequeues(consumer, View(config, p, topic), View(config, q, topic), n);
    }
  }

  lemma SetOffsetAgrees(config: Config, topic: string, consumer: string, p: QueueState, q: QueueState, o: Int64)
    requires ValidQueue(config, p) && ValidQueue(config, q) && Agree(config, topic, consumer, p, q)
    requires Alone(config, p, topic) && Alone(config, q, topic)
    ensures var op := SetOffset(topic, consumer, o);
            && Agree(config, topic, consumer, Step(config, p, op).0, Step(config, q, op).0)
            && Step(config, p, op).1 == Step(config, q, op).1
  {
    hide Home, ValidQueue, SetOffsetStep, Put, Alike, View, Alone;
    if !p.closed && topic in p.topics {
      SetOffsetHere(config, p, topic, consumer, o);
      SetOffsetHere(config, q, topic, consumer, o);
      hide Step;
      AlikeSeeks(consumer, View(config, p, topic), View(config, q, topic), o);
    }
  }

  lemma CreateAgrees(config: Config, topic: string, consumer: string, p: QueueState, q: QueueState)
    requires ValidQueue(config, p) && ValidQueue(config, q) && Agree(config, topic, consumer, p, q)
    requires Alone(config, p, topic) && Alone(config, q, topic)
    ensures Agree(config, topic, consumer, Step(config, p, Create(topic)).0, Step(config, q, Create(topic)).0)
    ensures Step(config, p, Create(topic)).1 == Step(config, q, Create(topic)).1
  {
    hide Step, ValidQueue, View, Alone, Alike;
    CreateHere(config, p, topic);
    CreateHere(config, q, topic);
  }

  /** An operation that both runs keep gets the same reply in both and keeps them in agreement. */
  lemma ConcernedStepAgrees(config: Config, topic: string, consumer: string, p: QueueState, q: QueueState, op: QueueOp)
    requires ValidQueue(config, p) && ValidQueue(config, q) && Agree(config, topic, consumer, p, q)
    requires Alone(config, p, topic) && Alone(config, q, topic) && Concerns(topic, consumer, op)
    ensures Agree(config, topic, consumer, Step(config, p, op).0, Step(config, q, op).0)
    ensures Seen(topic, Step(config, p, op).1) == Seen(topic, Step(config, q, op).1)
  {
    hide Step, ValidQueue, Alone, Agree;
    match op
    case Enqueue(_, r) => EnqueueAgrees(config, topic, consumer, p, q, r);
    case Dequeue(_, _, n) => DequeueAgrees(config, topic, consumer, p, q, n);
    case SetOffset(_, _, o) => SetOffsetAgrees(config, topic, consumer, p, q, o);
    case Create(_) => CreateAgrees(config, topic, consumer, p, q);
    case _ => SweepAgrees(config, topic, consumer, p, q, op);
  }

  lemma UnconcernedStepAgrees(config: Config, topic: string, consumer: string, q: QueueState, op: QueueOp)
    requires ValidQueue(config, q) && Alone(config, q, topic) && !Intrudes(config, topic, op)
    requires !Concerns(topic, consumer, op)
    ensures Agree(config, topic, consumer, Step(config, q, op).0, q)
  {
    AgreeReflexive(config, topic, consumer, q);
    if !Touches(topic, op) {
      hide Step, Home, View, Alike, Intrudes, Alone;
      OtherTopicUnseen(config, q, topic, op);
    } else if topic in q.topics && !q.closed {
      hide Home, ValidQueue, Alone, TopicStore.DequeueStep, SetOffsetStep, Put, Alike, View;
      if op.Dequeue? {
        DequeueHere(config, q, topic, op.consumer, op.limit);
        OthersLeaveAlike(consumer, View(config, q, topic), op.consumer, op.limit, 0);
      } else {
        SetOffsetHere(config, q, topic, op.consumer, op.offset);
        OthersLeaveAlike(consumer, View(config, q, topic), op.consumer, 0, op.offset);
      }
    }
  }

  lemma AgreeReflexive(config: Config, topic: string, consumer: string, q: QueueState)
    ensures Agree(config, topic, consumer, q, q)
  {
  }

  lemma AgreeTransitive(config: Config, topic: string, consumer: string, a: QueueState, b: QueueState, c: QueueState)
    requires Agree(config, topic, consumer, a, b) && Agree(config, topic, consumer, b, c)
    ensures Agree(config, topic, consumer, a, c)
  {
    hide View;
  }

  lemma ConcernedDoesNotIntrude(config: Config, topic: string, consumer: string, op: QueueOp)
    requires Concerns(topic, consumer, op)
    ensures !Intrudes(config, topic, op)
  {
  }

  /** The replies a consumer of a topic gets in the run are those of the projected run. */
  ghost predicate Unseen(config: Config, q: QueueState, topic: string, consumer: string, ops: seq<QueueOp>)
    requires ValidQueue(config, q)
  {
    var kept := Projected(topic, consumer, ops);
    RepliesSeen(topic, consumer, ops, Run(config, q, ops).1)
      == RepliesSeen(topic, consumer, kept, Run(config, q, kept).1)
  }

  /**
   * Isolation: while no topic is open or opened that gets in its way, every reply a consumer gets on
   * the topic is the reply it would have got had there been no operation on any other topic and no
   * Dequeue or SetOffset by any other consumer.
   */
  lemma {:induction false} ProjectionKeepsReplies(config: Config, q: QueueState, topic: string, consumer: string,
                                                  ops: seq<QueueOp>)
    requires ValidQueue(config, q) && Alone(config, q, topic) && NoneIntrudes(config, topic, ops)
    ensures Unseen(config, q, topic, consumer, ops)
    ensures Agree(config, topic, consumer, Run(config, q, ops).0, Run(config, q, Projected(topic, consumer, ops)).0)
    ensures Alone(config, Run(config, q, Projected(topic, consumer, ops)).0, topic)
  {
    hide Step, ValidQueue, Agree, Concerns, Alone, Intrudes, Seen;
    if ops == [] {
      AgreeReflexive(config, topic, consumer, q);
    } else {
      var n := |ops| - 1;
      ProjectionKeepsReplies(config, q, topic, consumer, ops[..n]);
      RunKeepsAlone(config, q, topic, ops[..n]);
      var (mid, replies) := Run(config, q, ops[..n]);
      var kept := Projected(topic, consumer, ops[..n]);
      var (mid', replies') := Run(config, q, kept);
      assert (replies + [Step(config, mid, ops[n]).1])[..n] == replies;
      if Concerns(topic, consumer, ops[n]) {
        RunOneMore(config, q, kept, ops[n]);
        OneMoreSeen(topic, consumer, kept, replies', ops[n], Step(config, mid', ops[n]).1);
        ConcernedStepAgrees(config, topic, consumer, mid, mid', ops[n]);
        ConcernedDoesNotIntrude(config, topic, consumer, ops[n]);
        StepKeepsAlone(config, mid', topic, ops[n]);
      } else {
        assert kept + [] == kept;
        UnconcernedStepAgrees(config, topic, consumer, mid, ops[n]);
        AgreeTransitive(config, topic, consumer, Step(config, mid, ops[n]).0, mid, mid');
      }
    }
  }

  lemma OneMoreSeen(topic: string, consumer: string, ops: seq<QueueOp>, replies: seq<Reply>, op: QueueOp, reply: Reply)
    requires |ops| == |replies|
    ensures Projected(topic, consumer, ops + [op])
         == Projected(topic, consumer, ops) + if Concerns(topic, consumer, op) then [op] else []
    ensures RepliesSeen(topic, consumer, ops + [op], replies + [reply])
         == RepliesSeen(topic, consumer, ops, replies)
            + if Concerns(topic, consumer, op) then [Seen(topic, reply)] else []
  {
    assert (ops + [op])[..|ops|] == ops && (replies + [reply])[..|ops|] == replies;
  }

  // ---------- Two names for one directory ----------

  /** A topic opened anew on a directory that holds rs and appended to. */
  lemma FirstEnqueue(config: Config, q: QueueState, name: string, rs: seq<Record>, r: Record) returns (st: TopicState)
    requires ValidQueue(config, q) && !q.closed && name !in q.topics && name != ""
    requires q.disks.Keys <= {Home(config, name)}
    requires var disk := DiskAt(q, Home(config, name));
             disk.indexFile == [] && disk.catalogFile == None && Opened(disk.files)
               == LogState(map[0 := Stream(rs)], 0, Start(rs, |rs|))
    ensures Step(config, q, Enqueue(name, r)) == (Put(config, q, name, st), Accepted(Pack(0, Start(rs, |rs|))))
    ensures TopicRuns.HoldsRecords(st, rs + [r]) && !st.closed && st.catalog == LoadedCatalog(None)
    ensures DiskAt(Put(config, q, name, st), Home(config, name)) == Disk(map[0 := Stream(rs + [r])], [], None)
    ensures ValidLog(st.log)
  {
    hide Stream, Start, Pack, TopicStore.EnqueueStep, Home, ValidQueue, Opened, AppendStep, CanOpen;
    var disk := DiskAt(q, Home(config, name));
    var opened' := Initialized(disk);
    OnlyItsDirectory(q.disks, Home(config, name));
    PutTwice(config, q, name, opened', TopicStore.EnqueueStep(config, opened', r).0);
    assert Decode([]) == [];
    InitializedIsValid(disk);
    st := TopicStore.EnqueueStep(config, opened', r).0;
    TopicRuns.EnqueueHoldsOneMore(config, opened', rs, r);
    TopicRuns.EnqueueReply(config, opened', r);
    EnqueueKeepsValid(config, opened', r);
  }

  lemma OnlyItsDirectory(disks: map<Path, Disk>, home: Path)
    requires disks.Keys <= {home}
    ensures CanOpen(disks, home)
  {
  }

  lemma EmptyDirectoryOpens()
    ensures Opened(map[]) == LogState(map[0 := Stream([])], 0, Start([], 0))
  {
  }

  lemma RunOfOne(config: Config, q: QueueState, op: QueueOp)
    requires ValidQueue(config, q)
    ensures Run(config, q, []).0 == q && Run(config, q, [op]) == (Step(config, q, op).0, [Step(config, q, op).1])
  {
    hide Step, ValidQueue;
    RunOneMore(config, q, [], op);
    assert [] + [op] == [op];
    var none: seq<Reply> := [];
    assert none + [Step(config, q, op).1] == [Step(config, q, op).1];
  }

  lemma StartsOfFirst(r: Record)
    ensures [] + [r] == [r] && Start([r], 1) == FrameSize(r) && Start([], 0) == 0
  {
  }

  lemma NoDirectoryYet(config: Config, a: string)
    ensures ValidQueue(config, EMPTY_QUEUE) && DiskAt(EMPTY_QUEUE, Home(config, a)) == EMPTY_DISK
    ensures Pack(0, 0) == 0
  {
    hide Home, Pack;
    PackIsSum(0, 0);
  }

  /** What a queue with one new topic is. */
  lemma FirstTopicIs(config: Config, a: string, st: TopicState, r1: Record)
    requires TopicRuns.HoldsRecords(st, [r1]) && !st.closed && st.catalog == LoadedCatalog(None)
    ensures var q := Put(config, EMPTY_QUEUE, a, st);
            && q.topics.Keys == {a} && !q.closed && !q.topics[a].closed && q.topics[a].consumers == map[]
            && q.disks.Keys == {Home(config, a)}
            && TopicAt(config, q, a) == st && st.log == LogState(map[0 := Stream([r1])], 0, FrameSize(r1))
  {
    StartsOfFirst(r1);
    JoinedAgain(st);
    hide Home, Stream, Start;
  }

  /** The first topic on an empty directory. */
  lemma OpenFirst(config: Config, a: string, r1: Record) returns (q: QueueState)
    requires a != "" && FrameSize(r1) < TWO_32
    ensures ValidQueue(config, EMPTY_QUEUE) && Step(config, EMPTY_QUEUE, Enqueue(a, r1)) == (q, Accepted(0))
    ensures q.topics.Keys == {a} && !q.closed && !q.topics[a].closed && q.topics[a].consumers == map[]
    ensures TopicAt(config, q, a).log == LogState(map[0 := Stream([r1])], 0, FrameSize(r1))
    ensures DiskAt(q, Home(config, a)) == Disk(map[0 := Stream([r1])], [], None) && q.disks.Keys == {Home(config, a)}
    ensures ValidLog(TopicAt(config, q, a).log)
  {
    StartsOfFirst(r1);
    NoDirectoryYet(config, a);
    EmptyDirectoryOpens();
    hide Stream, Start, Pack, Step, Home, ValidQueue, Opened, FrameSize, Put, TopicAt, DiskAt, TopicRuns.HoldsRecords,
         LoadedCatalog, ValidLog;
    var st := FirstEnqueue(config, EMPTY_QUEUE, a, [], r1);
    q := Put(config, EMPTY_QUEUE, a, st);
    FirstTopicIs(config, a, st, r1);
  }

  /** A second name for that directory finds the record there and appends to the same segment. */
  lemma OpenSecond(config: Config, q: QueueState, a: string, b: string, r1: Record, r2: Record)
      returns (next: QueueState)
    requires ValidQueue(config, q) && q.topics.Keys == {a} && !q.closed
    requires a != b && b != "" && Home(config, a) == Home(config, b) && FrameSize(r1) < TWO_32
    requires TopicAt(config, q, a).log == LogState(map[0 := Stream([r1])], 0, FrameSize(r1))
    requires DiskAt(q, Home(config, a)) == Disk(map[0 := Stream([r1])], [], None) && q.disks.Keys == {Home(config, a)}
    requires ValidLog(TopicAt(config, q, a).log)
    ensures Step(config, q, Enqueue(b, r2)) == (next, Accepted(FrameSize(r1)))
    ensures a in next.topics && next.topics[a] == q.topics[a] && !next.closed
    ensures TopicAt(config, next, a).log == LogState(map[0 := Stream([r1, r2])], 0, FrameSize(r1))
  {
    assert Pack(0, FrameSize(r1)) == FrameSize(r1) by {
      PackIsSum(0, FrameSize(r1));
    }
    StartsOfFirst(r1);
    assert [r1] + [r2] == [r1, r2];
    ReopenIsIdentity(TopicAt(config, q, a).log);
    hide Stream, Start, Pack, Step, Home, ValidQueue, Opened, ValidLog, FrameSize, Interferes;
    var st := FirstEnqueue(config, q, b, [r1], r2);
    next := Put(config, q, b, st);
    PutBeside(config, q, a, b, st);
  }

  lemma PutBeside(config: Config, q: QueueState, a: string, b: string, st: TopicState)
    requires a in q.topics && a != b && Home(config, a) == Home(config, b)
    ensures var next := Put(config, q, b, st);
            && next.topics[a] == q.topics[a] && next.closed == q.closed
            && TopicAt(config, next, a).log == LogState(st.log.files, q.topics[a].segmentIndex, q.topics[a].currentSize)
  {
    hide Home;
  }

  /** Two names of one directory, opened one after the other, append to the same segment. */
  lemma AliasesShareTheLog(config: Config, a: string, b: string, r1: Record, r2: Record)
      returns (q1: QueueState, q2: QueueState)
    requires a != b && a != "" && b != "" && Home(config, a) == Home(config, b)
    requires FrameSize(r1) < TWO_32
    ensures Run(config, EMPTY_QUEUE, [Enqueue(a, r1)]) == (q1, [Accepted(0)])
    ensures Run(config, EMPTY_QUEUE, [Enqueue(a, r1), Enqueue(b, r2)]) == (q2, [Accepted(0), Accepted(FrameSize(r1))])
    ensures a in q1.topics && a in q2.topics && q2.topics[a] == q1.topics[a] && !q1.closed && !q2.closed
    ensures TopicAt(config, q1, a).log == LogState(map[0 := Stream([r1])], 0, FrameSize(r1))
    ensures TopicAt(config, q2, a).log == LogState(map[0 := Stream([r1, r2])], 0, FrameSize(r1))
    ensures q1.topics[a].consumers == map[] && !q1.topics[a].closed
  {
    hide Stream, Step, Home, ValidQueue, Run, TopicAt, ValidLog, DiskAt, FrameSize;
    q1 := OpenFirst(config, a, r1);
    RunOfOne(config, EMPTY_QUEUE, Enqueue(a, r1));
    q2 := OpenSecond(config, q1, a, b, r1, r2);
    RunOneMore(config, EMPTY_QUEUE, [Enqueue(a, r1)], Enqueue(b, r2));
    assert [Enqueue(a, r1)] + [Enqueue(b, r2)] == [Enqueue(a, r1), Enqueue(b, r2)];
    assert [Accepted(0)] + [Accepted(FrameSize(r1))] == [Accepted(0), Accepted(FrameSize(r1))];
  }

  lemma DequeueFromStart(config: Config, q: QueueState, name: string, consumer: string, rs: seq<Record>, limit: nat)
    requires ValidQueue(config, q) && !q.closed && name in q.topics
    requires !q.topics[name].closed && q.topics[name].consumers == map[]
    requires TopicAt(config, q, name).log.files == map[0 := Stream(rs)] && Start(rs, |rs|) < TWO_32 && |rs| <= limit
    ensures Step(config, q, Dequeue(name, consumer, limit)).1 == Batch(Entries(0, rs))
  {
    hide Stream, TopicStore.DequeueStep, Home, ValidQueue, Entries, QueueEnqueue, QueueCreate, QueueSync, QueueClose;
    TopicRuns.DequeueAt(TopicAt(config, q, name), rs, consumer, limit, 0);
    assert Entries(0, rs)[0..|rs|] == Entries(0, rs);
  }

  /** A log that knows only of the first i records appends behind all of them and returns the offset of record i. */
  lemma StaleAppend(log: LogState, maxSize: int, rs: seq<Record>, i: nat, r: Record)
    requires i < |rs| && |rs[i].data| < TWO_32 && Start(rs, i) < TWO_32
    requires log == LogState(map[0 := Stream(rs)], 0, Start(rs, i)) && Start(rs, i) + FrameSize(r) <= maxSize
    ensures var (next, offset) := AppendStep(log, maxSize, r);
            && offset == Start(rs, i)
            && Read(next.files, offset) == Ok(LogEntry(rs[i].timestamp, rs[i].data, offset))
  {
    hide Stream, Start, Frame, ReadAt, Pack;
    StreamOfOneMore(rs, r);
    ReadBehind([], rs + [r], i);
    assert [] + Stream(rs + [r]) == Stream(rs + [r]);
    PackIsSum(0, Start(rs, i));
  }

  lemma StaleEnqueue(config: Config, q: QueueState, name: string, r1: Record, r2: Record, r3: Record)
    requires ValidQueue(config, q) && !q.closed && name in q.topics && !q.topics[name].closed
    requires FrameSize(r1) < TWO_32 && Start([r1, r2], 2) < TWO_32
    requires FrameSize(r1) + FrameSize(r3) <= config.segmentSize
    requires TopicAt(config, q, name).log == LogState(map[0 := Stream([r1, r2])], 0, FrameSize(r1))
    ensures Step(config, q, Enqueue(name, r3)).1 == Accepted(FrameSize(r1))
    ensures Read(View(config, Step(config, q, Enqueue(name, r3)).0, name).log.files, FrameSize(r1))
         == Ok(LogEntry(r2.timestamp, r2.data, FrameSize(r1)))
  {
    assert Start([r1, r2], 1) == FrameSize(r1);
    assert Start([r1, r2], 2) == Start([r1, r2], 1) + FrameSize(r2);
    hide Stream, Start, Read, AppendStep, Home, ValidQueue, Indexed, View, Put;
    var st := TopicAt(config, q, name);
    StaleAppend(st.log, config.segmentSize, [r1, r2], 1, r3);
    PutHere(config, q, name, TopicStore.EnqueueStep(config, st, r3).0);
  }

  /**
   * Two names of one directory are not isolated: the consumers of one are given what was enqueued
   * under the other, and the offset that a further Enqueue under the first name returns, unless it
   * makes the log reopen its segment, is that of the other name's record.
   */
  lemma AliasIsSeen(config: Config, a: string, b: string, consumer: string, r1: Record, r2: Record, r3: Record)
    requires a != b && a != "" && b != "" && Home(config, a) == Home(config, b)
    requires FrameSize(r1) < TWO_32 && Start([r1, r2], 2) < TWO_32
    ensures var both := Run(config, EMPTY_QUEUE, [Enqueue(a, r1), Enqueue(b, r2)]).0;
            var alone := Run(config, EMPTY_QUEUE, [Enqueue(a, r1)]).0;
            && Step(config, both, Dequeue(a, consumer, 2)).1 == Batch(Entries(0, [r1, r2]))
            && Step(config, alone, Dequeue(a, consumer, 2)).1 == Batch(Entries(0, [r1]))
            && (FrameSize(r1) + FrameSize(r3) <= config.segmentSize ==>
                  && Step(config, both, Enqueue(a, r3)).1 == Accepted(FrameSize(r1))
                  && Read(View(config, Step(config, both, Enqueue(a, r3)).0, a).log.files, FrameSize(r1))
                       == Ok(LogEntry(r2.timestamp, r2.data, FrameSize(r1))))
  {
    var q1, q2 := AliasesShareTheLog(config, a, b, r1, r2);
    DequeueFromStart(config, q2, a, consumer, [r1, r2], 2);
    assert Start([r1], 1) == FrameSize(r1);
    DequeueFromStart(config, q1, a, consumer, [r1], 2);
    if FrameSize(r1) + FrameSize(r3) <= config.segmentSize {
      StaleEnqueue(config, q2, a, r1, r2, r3);
    }
  }

  /** Nothing done under the other name is seen: the replies of every run over the two are those of its projection. */
  ghost predicate Isolated(config: Config, topic: string, other: string) {
    forall consumer: string, ops: seq<QueueOp> | OnlyNames(topic, other, ops) ::
      Unseen(config, EMPTY_QUEUE, topic, consumer, ops)
  }

  ghost predicate OnlyNames(a: string, b: string, ops: seq<QueueOp>) {
    forall i | 0 <= i < |ops| :: Touches(a, ops[i]) || Touches(b, ops[i])
  }

  /** An operation on the topic that is answered differently after a run and after its projection. */
  lemma AnswerGivesAway(config: Config, a: string, b: string, consumer: string, ops: seq<QueueOp>, op: QueueOp,
                        kept: seq<QueueOp>, x: Reply, y: Reply)
    requires OnlyNames(a, b, ops) && Concerns(a, consumer, op)
    requires kept == Projected(a, consumer, ops) && Seen(a, x) != Seen(a, y)
    requires ValidQueue(config, EMPTY_QUEUE)
    requires Step(config, Run(config, EMPTY_QUEUE, ops).0, op).1 == x
    requires Step(config, Run(config, EMPTY_QUEUE, kept).0, op).1 == y
    ensures !Isolated(config, a, b)
  {
    hide Step, Seen, Concerns, Home, ValidQueue;
    var (p, replies) := Run(config, EMPTY_QUEUE, ops);
    var (q, replies') := Run(config, EMPTY_QUEUE, kept);
    RunOneMore(config, EMPTY_QUEUE, ops, op);
    RunOneMore(config, EMPTY_QUEUE, kept, op);
    OneMoreSeen(a, consumer, ops, replies, op, Step(config, p, op).1);
    OneMoreSeen(a, consumer, kept, replies', op, Step(config, q, op).1);
    LastDiffers(RepliesSeen(a, consumer, ops, replies), Seen(a, Step(config, p, op).1),
                RepliesSeen(a, consumer, kept, replies'), Seen(a, Step(config, q, op).1));
    ConcernedTouches(a, consumer, op);
    assert OnlyNames(a, b, ops + [op]) && !Unseen(config, EMPTY_QUEUE, a, consumer, ops + [op]);
  }

  lemma LastDiffers(xs: seq<Reply>, x: Reply, ys: seq<Reply>, y: Reply)
    requires x != y
    ensures xs + [x] != ys + [y]
  {
    assert (xs + [x])[|xs + [x]| - 1] == x && (ys + [y])[|ys + [y]| - 1] == y;
  }

  lemma ConcernedTouches(topic: string, consumer: string, op: QueueOp)
    requires Concerns(topic, consumer, op)
    ensures Touches(topic, op)
  {
  }

  function Kept(topic: string, consumer: string, op: QueueOp): seq<QueueOp> {
    if Concerns(topic, consumer, op) then [op] else []
  }

  lemma ShortProjections(topic: string, consumer: string, x: QueueOp, y: QueueOp, z: QueueOp)
    ensures Projected(topic, consumer, [x]) == Kept(topic, consumer, x)
    ensures Projected(topic, consumer, [x, y]) == Kept(topic, consumer, x) + Kept(topic, consumer, y)
    ensures Projected(topic, consumer, [x, y, z])
         == Kept(topic, consumer, x) + Kept(topic, consumer, y) + Kept(topic, consumer, z)
  {
    hide Concerns;
    assert [x][..0] == [] && [x, y][..1] == [x] && [x, y, z][..2] == [x, y];
  }

  lemma ShortNames(a: string, b: string, x: QueueOp, y: QueueOp, z: QueueOp)
    requires forall op | op in {x, y, z} :: Touches(a, op) || Touches(b, op)
    ensures OnlyNames(a, b, [x]) && OnlyNames(a, b, [x, y]) && OnlyNames(a, b, [x, y, z])
  {
  }

  lemma ShortRuns(config: Config, q: QueueState, x: QueueOp, y: QueueOp, z: QueueOp)
    requires ValidQueue(config, q)
    ensures var q1 := Step(config, q, x).0;
            var q2 := Step(config, q1, y).0;
            && Run(config, q, []).0 == q && Run(config, q, [x]).0 == q1 && Run(config, q, [x, y]).0 == q2
            && Run(config, q, [x, y, z]).0 == Step(config, q2, z).0
  {
    hide Step, ValidQueue;
    RunOfOne(config, q, x);
    hide Run;
    RunOneMore(config, q, [x], y);
    RunOneMore(config, q, [x, y], z);
    assert [x] + [y] == [x, y] && [x, y] + [z] == [x, y, z];
  }

  /** A Dequeue that tells whether something was enqueued under the other name. */
  lemma AliasAnswers(config: Config, a: string, b: string, r: Record) returns (x: Reply, y: Reply)
    requires a != b && a != "" && b != "" && Home(config, a) == Home(config, b) && r == Record(0, [])
    ensures ValidQueue(config, EMPTY_QUEUE) && Seen(a, x) != Seen(a, y)
    ensures Step(config, Run(config, EMPTY_QUEUE, [Enqueue(a, r), Enqueue(b, r)]).0, Dequeue(a, "", 2)).1 == x
    ensures Step(config, Run(config, EMPTY_QUEUE, [Enqueue(a, r)]).0, Dequeue(a, "", 2)).1 == y
  {
    assert Start([r, r], 2) == Start([r, r], 1) + FrameSize(r) && Start([r, r], 1) == FrameSize(r);
    assert |Entries(0, [r, r])| == 2 && |Entries(0, [r])| == 1;
    EmptyQueueIsClear(config, a);
    hide Step, Home, Run, Start, Entries, View, ValidQueue, TopicAt, Stream, Read, Alone;
    AliasIsSeen(config, a, b, "", r, r, r);
    x, y := Batch(Entries(0, [r, r])), Batch(Entries(0, [r]));
  }

  lemma AliasNotIsolated(config: Config, a: string, b: string)
    requires a != b && a != "" && b != "" && Home(config, a) == Home(config, b)
    ensures !Isolated(config, a, b)
  {
    var r := Record(0, []);
    hide Step, Home, Run, Projected, Isolated, ValidQueue, OnlyNames, Concerns, Seen;
    AliasProjection(a, b, r);
    var more, less := AliasAnswers(config, a, b, r);
    AnswerGivesAway(config, a, b, "", [Enqueue(a, r), Enqueue(b, r)], Dequeue(a, "", 2), [Enqueue(a, r)], more, less);
  }

  lemma AliasProjection(a: string, b: string, r: Record)
    requires a != b
    ensures OnlyNames(a, b, [Enqueue(a, r), Enqueue(b, r)]) && Concerns(a, "", Dequeue(a, "", 2))
    ensures Projected(a, "", [Enqueue(a, r), Enqueue(b, r)]) == [Enqueue(a, r)]
  {
    var x, y := Enqueue(a, r), Enqueue(b, r);
    ShortNames(a, b, x, y, y);
    ShortProjections(a, "", x, y, y);
    hide Projected, OnlyNames;
    assert Kept(a, "", x) + Kept(a, "", y) == [x];
  }

  /** The first topic on an empty disk. */
  lemma FirstCreate(config: Config, b: string) returns (q: QueueState)
    requires b != ""
    ensures ValidQueue(config, EMPTY_QUEUE) && Step(config, EMPTY_QUEUE, Create(b)) == (q, Done)
    ensures ValidQueue(config, q) && q == Put(config, EMPTY_QUEUE, b, Initialized(EMPTY_DISK))
    ensures q.disks.Keys == {Home(config, b)} && q.disks[Home(config, b)].files.Keys == {0}
    ensures Alone(config, q, b)
  {
    EmptyQueueIsClear(config, b);
    CreateHere(config, EMPTY_QUEUE, b);
    assert Initialized(EMPTY_DISK).log.files.Keys == {0};
    hide Home, ValidQueue, CanOpen, Initialized, Alone;
    OnlyItsDirectory(EMPTY_QUEUE.disks, Home(config, b));
    q := Step(config, EMPTY_QUEUE, Create(b)).0;
  }

  lemma CreateRefused(config: Config, q: QueueState, a: string)
    requires ValidQueue(config, q) && !q.closed && a !in q.topics && a != "" && !CanOpen(q.disks, Home(config, a))
    ensures Step(config, q, Create(a)).1 == Rejected(CannotOpen)
  {
    hide Home, ValidQueue, CanOpen, AfterOpening;
  }

  /** Where b stands in the way a cannot be opened, and would be if b were not there. */
  lemma OccupiedNotIsolated(config: Config, a: string, b: string)
    requires a != b && a != "" && b != "" && Home(config, a) != Home(config, b)
    requires || Occupies(Home(config, b), Home(config, a))
             || Inside(Home(config, a), Home(config, b), FIRST_SEGMENT)
             || Inside(Home(config, a), Home(config, b), INDEX_FILE)
    ensures !Isolated(config, a, b)
  {
    hide Home, ValidQueue, Run, Projected, Isolated, CanOpen, Occupies, Inside, Initialized, Alone, Step;
    var q := FirstCreate(config, b);
    var none := FirstCreate(config, a);
    InTheWay(q.disks, Home(config, b), Home(config, a));
    CreateRefused(config, q, a);
    ShortRuns(config, EMPTY_QUEUE, Create(b), Create(b), Create(b));
    ShortProjections(a, "", Create(b), Create(b), Create(b));
    AnswerGivesAway(config, a, b, "", [Create(b)], Create(a), [], Rejected(CannotOpen), Done);
  }

  lemma InTheWay(disks: map<Path, Disk>, other: Path, home: Path)
    requires disks.Keys == {other} && disks[other].files.Keys == {0} && other != home
    requires Occupies(other, home) || Inside(home, other, FIRST_SEGMENT) || Inside(home, other, INDEX_FILE)
    ensures !CanOpen(disks, home)
  {
    if Occupies(other, home) {
      forall file | Inside(other, home, file)
        ensures DirectoryThere(disks, home + [file])
      {
        assert home + [file] <= other;
      }
    } else {
      assert 0 in disks[other].files.Keys;
      assert FileThere(disks, other, home[|other|]);
    }
  }

  /** b's snapshot, once it was written, is in a's way. */
  lemma SnapshotNotIsolated(config: Config, a: string, b: string)
    requires a != b && a != "" && b != "" && Inside(Home(config, a), Home(config, b), CATALOG_FILE)
    ensures !Isolated(config, a, b)
  {
    var x, y, z := Create(b), SetOffset(b, "", 0), QueueOp.Sync([b]);
    ShortNames(a, b, x, y, z);
    OnlyLast(a, x, y, z);
    assert Concerns(a, "", Create(a));
    hide Home, ValidQueue, Run, Projected, Isolated, Inside, Alone, Step, OnlyNames, Concerns, Kept, Put, Initialized;
    SnapshotRefuses(config, a, b);
    var none := FirstCreate(config, a);
    NothingSynced(config, b);
    ShortRuns(config, EMPTY_QUEUE, x, y, z);
    ShortRuns(config, EMPTY_QUEUE, z, z, z);
    ShortProjections(a, "", x, y, z);
    AnswerGivesAway(config, a, b, "", [x, y, z], Create(a), [z], Rejected(CannotOpen), Done);
  }

  lemma SnapshotRefuses(config: Config, a: string, b: string)
    requires a != b && a != "" && b != "" && Inside(Home(config, a), Home(config, b), CATALOG_FILE)
    ensures ValidQueue(config, EMPTY_QUEUE)
    ensures var q1 := Step(config, EMPTY_QUEUE, Create(b)).0;
            var q2 := Step(config, q1, SetOffset(b, "", 0)).0;
            var q3 := Step(config, q2, QueueOp.Sync([b])).0;
            Step(config, q3, Create(a)).1 == Rejected(CannotOpen)
  {
    hide Home, ValidQueue, Inside, Step, CanOpen;
    var q3 := SnapshotWritten(config, b);
    SnapshotInTheWay(q3.disks, Home(config, b), Home(config, a));
    CreateRefused(config, q3, a);
  }

  lemma SnapshotInTheWay(disks: map<Path, Disk>, other: Path, home: Path)
    requires other in disks && disks[other].catalogFile.Some? && Inside(home, other, CATALOG_FILE)
    requires !DirectoryThere(disks, other + [CATALOG_FILE])
    ensures !CanOpen(disks, home)
  {
    hide SegmentName;
    assert FileThere(disks, other, CATALOG_FILE);
    assert Blocked(disks, home);
  }

  lemma OnlyLast(a: string, x: QueueOp, y: QueueOp, z: QueueOp)
    requires !Touches(a, x) && !Touches(a, y) && z.Sync?
    ensures Kept(a, "", x) + Kept(a, "", y) + Kept(a, "", z) == [z]
  {
  }

  lemma OnlyFirstNot(a: string, x: QueueOp, y: QueueOp, z: QueueOp)
    requires !Touches(a, x) && Concerns(a, "", y) && Concerns(a, "", z)
    ensures Kept(a, "", x) + Kept(a, "", y) + Kept(a, "", z) == [y, z]
  {
  }

  lemma NothingSynced(config: Config, b: string)
    ensures ValidQueue(config, EMPTY_QUEUE) && Step(config, EMPTY_QUEUE, QueueOp.Sync([b])).0 == EMPTY_QUEUE
  {
    assert [b][..0] == [];
  }

  /** The state after b was created and its only consumer's offset written to disk. */
  lemma SnapshotWritten(config: Config, b: string) returns (q3: QueueState)
    requires b != ""
    ensures ValidQueue(config, EMPTY_QUEUE)
    ensures var q1 := Step(config, EMPTY_QUEUE, Create(b)).0;
            var q2 := Step(config, q1, SetOffset(b, "", 0)).0;
            q3 == Step(config, q2, QueueOp.Sync([b])).0
    ensures ValidQueue(config, q3) && q3.topics.Keys == {b} && !q3.closed
    ensures Home(config, b) in q3.disks && q3.disks[Home(config, b)].catalogFile.Some?
    ensures !DirectoryThere(q3.disks, Home(config, b) + [CATALOG_FILE])
  {
    hide Home, ValidQueue, Alone, SyncAll, SyncFailures, View, Step, Clear, Initialized, Put;
    var q2 := OffsetSet(config, b);
    SyncStepSeen(config, q2, b);
    q3 := Step(config, q2, QueueOp.Sync([b])).0;
    SnapshotOnDisk(config, q3, b);
  }

  lemma OffsetSet(config: Config, b: string) returns (q2: QueueState)
    requires b != ""
    ensures ValidQueue(config, EMPTY_QUEUE)
    ensures var q1 := Step(config, EMPTY_QUEUE, Create(b)).0;
            q2 == Step(config, q1, SetOffset(b, "", 0)).0
    ensures ValidQueue(config, q2) && q2.topics.Keys == {b} && !q2.closed && Alone(config, q2, b)
    ensures !View(config, q2, b).closed && View(config, q2, b).catalog.dirty
  {
    var st := Initialized(EMPTY_DISK);
    hide Home, ValidQueue, Alone, View, Initialized, CanOpen, Ready;
    var q1 := FirstCreate(config, b);
    PutHere(config, EMPTY_QUEUE, b, st);
    SetOffsetHere(config, q1, b, "", 0);
    q2 := Step(config, q1, SetOffset(b, "", 0)).0;
  }

  lemma SyncStepSeen(config: Config, q: QueueState, b: string)
    requires ValidQueue(config, q) && Alone(config, q, b) && !q.closed && b in q.topics
    requires !View(config, q, b).closed
    ensures var (next, reply) := Step(config, q, QueueOp.Sync([b]));
            && View(config, next, b) == SyncStep(View(config, q, b)).0 && Alone(config, next, b)
            && next.topics.Keys == q.topics.Keys && !next.closed && Seen(b, reply) == Done
  {
    hide Home, ValidQueue, Alone, SyncAll, SyncFailures, View, SyncStep;
    SyncAllSeen(config, q, [b], b);
    SyncAllKeepsValid(config, q, [b]);
  }

  lemma SnapshotOnDisk(config: Config, q: QueueState, b: string)
    requires Alone(config, q, b) && b in q.topics && View(config, q, b).catalog.file.Some?
    ensures Home(config, b) in q.disks && q.disks[Home(config, b)].catalogFile.Some?
    ensures !DirectoryThere(q.disks, Home(config, b) + [CATALOG_FILE])
  {
    hide Home, Clear;
    ClearDirectoryServes(q.disks, Home(config, b));
  }

  /** b in the place of a's temporary file keeps a's snapshot from being written. */
  lemma TemporaryNotIsolated(config: Config, a: string, b: string)
    requires a != b && a != "" && b != "" && Inside(Home(config, b), Home(config, a), CATALOG_TEMP)
    ensures !Isolated(config, a, b)
  {
    var x, y, z := Create(b), Create(a), SetOffset(a, "", 0);
    ShortNames(a, b, x, y, z);
    OnlyFirstNot(a, x, y, z);
    assert Concerns(a, "", QueueOp.Sync([a]));
    hide Home, ValidQueue, Run, Projected, Isolated, Inside, Step, Seen, View, Alone, OnlyNames, Concerns, Kept;
    var q2 := OffsetSet(config, a);
    SyncStepSeen(config, q2, a);
    var served := Step(config, q2, QueueOp.Sync([a])).1;
    var refused := SaveRefused(config, a, b);
    ShortRuns(config, EMPTY_QUEUE, x, y, z);
    ShortRuns(config, EMPTY_QUEUE, y, z, z);
    ShortProjections(a, "", x, y, z);
    AnswerGivesAway(config, a, b, "", [x, y, z], QueueOp.Sync([a]), [y, z], refused, served);
  }

  lemma SaveRefused(config: Config, a: string, b: string) returns (reply: Reply)
    requires a != b && a != "" && b != "" && Inside(Home(config, b), Home(config, a), CATALOG_TEMP)
    ensures ValidQueue(config, EMPTY_QUEUE)
    ensures var q1 := Step(config, EMPTY_QUEUE, Create(b)).0;
            var q2 := Step(config, q1, Create(a)).0;
            var q3 := Step(config, q2, SetOffset(a, "", 0)).0;
            reply == Step(config, q3, QueueOp.Sync([a])).1 && Seen(a, reply) == Rejected(Unsaved([a]))
  {
    var home := Home(config, a);
    var st := Initialized(EMPTY_DISK);
    var with0 := SetOffsetStep(st, "", 0).0;
    hide Home, Initialized, ValidQueue, CanOpen, Step, Inside, Alone, Put, DirectoryThere, TopicAt;
    var q1 := FirstCreate(config, b);
    BesideTemporary(q1.disks, Home(config, b), home);
    assert DiskAt(q1, home) == EMPTY_DISK;
    CreateServed(config, q1, a);
    PutTwice(config, q1, a, st, with0);
    PutTwice(config, q1, a, with0, with0);
    var q2 := Put(config, q1, a, st);
    OffsetServed(config, q2, a);
    StillThere(config, q1, a, with0, home + [CATALOG_TEMP]);
    var q3 := Put(config, q1, a, with0);
    SyncRefused(config, q3, a);
    reply := Step(config, q3, QueueOp.Sync([a])).1;
  }

  lemma StillThere(config: Config, q: QueueState, a: string, st: TopicState, path: Path)
    requires DirectoryThere(q.disks, path)
    ensures DirectoryThere(Put(config, q, a, st).disks, path)
  {
    hide Home;
    var d :| d in q.disks.Keys && path <= d;
    assert d in Put(config, q, a, st).disks.Keys;
  }

  lemma CreateServed(config: Config, q: QueueState, a: string)
    requires ValidQueue(config, q) && !q.closed && a !in q.topics && a != "" && CanOpen(q.disks, Home(config, a))
    ensures Step(config, q, Create(a)) == (Put(config, q, a, Initialized(DiskAt(q, Home(config, a)))), Done)
  {
    hide Home, ValidQueue, CanOpen, Initialized;
  }

  lemma OffsetServed(config: Config, q: QueueState, a: string)
    requires ValidQueue(config, q) && !q.closed && a in q.topics && !q.topics[a].closed
    ensures Step(config, q, SetOffset(a, "", 0))
         == (Put(config, q, a, SetOffsetStep(TopicAt(config, q, a), "", 0).0), Done)
  {
    hide Home, ValidQueue;
  }

  lemma SyncRefused(config: Config, q: QueueState, a: string)
    requires ValidQueue(config, q) && !q.closed && a in q.topics
    requires !q.topics[a].closed && q.topics[a].catalogDirty && !Writable(q.disks, Home(config, a))
    ensures Seen(a, Step(config, q, QueueOp.Sync([a])).1) == Rejected(Unsaved([a]))
  {
    hide Home, ValidQueue, Writable;
    assert FailsToSync(config, q, a);
    assert [a][..0] == [];
    hide FailsToSync, SyncOne;
    assert SyncFailures(config, q, [a]) == [] + [a];
  }

  lemma BesideTemporary(disks: map<Path, Disk>, other: Path, home: Path)
    requires disks.Keys == {other} && Inside(other, home, CATALOG_TEMP)
    ensures CanOpen(disks, home) && DirectoryThere(disks, home + [CATALOG_TEMP]) && home !in disks
  {
    SegmentNameOfZero();
    assert home + [CATALOG_TEMP] <= other;
    forall file | file in {FIRST_SEGMENT, INDEX_FILE, CATALOG_FILE}
      ensures !DirectoryThere(disks, home + [file])
    {
      assert (home + [file])[|home|] == file;
    }
  }

  /**
   * One topic name is isolated from another in every run exactly when the directory of the other is
   * not the same and neither takes the place of a file that a topic on the other needs.
   */
  lemma IsolatedExactly(config: Config, a: string, b: string)
    requires a != b && a != "" && b != ""
    ensures Isolated(config, a, b) <==> !Interferes(Home(config, b), Home(config, a))
  {
    hide Home, Unseen;
    if !Interferes(Home(config, b), Home(config, a)) {
      EmptyQueueIsClear(config, a);
      forall consumer: string, ops: seq<QueueOp> | OnlyNames(a, b, ops)
        ensures Unseen(config, EMPTY_QUEUE, a, consumer, ops)
      {
        ProjectionKeepsReplies(config, EMPTY_QUEUE, a, consumer, ops);
      }
    } else if Home(config, a) == Home(config, b) {
      AliasNotIsolated(config, a, b);
    } else if Inside(Home(config, b), Home(config, a), CATALOG_TEMP) {
      TemporaryNotIsolated(config, a, b);
    } else if Inside(Home(config, a), Home(config, b), CATALOG_FILE) {
      SnapshotNotIsolated(config, a, b);
    } else {
      OccupiedNotIsolated(config, a, b);
    }
  }

  /** A name that leads to one of its files is not isolated from the topic: a/index.idx beside a, say. */
  lemma FileNamesAreNotIsolated(config: Config, a: string, file: string)
    requires a != "" && file in {FIRST_SEGMENT, INDEX_FILE, CATALOG_FILE, CATALOG_TEMP}
    ensures !Isolated(config, a, a + "/" + file)
  {
    FileNamesInterfere(config.root, a, file);
    IsolatedExactly(config, a, a + "/" + file);
  }
}
