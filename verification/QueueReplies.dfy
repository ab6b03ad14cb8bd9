/** What the queue answers to each operation, from any state, and what a refusal leaves. */
module QueueReplies {
  import opened Numbers
  import opened Directories
  import opened Framing
  import opened SegmentLog
  import opened TopicStore
  import opened QueueStore
  import opened QueueRuns

  // ---------- A closed queue ----------

  /** A closed queue refuses everything but a further Close, and stays as it is. */
  lemma {:induction false} ClosedQueueRefuses(config: Config, q: QueueState, ops: seq<QueueOp>)
    requires ValidQueue(config, q) && q.closed
    ensures var (end, replies) := Run(config, q, ops);
            && end == q
            && (forall i | 0 <= i < |ops| :: replies[i] == if ops[i].Close? then Done else Rejected(QueueClosed))
  {
    hide ValidQueue;
    if ops != [] {
      ClosedQueueRefuses(config, q, ops[..|ops| - 1]);
    }
  }

  // ---------- The offset of a consumer ----------

  /** An open topic has its directory on disk. */
  lemma OpenHasDirectory(config: Config, q: QueueState, name: string)
    requires ValidQueue(config, q) && name in q.topics
    ensures Home(config, name) in q.disks && SegmentExists(TopicAt(config, q, name).log)
  {
    hide Home;
    assert SegmentExists(TopicAt(config, q, name).log);
  }

  /** A step that only changes the topic's memory. */
  lemma OnlyMemoryMoves(config: Config, q: QueueState, name: string, st: TopicState)
    requires ValidQueue(config, q) && name in q.topics && OnDisk(st) == OnDisk(TopicAt(config, q, name))
    ensures Put(config, q, name, st) == q.(topics := q.topics[name := InMemory(st)])
  {
    hide Home;
    OpenHasDirectory(config, q, name);
    var home := Home(config, name);
    assert OnDisk(TopicAt(config, q, name)) == q.disks[home];
    assert q.disks[home := OnDisk(st)] == q.disks;
  }

  /** The reply to SetOffset from any state; a refusal changes nothing, and otherwise only that offset changes. */
  lemma SetOffsetReply(config: Config, q: QueueState, topic: string, consumer: string, offset: Int64)
    requires ValidQueue(config, q)
    ensures var (next, reply) := Step(config, q, SetOffset(topic, consumer, offset));
            && reply == (if q.closed then Rejected(QueueClosed)
                         else if topic !in q.topics then Rejected(NoSuchTopic)
                         else if q.topics[topic].closed then Rejected(FromTopic(TopicClosed))
                         else Done)
            && (reply != Done ==> next == q)
            && (reply == Done ==>
                  var m := q.topics[topic];
                  next == q.(topics := q.topics[topic := m.(consumers := m.consumers[consumer := offset],
                                                            catalogDirty := true)]))
  {
    hide Home, ValidQueue;
    if !q.closed && topic in q.topics {
      var st := TopicAt(config, q, topic);
      OnlyMemoryMoves(config, q, topic, SetOffsetStep(st, consumer, offset).0);
      assert q.topics[topic := q.topics[topic]] == q.topics;
    }
  }

  /** What a Dequeue of at most limit entries finds at an offset of a directory. */
  function Found(disk: Disk, offset: Int64, limit: nat): Reply {
    match ReadAll(disk.files, offset)
    case Err(e) => Rejected(FromTopic(ReadFailed(e)))
    case Ok(all) => Batch(if limit < |all| then all[..limit] else all)
  }

  /** The reply to Dequeue from any state; only a batch with something in it moves the consumer, to behind it. */
  lemma DequeueReply(config: Config, q: QueueState, topic: string, consumer: string, limit: nat)
    requires ValidQueue(config, q)
    ensures var (next, reply) := Step(config, q, Dequeue(topic, consumer, limit));
            && reply == (if q.closed then Rejected(QueueClosed)
                         else if topic !in q.topics then Rejected(NoSuchTopic)
                         else if q.topics[topic].closed then Rejected(FromTopic(TopicClosed))
                         else
                           var consumers := q.topics[topic].consumers;
                           var offset := if consumer in consumers then consumers[consumer] else 0;
                           Found(At(q.disks, Home(config, topic)), offset, limit))
            && (!reply.Batch? || reply.entries == [] ==> next == q)
            && (reply.Batch? && reply.entries != [] ==>
                  var m, last := q.topics[topic], reply.entries[|reply.entries| - 1];
                  var behind := Wrap64(last.offset + 12 + |last.data|);
                  next == q.(topics := q.topics[topic := m.(consumers := m.consumers[consumer := behind],
                                                            catalogDirty := true)]))
  {
    hide Home, ValidQueue, ReadAll, Wrap64;
    if !q.closed && topic in q.topics {
      var st := TopicAt(config, q, topic);
      OnlyMemoryMoves(config, q, topic, TopicStore.DequeueStep(st, consumer, limit).0);
      assert q.topics[topic := q.topics[topic]] == q.topics;
    }
  }

  // ---------- Opening ----------

  /** Where a directory was made, also one further down, nothing blocks the way. */
  lemma MadeIsNotBlocked(disks: map<Path, Disk>, home: Path)
    requires exists d | d in disks.Keys :: home <= d
    ensures !Blocked(disks, home)
  {
    var d :| d in disks.Keys && home <= d;
    forall dir | dir in disks.Keys && |dir| < |home| && dir <= home
      ensures !FileThere(disks, dir, home[|dir|])
    {
      assert dir + [home[|dir|]] <= d;
    }
  }

  /** The reply to Enqueue from any state; what is refused before a topic is opened changes nothing. */
  lemma EnqueueReply(config: Config, q: QueueState, topic: string, r: Record)
    requires ValidQueue(config, q)
    ensures var (next, reply) := Step(config, q, Enqueue(topic, r));
            && (reply.Accepted? <==>
                  && !q.closed
                  && (if topic in q.topics then !q.topics[topic].closed
                      else topic != "" && CanOpen(q.disks, Home(config, topic))))
            && (!reply.Accepted? ==>
                  reply == Rejected(if q.closed then QueueClosed
                                    else if topic in q.topics then FromTopic(TopicClosed)
                                    else if topic == "" then EmptyTopicName
                                    else CannotOpen))
            && (!reply.Accepted? && reply != Rejected(CannotOpen) ==> next == q)
  {
    hide Home, ValidQueue, AppendStep, Indexed, CanOpen, AfterOpening, Initialized;
    ReadyIsValid(config, q, topic);
    if topic in q.topics && q.topics[topic].closed {
      OnlyMemoryMoves(config, q, topic, TopicAt(config, q, topic));
      assert q.topics[topic := q.topics[topic]] == q.topics;
    } else if topic !in q.topics && CanOpen(q.disks, Home(config, topic)) {
      OpenedTopicIsOpen(config, q, topic);
    }
  }

  lemma OpenedTopicIsOpen(config: Config, q: QueueState, topic: string)
    ensures var st := Initialized(DiskAt(q, Home(config, topic)));
            TopicAt(config, Put(config, q, topic, st), topic) == st && !st.closed
  {
    hide Home;
    JoinedAgain(Initialized(DiskAt(q, Home(config, topic))));
  }

  /** The reply to Create from any state. */
  lemma CreateReply(config: Config, q: QueueState, topic: string)
    requires ValidQueue(config, q)
    ensures var (next, reply) := Step(config, q, Create(topic));
            && reply == (if q.closed then Rejected(QueueClosed)
                         else if topic in q.topics then Rejected(TopicExists)
                         else if topic == "" then Rejected(EmptyTopicName)
                         else if CanOpen(q.disks, Home(config, topic)) then Done
                         else Rejected(CannotOpen))
            && (reply != Done && reply != Rejected(CannotOpen) ==> next == q)
            && (reply == Done ==> next.topics.Keys == q.topics.Keys + {topic})
  {
    hide Home, ValidQueue, CanOpen, AfterOpening, Initialized;
  }

  /**
   * What a refused opening leaves: no topic is entered and no other directory touched; the topic's own is
   * made unless a file is in the way, and in it an empty first segment unless a directory stands there.
   */
  lemma RefusedOpeningLeaves(config: Config, q: QueueState, topic: string, op: QueueOp)
    requires ValidQueue(config, q) && (op == Create(topic) || exists r :: op == Enqueue(topic, r))
    requires Step(config, q, op).1 == Rejected(CannotOpen)
    ensures var next, home := Step(config, q, op).0, Home(config, topic);
            && next.topics == q.topics && next.closed == q.closed
            && (forall d | d != home :: d in next.disks <==> d in q.disks)
            && (forall d | d != home && d in q.disks :: next.disks[d] == q.disks[d])
            && (Blocked(q.disks, home) ==> next == q)
            && (!Blocked(q.disks, home) ==>
                  && home in next.disks
                  && next.disks[home].indexFile == At(q.disks, home).indexFile
                  && next.disks[home].catalogFile == At(q.disks, home).catalogFile
                  && next.disks[home].files
                       == if At(q.disks, home).files == map[] && !DirectoryThere(q.disks, home + [FIRST_SEGMENT])
                          then map[0 := []] else At(q.disks, home).files)
  {
    hide Home, ValidQueue, TopicStore.EnqueueStep, Blocked, NoIndexOrCatalog, Initialized, DirectoryThere;
    var home := Home(config, topic);
    EnqueueOpens(config, q, topic, op);
    OpeningKeepsSegments(At(q.disks, home).files);
    if Blocked(q.disks, home) {
      assert q.(disks := q.disks) == q;
    }
  }

  lemma EnqueueOpens(config: Config, q: QueueState, topic: string, op: QueueOp)
    requires ValidQueue(config, q) && (op == Create(topic) || exists r :: op == Enqueue(topic, r))
    requires Step(config, q, op).1 == Rejected(CannotOpen)
    ensures topic !in q.topics && !CanOpen(q.disks, Home(config, topic))
    ensures Step(config, q, op).0 == q.(disks := AfterOpening(q.disks, Home(config, topic)))
  {
    hide Home, ValidQueue, TopicStore.EnqueueStep, CanOpen, Initialized, AfterOpening;
    ReadyIsValid(config, q, topic);
  }

  lemma OpeningKeepsSegments(files: Files)
    ensures Opened(files).files == if files == map[] then map[0 := []] else files
  {
    OpenedIsValid(files);
  }

  // ---------- Sync and Close ----------

  /** The topic's snapshot is to be written and cannot be. */
  predicate Stuck(config: Config, q: QueueState, name: string) {
    name in q.topics && q.topics[name].catalogDirty && !Writable(q.disks, Home(config, name))
  }

  predicate Unopen(q: QueueState, name: string) {
    name in q.topics && q.topics[name].closed
  }

  /** Writing other topics out changes neither this one's memory nor which directories there are. */
  lemma {:induction false} SyncAllElsewhere(config: Config, q: QueueState, order: seq<string>, name: string)
    requires ValidQueue(config, q) && name !in order
    ensures var s, c := SyncAll(config, q, order), CloseAll(config, q, order);
            && s.disks.Keys == c.disks.Keys == q.disks.Keys
            && s.topics.Keys == c.topics.Keys == q.topics.Keys
            && (name in q.topics ==> s.topics[name] == c.topics[name] == q.topics[name])
  {
    hide Home, ValidQueue, SyncStep, CloseStep, Writable;
    if order != [] {
      var front, last := order[..|order| - 1], order[|order| - 1];
      SyncAllElsewhere(config, q, front, name);
      SyncAllKeepsValid(config, q, front);
      CloseAllKeepsValid(config, q, front);
      if last in q.topics {
        OpenHasDirectory(config, SyncAll(config, q, front), last);
        OpenHasDirectory(config, CloseAll(config, q, front), last);
      }
    }
  }

  lemma SameWritable(config: Config, p: QueueState, q: QueueState, name: string)
    requires p.disks.Keys == q.disks.Keys
    ensures Writable(p.disks, Home(config, name)) == Writable(q.disks, Home(config, name))
  {
    hide Home;
  }

  /** Which topics fail does not depend on the order, nor on the topics that share their directories. */
  lemma {:induction false} FailuresAreStuck(config: Config, q: QueueState, order: seq<string>)
    requires ValidQueue(config, q) && forall i, j | 0 <= i < j < |order| :: order[i] != order[j]
    ensures forall n :: n in SyncFailures(config, q, order) <==>
              n in order && (Stuck(config, q, n) || Unopen(q, n))
    ensures forall n :: n in CloseFailures(config, q, order) <==>
              n in order && Stuck(config, q, n) && !Unopen(q, n)
  {
    if order != [] {
      var front, last := order[..|order| - 1], order[|order| - 1];
      FailuresAreStuck(config, q, front);
      SyncAllElsewhere(config, q, front, last);
      var s, c := SyncAll(config, q, front), CloseAll(config, q, front);
      SameWritable(config, s, q, last);
      SameWritable(config, c, q, last);
      FailsExactly(config, s, last);
      FailsExactly(config, c, last);
      hide Home, ValidQueue, FailsToSync, FailsToClose, Writable, SyncAll, CloseAll;
      assert order == front + [last];
    }
  }

  lemma FailsExactly(config: Config, q: QueueState, name: string)
    ensures FailsToSync(config, q, name) <==> Stuck(config, q, name) || Unopen(q, name)
    ensures FailsToClose(config, q, name) <==> Stuck(config, q, name) && !Unopen(q, name)
  {
    hide Home, Writable;
  }

  /**
   * Sync of an open queue says Done if and only if every topic is open and can be written out, and
   * otherwise names exactly the topics that are not or cannot; so does Close, which passes over
   * topics that are closed already.
   */
  lemma SweepReplies(config: Config, q: QueueState, order: seq<string>)
    requires ValidQueue(config, q) && !q.closed && Lists(order, q.topics.Keys)
    ensures var reply := Step(config, q, QueueOp.Sync(order)).1;
            && (reply == Done <==> forall n | n in q.topics :: !Stuck(config, q, n) && !Unopen(q, n))
            && (reply != Done ==>
                  && reply.Rejected? && reply.error.Unsaved?
                  && forall n :: n in reply.error.topics <==>
                       n in q.topics && (Stuck(config, q, n) || Unopen(q, n)))
    ensures var reply := Step(config, q, QueueOp.Close(order)).1;
            && (reply == Done <==> forall n | n in q.topics :: !Stuck(config, q, n) || Unopen(q, n))
            && (reply != Done ==>
                  && reply.Rejected? && reply.error.Unsaved?
                  && forall n :: n in reply.error.topics <==>
                       n in q.topics && Stuck(config, q, n) && !Unopen(q, n))
  {
    hide Home, ValidQueue, SyncFailures, CloseFailures, SyncAll, CloseAll, Stuck, Unopen;
    FailuresAreStuck(config, q, order);
    var s, c := SyncFailures(config, q, order), CloseFailures(config, q, order);
    assert s != [] ==> s[0] in s;
    assert c != [] ==> c[0] in c;
  }

  /** A topic's memory after it was written out, or after it was closed. */
  function Swept(config: Config, q: QueueState, name: string, closes: bool): TopicMemory
    requires name in q.topics
  {
    var m := q.topics[name];
    if m.closed then m
    else m.(indexDirty := false, catalogDirty := Stuck(config, q, name), closed := closes)
  }

  /** Sync and Close reach every topic; only a snapshot that cannot be written stays to be written. */
  lemma {:induction false} SweepsReachAll(config: Config, q: QueueState, order: seq<string>, name: string)
    requires ValidQueue(config, q) && forall i, j | 0 <= i < j < |order| :: order[i] != order[j]
    requires name in order && name in q.topics
    ensures var s, c := SyncAll(config, q, order), CloseAll(config, q, order);
            && name in s.topics && s.topics[name] == Swept(config, q, name, false)
            && name in c.topics && c.topics[name] == Swept(config, q, name, true)
            && s.disks.Keys == c.disks.Keys == q.disks.Keys
  {
    hide Home, ValidQueue, Swept, SyncOne, CloseOne;
    var front, last := order[..|order| - 1], order[|order| - 1];
    assert order == front + [last];
    var s, c := SyncAll(config, q, front), CloseAll(config, q, front);
    SyncAllKeepsValid(config, q, front);
    CloseAllKeepsValid(config, q, front);
    SweepOne(config, s, last);
    SweepOne(config, c, last);
    if name == last {
      SyncAllElsewhere(config, q, front, name);
      SameSwept(config, s, q, name);
      SameSwept(config, c, q, name);
    } else {
      SweepsReachAll(config, q, front, name);
    }
  }

  lemma SweepOne(config: Config, q: QueueState, last: string)
    requires ValidQueue(config, q)
    ensures var s, c := SyncOne(config, q, last), CloseOne(config, q, last);
            && s.disks.Keys == c.disks.Keys == q.disks.Keys
            && (last in q.topics ==>
                  && s.topics == q.topics[last := Swept(config, q, last, false)]
                  && c.topics == q.topics[last := Swept(config, q, last, true)])
            && (last !in q.topics ==> s.topics == c.topics == q.topics)
  {
    hide Home, ValidQueue, Writable;
    if last in q.topics {
      OpenHasDirectory(config, q, last);
    }
  }

  lemma SameSwept(config: Config, p: QueueState, q: QueueState, name: string)
    requires p.disks.Keys == q.disks.Keys && name in p.topics && name in q.topics && p.topics[name] == q.topics[name]
    ensures forall closes :: Swept(config, p, name, closes) == Swept(config, q, name, closes)
  {
    SameWritable(config, p, q, name);
    hide Home, Writable;
  }

  /** After a Close the queue and every topic of it are closed. */
  lemma CloseClosesAll(config: Config, q: QueueState, order: seq<string>)
    requires ValidQueue(config, q) && !q.closed && Lists(order, q.topics.Keys)
    ensures var next := Step(config, q, QueueOp.Close(order)).0;
            next.closed && next.topics.Keys == q.topics.Keys && forall n | n in next.topics :: next.topics[n].closed
  {
    hide Home, ValidQueue, CloseAll, CloseFailures, Stuck;
    CloseAllKeepsValid(config, q, order);
    forall n | n in q.topics
      ensures n in CloseAll(config, q, order).topics && CloseAll(config, q, order).topics[n].closed
    {
      SweepsReachAll(config, q, order, n);
    }
  }

  /** In particular when each topic is alone on its directory and open. */
  lemma HealthyQueueIsSaved(config: Config, q: QueueState, order: seq<string>)
    requires ValidQueue(config, q) && !q.closed && Lists(order, q.topics.Keys)
    requires forall n | n in q.topics :: Alone(config, q, n) && !q.topics[n].closed
    ensures Step(config, q, QueueOp.Sync(order)).1 == Done && Step(config, q, QueueOp.Close(order)).1 == Done
  {
    forall n | n in q.topics
      ensures !Stuck(config, q, n) && !Unopen(q, n)
    {
      assert Alone(config, q, n);
      hide Home, Writable, Clear;
      ClearDirectoryServes(q.disks, Home(config, n));
    }
    hide Home, ValidQueue, Stuck, Unopen, Step, Alone;
    SweepReplies(config, q, order);
  }
}
