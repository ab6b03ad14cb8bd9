/** What a consumer's channel carries of its topic: with commits, without them, and across a hand-over. */
module ConsumerStreams {
  import opened Numbers
  import opened Results
  import opened Offsets
  import opened Directories
  import opened Framing
  import opened SegmentLog
  import opened SegmentReads
  import opened CatalogStore
  import opened TopicStore
  import opened QueueStore
  import opened ConsumerStore
  import opened ConsumerRuns
  import QueueRuns
  import QueueRestarts
  import TopicRuns

  // ---------- The topic beside its other users ----------

  /** Nobody else uses this consumer's name on its topic, or opens a topic that gets in its topic's way. */
  predicate LeavesAlone(config: Config, topic: string, id: string, op: ConsumerOp) {
    op.Others? ==>
      && !QueueRuns.Intrudes(config, topic, op.op)
      && !((op.op.Dequeue? || op.op.SetOffset?) && op.op.topic == topic && op.op.consumer == id)
  }

  /** The consumer does not seek, and is left alone. */
  ghost predicate Undisturbed(config: Config, topic: string, id: string, ops: seq<ConsumerOp>) {
    forall i | 0 <= i < |ops| :: !ops[i].Seek? && LeavesAlone(config, topic, id, ops[i])
  }

  /** The consumer's topic is open, alone on its directory and in step with its snapshot, and holds exactly rs. */
  ghost predicate TopicHolds(config: Config, w: World, rs: seq<Record>) {
    var q, topic := w.queue, w.consumer.topic;
    && !q.closed
    && topic in q.topics && !q.topics[topic].closed
    && QueueRuns.Alone(config, q, topic)
    && TopicRuns.HoldsRecords(TopicAt(config, q, topic), rs)
    && ValidCatalog(TopicAt(config, q, topic).catalog)
  }

  function CatalogOffset(w: World): Int64
    requires w.consumer.topic in w.queue.topics
  {
    OffsetOf(w.queue.topics[w.consumer.topic].consumers, w.consumer.id)
  }

  /** The records that others' operations append to a topic. */
  function AddedBy(topic: string, op: ConsumerOp): seq<Record> {
    if op.Others? && op.op.Enqueue? && op.op.topic == topic then [op.op.record] else []
  }

  function Added(topic: string, ops: seq<ConsumerOp>): seq<Record> {
    if ops == [] then [] else Added(topic, ops[..|ops| - 1]) + AddedBy(topic, ops[|ops| - 1])
  }

  /** The topic has moved on to st, and nothing else that the consumer can see. */
  lemma PutHolds(config: Config, w: World, rs: seq<Record>, st: TopicState)
    requires TopicRuns.HoldsRecords(st, rs) && ValidCatalog(st.catalog) && !st.closed && !w.queue.closed
    requires QueueRuns.Alone(config, w.queue, w.consumer.topic)
    ensures var next := World(Put(config, w.queue, w.consumer.topic, st), w.consumer);
            TopicHolds(config, next, rs) && CatalogOffset(next) == OffsetOf(st.catalog.consumers, w.consumer.id)
  {
    hide Home, TopicRuns.HoldsRecords, ValidCatalog;
    TopicRuns.WhatIsHeld(st, rs);
    JoinedAgain(st);
    hide QueueRuns.Clear, Stream;
    QueueRuns.PutKeepsAlone(config, w.queue, w.consumer.topic, st, w.consumer.topic);
  }

  /** What other users do to the consumer's topic while they leave its name alone and do not close the queue. */
  lemma OthersStep(config: Config, w: World, rs: seq<Record>, op: ConsumerOp)
    requires ValidQueue(config, w.queue) && TopicHolds(config, w, rs)
    requires op.Others? && LeavesAlone(config, w.consumer.topic, w.consumer.id, op) && !op.op.Close?
    ensures TopicHolds(config, Step(config, w, op), rs + AddedBy(w.consumer.topic, op))
    ensures CatalogOffset(Step(config, w, op)) == CatalogOffset(w)
  {
    var topic := w.consumer.topic;
    assert rs + [] == rs;
    if !QueueRuns.Touches(topic, op.op) {
      OtherTopicStep(config, w, rs, op);
    } else if op.op.Sync? {
      SyncStepHolds(config, w, rs, op.op.order);
    } else {
      SameTopicStep(config, w, rs, op);
    }
  }

  /** What is seen from the topic is all that matters here. */
  lemma SeenHolds(config: Config, w: World, rs: seq<Record>, next: QueueState, st: TopicState)
    requires TopicHolds(config, w, rs) && next.closed == w.queue.closed && w.consumer.topic in next.topics
    requires QueueRuns.View(config, next, w.consumer.topic) == st && QueueRuns.Alone(config, next, w.consumer.topic)
    requires TopicRuns.HoldsRecords(st, rs) && ValidCatalog(st.catalog) && !st.closed
    ensures TopicHolds(config, World(next, w.consumer), rs)
    ensures CatalogOffset(World(next, w.consumer)) == OffsetOf(st.catalog.consumers, w.consumer.id)
  {
    hide Home, TopicRuns.HoldsRecords, QueueRuns.Alone;
  }

  lemma OtherTopicStep(config: Config, w: World, rs: seq<Record>, op: ConsumerOp)
    requires ValidQueue(config, w.queue) && TopicHolds(config, w, rs)
    requires op.Others? && LeavesAlone(config, w.consumer.topic, w.consumer.id, op)
    requires !QueueRuns.Touches(w.consumer.topic, op.op)
    ensures TopicHolds(config, Step(config, w, op), rs) && CatalogOffset(Step(config, w, op)) == CatalogOffset(w)
  {
    hide Home, TopicRuns.HoldsRecords, QueueRuns.Alone, QueueRuns.Step, ValidQueue;
    var topic := w.consumer.topic;
    QueueRuns.OtherTopicUnseen(config, w.queue, topic, op.op);
    SeenHolds(config, w, rs, Step(config, w, op).queue, TopicAt(config, w.queue, topic));
  }

  lemma SyncStepHolds(config: Config, w: World, rs: seq<Record>, order: seq<string>)
    requires ValidQueue(config, w.queue) && TopicHolds(config, w, rs)
    ensures var next := Step(config, w, Others(QueueRuns.Sync(order)));
            TopicHolds(config, next, rs) && CatalogOffset(next) == CatalogOffset(w)
  {
    hide Home, TopicRuns.HoldsRecords, QueueRuns.Alone, ValidQueue, SyncAll, SyncFailures;
    var topic := w.consumer.topic;
    var st := TopicAt(config, w.queue, topic);
    QueueRuns.SyncAllSeen(config, w.queue, order, topic);
    SyncKeepsRecords(st, rs);
    var next := SyncAll(config, w.queue, order);
    SeenHolds(config, w, rs, next, QueueRuns.View(config, next, topic));
  }

  lemma SameTopicStep(config: Config, w: World, rs: seq<Record>, op: ConsumerOp)
    requires ValidQueue(config, w.queue) && TopicHolds(config, w, rs)
    requires op.Others? && LeavesAlone(config, w.consumer.topic, w.consumer.id, op)
    requires !op.op.Sync? && !op.op.Close? && op.op.topic == w.consumer.topic
    ensures TopicHolds(config, Step(config, w, op), rs + AddedBy(w.consumer.topic, op))
    ensures CatalogOffset(Step(config, w, op)) == CatalogOffset(w)
  {
    hide Home, TopicStore.EnqueueStep, TopicStore.DequeueStep, SetOffsetStep, TopicRuns.HoldsRecords, ValidQueue,
         QueueRuns.Alone, Put, CanOpen, AfterOpening, Initialized;
    var st := TopicAt(config, w.queue, w.consumer.topic);
    assert rs + [] == rs;
    match op.op
    case Enqueue(_, r) =>
      TopicRuns.EnqueueHoldsOneMore(config, st, rs, r);
      TopicRuns.EnqueueReply(config, st, r);
      PutHolds(config, w, rs + [r], TopicStore.EnqueueStep(config, st, r).0);
    case Dequeue(_, c, n) =>
      TopicRuns.DequeueFrame(st, c, n);
      DequeueKeepsRecords(st, rs, c, n);
      PutHolds(config, w, rs, TopicStore.DequeueStep(st, c, n).0);
    case SetOffset(_, c, o) =>
      SetOffsetKeepsRecords(st, rs, c, o);
      PutHolds(config, w, rs, SetOffsetStep(st, c, o).0);
    case Create(_) =>
  }

  lemma SyncKeepsRecords(st: TopicState, rs: seq<Record>)
    requires TopicRuns.HoldsRecords(st, rs) && ValidCatalog(st.catalog)
    ensures TopicRuns.HoldsRecords(SyncStep(st).0, rs) && ValidCatalog(SyncStep(st).0.catalog)
    ensures SyncStep(st).0.catalog.consumers == st.catalog.consumers && SyncStep(st).0.closed == st.closed
  {
  }

  lemma DequeueKeepsRecords(st: TopicState, rs: seq<Record>, consumer: string, limit: nat)
    requires TopicRuns.HoldsRecords(st, rs) && ValidCatalog(st.catalog)
    ensures var next := TopicStore.DequeueStep(st, consumer, limit).0;
            TopicRuns.HoldsRecords(next, rs) && ValidCatalog(next.catalog)
  {
    hide ReadAll, NextOffset, Stream, Start;
  }

  lemma SetOffsetKeepsRecords(st: TopicState, rs: seq<Record>, consumer: string, offset: Int64)
    requires TopicRuns.HoldsRecords(st, rs) && ValidCatalog(st.catalog)
    ensures var next := TopicStore.SetOffsetStep(st, consumer, offset).0;
            && TopicRuns.HoldsRecords(next, rs) && next.closed == st.closed && ValidCatalog(next.catalog)
            && (!st.closed ==> OffsetOf(next.catalog.consumers, consumer) == offset)
            && (forall other | other != consumer ::
                  OffsetOf(next.catalog.consumers, other) == OffsetOf(st.catalog.consumers, other))
  {
  }

  lemma RecordsGrow(rs: seq<Record>, more: seq<Record>)
    ensures Start(rs, |rs|) <= Start(rs + more, |rs + more|)
    ensures Entries(0, rs + more)[..|rs|] == Entries(0, rs)
    ensures forall i | 0 <= i <= |rs| :: Start(rs + more, i) == Start(rs, i)
  {
    hide Start, Pack;
    assert (rs + more)[..|rs|] == rs;
    forall i | 0 <= i <= |rs|
      ensures Start(rs + more, i) == Start(rs, i)
    {
      StartOfPrefix(rs + more, |rs|, i);
    }
    StartIncreases(rs + more, |rs|, |rs + more|);
  }

  lemma TopicIsHeld(config: Config, w: World, rs: seq<Record>)
    requires TopicHolds(config, w, rs)
    ensures w.consumer.topic in w.queue.topics
  {
  }

  // ---------- Where the consumer and its catalog stand ----------

  /**
   * The consumer was last sent record p and its catalog stands before record e, not earlier; the topic
   * holds rs, unless the queue is closed.
   */
  ghost predicate Trails(config: Config, w: World, rs: seq<Record>, p: nat, e: nat) {
    && w.consumer.topic in w.queue.topics
    && p <= e <= |rs|
    && w.consumer.offset == Start(rs, p)
    && CatalogOffset(w) == Start(rs, e)
    && (w.queue.closed || TopicHolds(config, w, rs))
  }

  /** The record before which a poll at record p stops reading. */
  function PollEnd(rs: seq<Record>, p: nat): (end: nat)
    requires p <= |rs|
    ensures p <= end <= |rs|
  {
    if p + POLL_LIMIT < |rs| then p + POLL_LIMIT else |rs|
  }

  /** In segment 0 an entry's offset is the byte at which its record begins. */
  lemma OffsetInLog(rs: seq<Record>, i: nat)
    requires i < |rs| && Start(rs, |rs|) < TWO_63
    ensures Start(rs, i) < Start(rs, |rs|) && Entries(0, rs)[i].offset == Start(rs, i)
  {
    hide Start, Pack;
    StartIncreases(rs, i, |rs|);
    FirstSegmentIsPlain(Start(rs, i));
  }

  /** n entries from index lo on. */
  function Slice(es: seq<LogEntry>, lo: nat, n: nat): (s: seq<LogEntry>)
    ensures n == 0 ==> s == []
  {
    if lo + n <= |es| then es[lo..lo + n] else []
  }

  /** The first record a poll may send: those up to the last delivered one are skipped. */
  function FirstNew(p: nat, e: nat): nat {
    if e == p then p + 1 else e
  }

  /** How many records a poll reads that are new to the consumer. */
  function NewCount(rs: seq<Record>, p: nat, e: nat): nat
    requires p <= e <= |rs|
  {
    var first, end := FirstNew(p, e), PollEnd(rs, e);
    if end <= first then 0 else end - first
  }

  lemma NewerOfNone(floor: Int64)
    ensures Newer(floor, []) == []
  {
  }

  lemma {:induction false} NewerKeepsAll(floor: Int64, es: seq<LogEntry>)
    requires forall i | 0 <= i < |es| :: es[i].offset > floor
    ensures Newer(floor, es) == es
  {
    if es != [] {
      NewerKeepsAll(floor, es[1..]);
    }
  }

  lemma NewerSkipsFirst(floor: Int64, e: LogEntry, es: seq<LogEntry>)
    requires e.offset <= floor && forall i | 0 <= i < |es| :: es[i].offset > floor
    ensures Newer(floor, [e] + es) == es
  {
    NewerKeepsAll(floor, es);
    assert ([e] + es)[1..] == es;
  }

  /** The new messages of a batch that begins at the catalog's record are those from FirstNew on. */
  lemma NewerInLog(rs: seq<Record>, p: nat, e: nat)
    requires p <= e <= |rs| && Start(rs, |rs|) < TWO_32
    ensures Start(rs, p) < TWO_32
    ensures Newer(Start(rs, p), Entries(0, rs)[e..PollEnd(rs, e)])
         == Slice(Entries(0, rs), FirstNew(p, e), NewCount(rs, p, e))
  {
    hide Start, Pack, Newer, PollEnd;
    StartIncreases(rs, p, |rs|);
    var floor, es, end := Start(rs, p), Entries(0, rs), PollEnd(rs, e);
    forall i | e <= i < end
      ensures es[i].offset == Start(rs, i) && (i > p ==> es[i].offset > floor)
    {
      OffsetInLog(rs, i);
      StartIsInjective(rs, p, i);
    }
    if e == end {
      assert es[e..end] == [];
      NewerOfNone(floor);
    } else if e == p {
      assert es[e..end] == [es[e]] + es[e + 1..end];
      NewerSkipsFirst(floor, es[e], es[e + 1..end]);
    } else {
      NewerKeepsAll(floor, es[e..end]);
    }
  }

  /** What one poll does, wherever the catalog stands: it sends the new records as far as the channel has room. */
  lemma PollFrom(config: Config, w: World, rs: seq<Record>, p: nat, e: nat)
    requires Trails(config, w, rs, p, e) && !w.queue.closed && Start(rs, |rs|) < TWO_32
    ensures var (q, c, result) := PollStep(config, w.queue, w.consumer);
            && result.Ok?
            && TopicHolds(config, World(q, c), rs)
            && CatalogOffset(World(q, c)) == Start(rs, PollEnd(rs, e))
            && c == AfterSending(w.consumer, Slice(Entries(0, rs), FirstNew(p, e),
                                                   Room(w.consumer, NewCount(rs, p, e))))
    ensures PollNews(config, w) == Some(NewCount(rs, p, e))
  {
    hide Home, Start, Deliver, TopicStore.DequeueStep, TopicRuns.HoldsRecords, Entries, Put, QueueRuns.Alone, Newer,
         FirstNew, NewCount, PollEnd, AfterSending;
    var c := w.consumer;
    var st := TopicAt(config, w.queue, c.topic);
    TopicRuns.WhatIsHeld(st, rs);
    TopicRuns.DequeueAt(st, rs, c.id, POLL_LIMIT, e);
    PollEndIs(rs, e);
    DequeueKeepsRecords(st, rs, c.id, POLL_LIMIT);
    PutHolds(config, w, rs, TopicStore.DequeueStep(st, c.id, POLL_LIMIT).0);
    NewerInLog(rs, p, e);
    var batch := Entries(0, rs)[e..PollEnd(rs, e)];
    DeliverSendsNewer(c, c.offset, batch);
    RoomBelow(c, NewCount(rs, p, e));
    SliceFront(rs, p, e, Room(c, NewCount(rs, p, e)));
    DeliverKeepsName(c, c.offset, batch);
  }

  lemma PollEndIs(rs: seq<Record>, e: nat)
    requires e <= |rs|
    ensures PollEnd(rs, e) == if e + POLL_LIMIT < |rs| then e + POLL_LIMIT else |rs|
  {
  }

  lemma SliceFront(rs: seq<Record>, p: nat, e: nat, n: nat)
    requires p <= e <= |rs| && n <= NewCount(rs, p, e)
    ensures var news := Slice(Entries(0, rs), FirstNew(p, e), NewCount(rs, p, e));
            && |news| == NewCount(rs, p, e)
            && news[..n] == Slice(Entries(0, rs), FirstNew(p, e), n)
            && |news[..n]| == n
            && (n > 0 ==> news[..n][n - 1] == Entries(0, rs)[FirstNew(p, e) + n - 1])
            && FirstNew(p, e) + n <= if n == 0 then FirstNew(p, e) else PollEnd(rs, e)
  {
    hide Entries;
  }

  /** How many new messages a poll finds; None when it is refused. */
  function PollNews(config: Config, w: World): Option<nat> {
    match QueueDequeue(config, w.queue, w.consumer.topic, w.consumer.id, POLL_LIMIT).1
    case Err(_) => None
    case Ok(batch) => Some(|Newer(w.consumer.offset, batch)|)
  }

  /** A poll now would have room in the channel for everything new that it reads. */
  predicate HasRoom(config: Config, w: World) {
    var news := PollNews(config, w);
    news.Some? ==> Room(w.consumer, news.value) == news.value
  }

  /** A poll now would send something. */
  predicate Sends(config: Config, w: World) {
    var news := PollNews(config, w);
    news.Some? && Room(w.consumer, news.value) > 0
  }

  lemma {:induction false} NewerIsShorter(floor: Int64, batch: seq<LogEntry>)
    ensures |Newer(floor, batch)| <= |batch|
  {
    if batch != [] {
      NewerIsShorter(floor, batch[1..]);
    }
  }

  /** Room for ten messages is always room enough. */
  lemma RoomForTen(config: Config, w: World)
    requires w.consumer.buffered + POLL_LIMIT <= CHANNEL_CAPACITY
    ensures HasRoom(config, w)
  {
    hide ReadAll, NextOffset, Home;
    var result := QueueDequeue(config, w.queue, w.consumer.topic, w.consumer.id, POLL_LIMIT).1;
    if result.Ok? {
      NewerIsShorter(w.consumer.offset, result.value);
    }
  }

  /** After n of the new records were sent, where the consumer stands. */
  function LastSent(p: nat, e: nat, n: nat): nat {
    if n == 0 then p else FirstNew(p, e) + n - 1
  }

  lemma PollTrails(config: Config, w: World, rs: seq<Record>, p: nat, e: nat)
    requires ValidQueue(config, w.queue) && Trails(config, w, rs, p, e) && !w.queue.closed && Start(rs, |rs|) < TWO_32
    ensures var n := Room(w.consumer, NewCount(rs, p, e));
            && LastSent(p, e, n) <= PollEnd(rs, e)
            && Trails(config, Step(config, w, Poll), rs, LastSent(p, e, n), PollEnd(rs, e))
            && Step(config, w, Poll).consumer.sent == w.consumer.sent + Slice(Entries(0, rs), FirstNew(p, e), n)
            && |Slice(Entries(0, rs), FirstNew(p, e), n)| == n
            && !Step(config, w, Poll).queue.closed
            && KeepsName(w, Step(config, w, Poll))
  {
    hide Home, Start, TopicHolds, Entries, PollStep, ValidQueue, PollNews;
    PollFrom(config, w, rs, p, e);
    var n := Room(w.consumer, NewCount(rs, p, e));
    RoomBelow(w.consumer, NewCount(rs, p, e));
    SliceFront(rs, p, e, n);
    var (q, c, _) := PollStep(config, w.queue, w.consumer);
    TopicIsHeld(config, World(q, c), rs);
    StaysOpen(config, World(q, c), rs);
    if n > 0 {
      OffsetInLog(rs, FirstNew(p, e) + n - 1);
    }
  }

  lemma StaysOpen(config: Config, w: World, rs: seq<Record>)
    requires TopicHolds(config, w, rs)
    ensures !w.queue.closed
  {
  }

  predicate KeepsName(w: World, next: World) {
    next.consumer.topic == w.consumer.topic && next.consumer.id == w.consumer.id
  }

  /** On a full log, or a closed queue, a poll is refused and nothing moves. */
  lemma RefusedPollTrails(config: Config, w: World, rs: seq<Record>, p: nat, e: nat)
    requires ValidQueue(config, w.queue) && Trails(config, w, rs, p, e)
    requires w.queue.closed || Start(rs, |rs|) >= TWO_32
    ensures Trails(config, Step(config, w, Poll), rs, p, e)
    ensures Step(config, w, Poll).consumer == w.consumer && Step(config, w, Poll).queue.closed == w.queue.closed
    ensures PollNews(config, w) == None
  {
    if w.queue.closed {
      hide TopicHolds, Deliver, ValidQueue, Start;
    } else {
      hide Home, Start, Deliver, TopicStore.DequeueStep, TopicRuns.HoldsRecords, Put, QueueRuns.Alone, ValidQueue;
      var st := TopicAt(config, w.queue, w.consumer.topic);
      TopicRuns.FullTopicRejects(st, rs, w.consumer.id, POLL_LIMIT);
      PutHolds(config, w, rs, st);
    }
  }

  /** A commit brings the catalog back to the last delivered record. */
  lemma CommitTrails(config: Config, w: World, rs: seq<Record>, p: nat, e: nat)
    requires ValidQueue(config, w.queue) && Trails(config, w, rs, p, e)
    ensures Trails(config, Step(config, w, Commit), rs, p, if w.queue.closed then e else p)
    ensures Step(config, w, Commit).consumer == w.consumer && Step(config, w, Commit).queue.closed == w.queue.closed
    ensures CommitStep(config, w.queue, w.consumer).1.Ok? <==> !w.queue.closed
  {
    if w.queue.closed {
      hide TopicHolds, ValidQueue, Start;
    } else {
      hide Home, Start, TopicRuns.HoldsRecords, ValidQueue, Put, SetOffsetStep, QueueRuns.Alone;
      var st := TopicAt(config, w.queue, w.consumer.topic);
      SetOffsetKeepsRecords(st, rs, w.consumer.id, w.consumer.offset);
      SetOffsetAccepted(st, w.consumer.id, w.consumer.offset);
      PutHolds(config, w, rs, SetOffsetStep(st, w.consumer.id, w.consumer.offset).0);
    }
  }

  lemma SetOffsetAccepted(st: TopicState, consumer: string, offset: Int64)
    requires !st.closed
    ensures SetOffsetStep(st, consumer, offset).1.Ok?
  {
  }

  /** Closing the queue moves nothing. */
  lemma CloseTrails(config: Config, w: World, rs: seq<Record>, p: nat, e: nat, order: seq<string>)
    requires ValidQueue(config, w.queue) && Trails(config, w, rs, p, e)
    ensures Trails(config, Step(config, w, Others(QueueRuns.Close(order))), rs, p, e)
  {
    hide TopicHolds, ValidQueue, Start, QueueRuns.Step, QueueRuns.Alone;
    if w.queue.closed {
      ClosedQueueStands(config, w.queue, QueueRuns.Close(order));
    } else {
      HeldIsAlone(config, w, rs);
      ClosingKeepsConsumers(config, w.queue, w.consumer.topic, order);
    }
  }

  lemma HeldIsAlone(config: Config, w: World, rs: seq<Record>)
    requires TopicHolds(config, w, rs)
    ensures QueueRuns.Alone(config, w.queue, w.consumer.topic)
  {
    hide QueueRuns.Alone;
  }

  lemma ClosingKeepsConsumers(config: Config, q: QueueState, topic: string, order: seq<string>)
    requires ValidQueue(config, q) && QueueRuns.Alone(config, q, topic) && !q.closed && topic in q.topics
    ensures var next := QueueRuns.Step(config, q, QueueRuns.Close(order)).0;
            next.closed && topic in next.topics && next.topics[topic].consumers == q.topics[topic].consumers
  {
    hide Home, QueueRuns.Alone, QueueRuns.View, ValidQueue, CloseAll, CloseFailures, TopicAt;
    QueueRuns.CloseAllSeen(config, q, order, topic);
    QueueRuns.ClosedQueueSeen(config, CloseAll(config, q, order), topic);
    ConsumersSeen(config, q, topic);
    ConsumersSeen(config, QueueClose(config, q, order).0, topic);
  }

  lemma ConsumersSeen(config: Config, q: QueueState, topic: string)
    requires topic in q.topics
    ensures QueueRuns.View(config, q, topic).catalog.consumers == q.topics[topic].consumers
  {
    hide Home;
  }

  lemma OthersTrail(config: Config, w: World, rs: seq<Record>, p: nat, e: nat, op: ConsumerOp)
    requires ValidQueue(config, w.queue) && Trails(config, w, rs, p, e)
    requires op.Others? && LeavesAlone(config, w.consumer.topic, w.consumer.id, op)
    ensures Trails(config, Step(config, w, op), rs + AddedBy(w.consumer.topic, op), p, e)
  {
    hide TopicHolds, ValidQueue, Start, LeavesAlone, Trails, Step, CatalogOffset, QueueRuns.Step;
    TrailBounds(config, w, rs, p, e);
    OthersKeepConsumer(config, w, op);
    if op.op.Close? {
      CloseTrails(config, w, rs, p, e, op.op.order);
      assert rs + [] == rs;
    } else if w.queue.closed {
      ClosedQueueStands(config, w.queue, op.op);
      TrailGrows(config, w, Step(config, w, op), rs, AddedBy(w.consumer.topic, op), p, e);
    } else {
      LiveTrailHolds(config, w, rs, p, e);
      OthersStep(config, w, rs, op);
      TopicIsHeld(config, Step(config, w, op), rs + AddedBy(w.consumer.topic, op));
      TrailGrows(config, w, Step(config, w, op), rs, AddedBy(w.consumer.topic, op), p, e);
    }
  }

  lemma LiveTrailHolds(config: Config, w: World, rs: seq<Record>, p: nat, e: nat)
    requires Trails(config, w, rs, p, e) && !w.queue.closed
    ensures TopicHolds(config, w, rs)
  {
    hide TopicHolds, Start, CatalogOffset;
  }

  lemma OthersKeepConsumer(config: Config, w: World, op: ConsumerOp)
    requires ValidQueue(config, w.queue) && op.Others?
    ensures Step(config, w, op) == World(QueueRuns.Step(config, w.queue, op.op).0, w.consumer)
  {
    hide QueueRuns.Step, ValidQueue;
  }

  lemma TrailGrows(config: Config, w: World, next: World, rs: seq<Record>, more: seq<Record>, p: nat, e: nat)
    requires Trails(config, w, rs, p, e) && next.consumer == w.consumer
    requires next.queue.closed || TopicHolds(config, next, rs + more)
    requires next.consumer.topic in next.queue.topics && CatalogOffset(next) == CatalogOffset(w)
    ensures Trails(config, next, rs + more, p, e)
  {
    RecordsGrow(rs, more);
    hide TopicHolds, Start, CatalogOffset;
  }

  /** A closed queue is not changed by anything. */
  lemma ClosedQueueStands(config: Config, q: QueueState, op: QueueRuns.QueueOp)
    requires ValidQueue(config, q) && q.closed
    ensures QueueRuns.Step(config, q, op).0 == q
  {
    hide ValidQueue, Home;
  }

  lemma ReceiveTrails(config: Config, w: World, rs: seq<Record>, p: nat, e: nat)
    requires ValidQueue(config, w.queue) && Trails(config, w, rs, p, e)
    ensures Trails(config, Step(config, w, Receive), rs, p, e)
    ensures KeepsName(w, Step(config, w, Receive)) && Step(config, w, Receive).queue == w.queue
  {
    hide Start, TopicAt, TopicRuns.HoldsRecords, QueueRuns.Alone, ValidQueue;
  }

  /** Whatever the consumer does but seek, and whatever others do, it trails its catalog. */
  lemma StepTrails(config: Config, w: World, rs: seq<Record>, p: nat, e: nat, op: ConsumerOp) returns (p': nat, e': nat)
    requires ValidQueue(config, w.queue) && Trails(config, w, rs, p, e)
    requires !op.Seek? && LeavesAlone(config, w.consumer.topic, w.consumer.id, op)
    ensures Trails(config, Step(config, w, op), rs + AddedBy(w.consumer.topic, op), p', e')
    ensures KeepsName(w, Step(config, w, op))
    ensures op.Commit? && !w.queue.closed ==> p' == e' == p
    ensures op.Receive? || op.Others? || w.queue.closed ==> p' == p && e' == e
    ensures w.queue.closed ==> Step(config, w, op).queue.closed
  {
    assert rs + [] == rs;
    p', e' := p, e;
    match op
    case Poll =>
      hide Start, Trails, PollStep, Entries, ValidQueue;
      if w.queue.closed || Start(rs, |rs|) >= TWO_32 {
        RefusedPollTrails(config, w, rs, p, e);
      } else {
        PollTrails(config, w, rs, p, e);
        p', e' := LastSent(p, e, Room(w.consumer, NewCount(rs, p, e))), PollEnd(rs, e);
      }
    case Receive =>
      hide Start, Trails, ValidQueue;
      ReceiveTrails(config, w, rs, p, e);
    case Commit =>
      hide Start, Trails, CommitStep, ValidQueue;
      CommitTrails(config, w, rs, p, e);
      if !w.queue.closed {
        e' := p;
      }
    case Others(o) =>
      hide Start, Trails, QueueRuns.Step, ValidQueue;
      OthersTrail(config, w, rs, p, e, op);
      if w.queue.closed {
        ClosedQueueStands(config, w.queue, o);
      }
    case Seek(_) =>
  }

  lemma AddedGrows(topic: string, ops: seq<ConsumerOp>, rs: seq<Record>)
    requires ops != []
    ensures var n := |ops| - 1;
            rs + Added(topic, ops[..n]) + AddedBy(topic, ops[n]) == rs + Added(topic, ops)
  {
    var n := |ops| - 1;
    var added := Added(topic, ops[..n]);
    assert rs + added + AddedBy(topic, ops[n]) == rs + (added + AddedBy(topic, ops[n]));
  }

  /** The same through every run. */
  lemma {:induction false} RunTrails(config: Config, w: World, rs: seq<Record>, p: nat, e: nat, ops: seq<ConsumerOp>)
      returns (p': nat, e': nat)
    requires ValidQueue(config, w.queue) && Trails(config, w, rs, p, e)
    requires Undisturbed(config, w.consumer.topic, w.consumer.id, ops)
    ensures var end := Run(config, w, ops);
            && Trails(config, end, rs + Added(w.consumer.topic, ops), p', e') && KeepsName(w, end)
            && (p == e && !end.queue.closed && !PollPending(ops) ==> p' == e')
  {
    if ops == [] {
      assert rs + [] == rs;
      p', e' := p, e;
    } else {
      hide Step, Trails, LeavesAlone, ValidQueue;
      var n := |ops| - 1;
      var pm, em := RunTrails(config, w, rs, p, e, ops[..n]);
      AddedGrows(w.consumer.topic, ops, rs);
      p', e' := StepTrails(config, Run(config, w, ops[..n]), rs + Added(w.consumer.topic, ops[..n]), pm, em, ops[n]);
    }
  }

  /** The last of the consumer's polls and commits is a poll. */
  predicate PollPending(ops: seq<ConsumerOp>) {
    if ops == [] then false
    else
      var op := ops[|ops| - 1];
      op.Poll? || (!op.Commit? && PollPending(ops[..|ops| - 1]))
  }

  // ---------- The stream, exactly ----------

  /**
   * Since the start at record k the channel was sent exactly records k+1, k+2, ..., k+d, and
   * c.offset is where record k+d begins.
   */
  ghost predicate Streams(rs: seq<Record>, k: nat, before: nat, sent: seq<LogEntry>, offset: Int64) {
    && before <= |sent|
    && var d := |sent| - before;
       && k + d <= |rs|
       && (d > 0 ==> k + d < |rs|)
       && offset == Start(rs, k + d)
       && sent[before..] == Slice(Entries(0, rs), k + 1, d)
  }

  lemma StreamsOfMore(rs: seq<Record>, more: seq<Record>, k: nat, before: nat, sent: seq<LogEntry>, offset: Int64)
    requires Streams(rs, k, before, sent, offset)
    ensures Streams(rs + more, k, before, sent, offset)
  {
    hide Start, Entries;
    RecordsGrow(rs, more);
    var d := |sent| - before;
    if d > 0 {
      assert Entries(0, rs + more)[k + 1..k + 1 + d] == Entries(0, rs + more)[..|rs|][k + 1..k + 1 + d];
    }
  }

  lemma StreamBounds(rs: seq<Record>, k: nat, before: nat, sent: seq<LogEntry>, offset: Int64)
    requires Streams(rs, k, before, sent, offset)
    ensures before <= |sent| && k + (|sent| - before) <= |rs| && offset == Start(rs, k + (|sent| - before))
  {
  }

  lemma SlicesJoin(sent: seq<LogEntry>, before: nat, es: seq<LogEntry>, lo: nat, d: nat, n: nat)
    requires before <= |sent| && lo + d + n <= |es| && sent[before..] == Slice(es, lo, d)
    ensures (sent + Slice(es, lo + d, n))[before..] == Slice(es, lo, d + n)
    ensures |Slice(es, lo + d, n)| == n
    ensures n > 0 ==> Slice(es, lo + d, n)[n - 1] == es[lo + d + n - 1]
  {
    assert (sent + Slice(es, lo + d, n))[before..] == sent[before..] + Slice(es, lo + d, n);
  }

  /**
   * Some poll since the last accepted commit ran out of room: the catalog has moved past records that
   * were never sent.
   */
  predicate Short(config: Config, w: World, ops: seq<ConsumerOp>)
    requires ValidQueue(config, w.queue)
  {
    if ops == [] then false
    else
      var front, op := ops[..|ops| - 1], ops[|ops| - 1];
      var mid := Run(config, w, front);
      if op.Poll? then Short(config, w, front) || !HasRoom(config, mid)
      else if op.Commit? && CommitStep(config, mid.queue, mid.consumer).1.Ok? then false
      else Short(config, w, front)
  }

  /** No poll sends anything while the catalog stands past records that were never sent. */
  predicate Unbroken(config: Config, w: World, ops: seq<ConsumerOp>)
    requires ValidQueue(config, w.queue)
  {
    if ops == [] then true
    else
      var front, op := ops[..|ops| - 1], ops[|ops| - 1];
      && Unbroken(config, w, front)
      && (op.Poll? && Short(config, w, front) ==> !Sends(config, Run(config, w, front)))
  }

  /** The stream so far, with the catalog at the last delivered record or the next one, or, when short, beyond. */
  ghost predicate OnTrack(config: Config, w: World, rs: seq<Record>, k: nat, before: nat, short: bool) {
    && Streams(rs, k, before, w.consumer.sent, w.consumer.offset)
    && var p := k + (|w.consumer.sent| - before);
       exists e: nat :: Trails(config, w, rs, p, e) && (if short then e > p + 1 else e <= p + 1)
  }

  /** No message from the given one on has this offset. */
  ghost predicate NeverSent(sent: seq<LogEntry>, before: nat, offset: int) {
    before <= |sent| && forall i | before <= i < |sent| :: sent[i].offset != offset
  }

  /** Record j was passed over: the consumer stands behind it and was never sent it. */
  ghost predicate Gap(w: World, rs: seq<Record>, k: nat, before: nat, j: nat) {
    k < j < |rs| && w.consumer.offset > Start(rs, j) && NeverSent(w.consumer.sent, before, Start(rs, j))
  }

  lemma EntryOffset(rs: seq<Record>, i: nat)
    requires i < |rs| && Start(rs, i) < TWO_63
    ensures Entries(0, rs)[i].offset == Start(rs, i)
  {
    hide Start, Pack;
    FirstSegmentIsPlain(Start(rs, i));
  }

  /** Message i of a stream is its record, at that record's offset. */
  lemma StreamedRecord(rs: seq<Record>, k: nat, before: nat, sent: seq<LogEntry>, offset: Int64, i: nat)
    requires Streams(rs, k, before, sent, offset) && before <= i < |sent|
    ensures k + 1 + (i - before) <= k + (|sent| - before) < |rs|
    ensures sent[i].offset == Start(rs, k + 1 + (i - before)) <= offset
  {
    hide Start, Entries;
    var h := k + 1 + (i - before);
    assert sent[i] == sent[before..][i - before] == Entries(0, rs)[h];
    StartIncreases(rs, h, k + (|sent| - before));
    EntryOffset(rs, h);
  }

  lemma GapBreaksStream(w: World, rs: seq<Record>, k: nat, before: nat, j: nat)
    requires Gap(w, rs, k, before, j)
    ensures !Streams(rs, k, before, w.consumer.sent, w.consumer.offset)
  {
    hide Start, Entries;
    if Streams(rs, k, before, w.consumer.sent, w.consumer.offset) {
      var sent := w.consumer.sent;
      StartIsInjective(rs, j, k + (|sent| - before));
      StreamedRecord(rs, k, before, sent, w.consumer.offset, before + (j - k - 1));
    }
  }

  /** A gap stays: later polls only send what lies behind the consumer. */
  lemma GapStays(config: Config, w: World, rs: seq<Record>, k: nat, before: nat, j: nat, op: ConsumerOp)
    requires ValidQueue(config, w.queue) && Gap(w, rs, k, before, j) && !op.Seek?
    ensures Gap(Step(config, w, op), rs + AddedBy(w.consumer.topic, op), k, before, j)
  {
    RecordsGrow(rs, AddedBy(w.consumer.topic, op));
    hide Start, PollStep, CommitStep, QueueRuns.Step, ValidQueue;
    match op
    case Poll =>
      var c := w.consumer;
      PollAscends(config, w.queue, c, c.offset, |c.sent|);
      var d := PollStep(config, w.queue, c).1;
      forall i | before <= i < |d.sent|
        ensures d.sent[i].offset != Start(rs, j)
      {
        if i < |c.sent| {
          assert d.sent[i] == c.sent[i];
        } else {
          assert d.sent[|c.sent|..][i - |c.sent|] == d.sent[i];
        }
      }
    case _ =>
  }

  /** Sending the new records from the one after the last delivered on continues the stream. */
  lemma SendingContinues(rs: seq<Record>, k: nat, before: nat, sent: seq<LogEntry>, offset: Int64, n: nat, last: Int64)
    requires Streams(rs, k, before, sent, offset)
    requires var p := k + (|sent| - before);
             (n > 0 ==> p + n < |rs|) && last == Start(rs, p + n)
    ensures Streams(rs, k, before, sent + Slice(Entries(0, rs), k + (|sent| - before) + 1, n), last)
  {
    hide Start, Entries, Slice;
    if n > 0 {
      SlicesJoin(sent, before, Entries(0, rs), k + 1, |sent| - before, n);
    } else {
      assert sent + [] == sent;
    }
  }

  lemma MakeTrack(config: Config, w: World, rs: seq<Record>, k: nat, before: nat, short: bool, e: nat)
    requires Streams(rs, k, before, w.consumer.sent, w.consumer.offset)
    requires var p := k + (|w.consumer.sent| - before);
             Trails(config, w, rs, p, e) && (if short then e > p + 1 else e <= p + 1)
    ensures OnTrack(config, w, rs, k, before, short)
  {
    var p := k + (|w.consumer.sent| - before);
    assert Trails(config, w, rs, p, e) && (if short then e > p + 1 else e <= p + 1);
  }

  lemma TrackTrails(config: Config, w: World, rs: seq<Record>, k: nat, before: nat, short: bool)
      returns (p: nat, e: nat)
    requires OnTrack(config, w, rs, k, before, short)
    ensures Trails(config, w, rs, p, e)
  {
    hide TopicHolds, Start, Entries;
    p := k + (|w.consumer.sent| - before);
    e :| Trails(config, w, rs, p, e) && (if short then e > p + 1 else e <= p + 1);
  }

  lemma PollOnTrack(config: Config, w: World, rs: seq<Record>, k: nat, before: nat, short: bool)
    requires ValidQueue(config, w.queue) && OnTrack(config, w, rs, k, before, short)
    requires short ==> !Sends(config, w)
    ensures OnTrack(config, Step(config, w, Poll), rs, k, before, short || !HasRoom(config, w))
  {
    hide Start, Trails, Step, ValidQueue, PollNews, Streams;
    StreamBounds(rs, k, before, w.consumer.sent, w.consumer.offset);
    var p := k + (|w.consumer.sent| - before);
    var e: nat :| Trails(config, w, rs, p, e) && (if short then e > p + 1 else e <= p + 1);
    hide OnTrack;
    if w.queue.closed || Start(rs, |rs|) >= TWO_32 {
      RefusedPollTrails(config, w, rs, p, e);
      MakeTrack(config, Step(config, w, Poll), rs, k, before, short, e);
    } else {
      LivePollOnTrack(config, w, rs, k, before, short, e);
    }
  }

  lemma LivePollOnTrack(config: Config, w: World, rs: seq<Record>, k: nat, before: nat, short: bool, e: nat)
    requires ValidQueue(config, w.queue) && Streams(rs, k, before, w.consumer.sent, w.consumer.offset)
    requires var p := k + (|w.consumer.sent| - before);
             Trails(config, w, rs, p, e) && (if short then e > p + 1 else e <= p + 1)
    requires !w.queue.closed && Start(rs, |rs|) < TWO_32 && (short ==> !Sends(config, w))
    ensures OnTrack(config, Step(config, w, Poll), rs, k, before, short || !HasRoom(config, w))
  {
    hide Start, Trails, Entries, Step, ValidQueue, PollNews, Room, Streams, NewCount, PollEnd, OnTrack, Slice,
         TopicHolds, PollStep;
    var sent := w.consumer.sent;
    StreamBounds(rs, k, before, sent, w.consumer.offset);
    var p := k + (|sent| - before);
    TrailBounds(config, w, rs, p, e);
    PollFrom(config, w, rs, p, e);
    PollTrails(config, w, rs, p, e);
    var m := NewCount(rs, p, e);
    var n := Room(w.consumer, m);
    RoomBelow(w.consumer, m);
    CountsOf(rs, p, e);
    var next := Step(config, w, Poll);
    TrailBounds(config, next, rs, LastSent(p, e, n), PollEnd(rs, e));
    if short {
      assert sent + [] == sent;
    } else {
      SendingContinues(rs, k, before, sent, w.consumer.offset, n, next.consumer.offset);
    }
    MakeTrack(config, next, rs, k, before, short || n < m, PollEnd(rs, e));
  }

  lemma TrailBounds(config: Config, w: World, rs: seq<Record>, p: nat, e: nat)
    requires Trails(config, w, rs, p, e)
    ensures p <= e <= |rs| && w.consumer.offset == Start(rs, p)
    ensures w.consumer.topic in w.queue.topics && CatalogOffset(w) == Start(rs, e)
  {
  }

  lemma CountsOf(rs: seq<Record>, p: nat, e: nat)
    requires p <= e <= |rs|
    ensures e <= PollEnd(rs, e) <= |rs|
    ensures NewCount(rs, p, e) > 0 ==> FirstNew(p, e) + NewCount(rs, p, e) == PollEnd(rs, e)
    ensures NewCount(rs, p, e) == 0 ==> PollEnd(rs, e) <= FirstNew(p, e)
  {
  }

  /** A poll that sends while the catalog stands further on leaves a gap. */
  lemma ShortPollBreaks(config: Config, w: World, rs: seq<Record>, k: nat, before: nat)
    requires ValidQueue(config, w.queue) && OnTrack(config, w, rs, k, before, true) && Sends(config, w)
    ensures Gap(Step(config, w, Poll), rs, k, before, k + (|w.consumer.sent| - before) + 1)
  {
    hide Start, Trails, Step, ValidQueue, PollNews, Streams, Gap;
    StreamBounds(rs, k, before, w.consumer.sent, w.consumer.offset);
    var p := k + (|w.consumer.sent| - before);
    var e: nat :| Trails(config, w, rs, p, e) && e > p + 1;
    hide OnTrack;
    if w.queue.closed || Start(rs, |rs|) >= TWO_32 {
      RefusedPollTrails(config, w, rs, p, e);
    } else {
      LivePollBreaks(config, w, rs, k, before, e);
    }
  }

  lemma LivePollBreaks(config: Config, w: World, rs: seq<Record>, k: nat, before: nat, e: nat)
    requires ValidQueue(config, w.queue) && Streams(rs, k, before, w.consumer.sent, w.consumer.offset)
    requires var p := k + (|w.consumer.sent| - before); e > p + 1 && Trails(config, w, rs, p, e)
    requires !w.queue.closed && Start(rs, |rs|) < TWO_32 && Sends(config, w)
    ensures Gap(Step(config, w, Poll), rs, k, before, k + (|w.consumer.sent| - before) + 1)
  {
    hide Start, Trails, Entries, Step, ValidQueue, PollNews, Room, Streams, NewCount, PollEnd, NeverSent, Slice,
         TopicHolds, PollStep;
    var sent := w.consumer.sent;
    StreamBounds(rs, k, before, sent, w.consumer.offset);
    var p := k + (|sent| - before);
    TrailBounds(config, w, rs, p, e);
    PollFrom(config, w, rs, p, e);
    PollTrails(config, w, rs, p, e);
    var m := NewCount(rs, p, e);
    var n := Room(w.consumer, m);
    RoomBelow(w.consumer, m);
    CountsOf(rs, p, e);
    TrailBounds(config, Step(config, w, Poll), rs, LastSent(p, e, n), PollEnd(rs, e));
    StartIsInjective(rs, p + 1, LastSent(p, e, n));
    NotAmongSent(rs, k, before, sent, w.consumer.offset, e, n, p + 1);
  }

  /** Neither what was streamed up to record p nor a stretch from e on holds a record between. */
  lemma NotAmongSent(rs: seq<Record>, k: nat, before: nat, sent: seq<LogEntry>, offset: Int64, e: nat, n: nat, j: nat)
    requires Streams(rs, k, before, sent, offset) && k + (|sent| - before) < j < e && e + n <= |rs|
    requires Start(rs, |rs|) < TWO_63
    ensures NeverSent(sent + Slice(Entries(0, rs), e, n), before, Start(rs, j))
  {
    hide Start, Entries, Streams;
    StreamBounds(rs, k, before, sent, offset);
    var more := Slice(Entries(0, rs), e, n);
    forall i | before <= i < |sent + more|
      ensures (sent + more)[i].offset != Start(rs, j)
    {
      if i < |sent| {
        StreamedRecord(rs, k, before, sent, offset, i);
        StartIsInjective(rs, k + 1 + (i - before), j);
      } else {
        OffsetInLog(rs, e + (i - |sent|));
        StartIsInjective(rs, e + (i - |sent|), j);
      }
    }
  }

  lemma StepOnTrack(config: Config, w: World, rs: seq<Record>, k: nat, before: nat, short: bool, op: ConsumerOp)
    requires ValidQueue(config, w.queue) && OnTrack(config, w, rs, k, before, short)
    requires !op.Seek? && !op.Poll? && LeavesAlone(config, w.consumer.topic, w.consumer.id, op)
    ensures var cleared := op.Commit? && CommitStep(config, w.queue, w.consumer).1.Ok?;
            OnTrack(config, Step(config, w, op), rs + AddedBy(w.consumer.topic, op), k, before, !cleared && short)
  {
    hide Start, Trails, ValidQueue, Streams, PollStep, CommitStep, QueueRuns.Step, LeavesAlone;
    StreamBounds(rs, k, before, w.consumer.sent, w.consumer.offset);
    var p := k + (|w.consumer.sent| - before);
    var e: nat :| Trails(config, w, rs, p, e) && (if short then e > p + 1 else e <= p + 1);
    var p', e' := StepTrails(config, w, rs, p, e, op);
    hide OnTrack;
    StreamsOfMore(rs, AddedBy(w.consumer.topic, op), k, before, w.consumer.sent, w.consumer.offset);
    var cleared := op.Commit? && CommitStep(config, w.queue, w.consumer).1.Ok?;
    StepSendsNothing(config, w, op);
    if op.Commit? {
      CommitTrails(config, w, rs, p, e);
    }
    MakeTrack(config, Step(config, w, op), rs + AddedBy(w.consumer.topic, op), k, before, !cleared && short, e');
  }

  lemma StepSendsNothing(config: Config, w: World, op: ConsumerOp)
    requires ValidQueue(config, w.queue) && !op.Poll? && !op.Seek?
    ensures Step(config, w, op).consumer.sent == w.consumer.sent
    ensures Step(config, w, op).consumer.offset == w.consumer.offset
  {
    hide CommitStep, QueueRuns.Step, ValidQueue;
  }

  /**
   * The stream, exactly. Whatever the consumer polls, receives and commits, in whatever order, and
   * whatever others do, the channel carries the records after the starting one in order and without a
   * gap if and only if no poll sends anything while an earlier poll, not made good by a commit, had run
   * out of room. A gap is never filled.
   */
  lemma {:induction false} StreamExactly(config: Config, w: World, rs: seq<Record>, k: nat, before: nat,
                                         ops: seq<ConsumerOp>)
    requires ValidQueue(config, w.queue) && OnTrack(config, w, rs, k, before, false)
    requires Undisturbed(config, w.consumer.topic, w.consumer.id, ops)
    ensures var end, all := Run(config, w, ops), rs + Added(w.consumer.topic, ops);
            && KeepsName(w, end)
            && (Streams(all, k, before, end.consumer.sent, end.consumer.offset) <==> Unbroken(config, w, ops))
            && (Unbroken(config, w, ops) ==> OnTrack(config, end, all, k, before, Short(config, w, ops)))
            && (!Unbroken(config, w, ops) ==> exists j: nat :: Gap(end, all, k, before, j))
  {
    if ops == [] {
      assert rs + [] == rs;
    } else {
      hide Step, OnTrack, Gap, LeavesAlone, ValidQueue, Streams, Start, HasRoom, Sends;
      var n := |ops| - 1;
      StreamExactly(config, w, rs, k, before, ops[..n]);
      var mid, some := Run(config, w, ops[..n]), rs + Added(w.consumer.topic, ops[..n]);
      AddedGrows(w.consumer.topic, ops, rs);
      StepKeepsName(config, mid, ops[n]);
      if Unbroken(config, w, ops[..n]) {
        TrackOrBreak(config, mid, some, k, before, Short(config, w, ops[..n]), ops[n]);
      } else {
        var j: nat :| Gap(mid, some, k, before, j);
        GapStays(config, mid, some, k, before, j, ops[n]);
        GapBreaksStream(Step(config, mid, ops[n]), rs + Added(w.consumer.topic, ops), k, before, j);
      }
    }
  }

  lemma StepKeepsName(config: Config, w: World, op: ConsumerOp)
    requires ValidQueue(config, w.queue)
    ensures KeepsName(w, Step(config, w, op))
  {
    hide PollStep, CommitStep, SeekStep, QueueRuns.Step, ValidQueue;
    PollKeepsName(config, w.queue, w.consumer);
    SeekKeepsName(config, w.queue, w.consumer, if op.Seek? then op.offset else 0);
  }

  lemma SeekKeepsName(config: Config, q: QueueState, c: ConsumerState, offset: Int64)
    ensures SeekStep(config, q, c, offset).1.topic == c.topic && SeekStep(config, q, c, offset).1.id == c.id
  {
    hide QueueSetOffset;
  }

  /** One step of a stream: it goes on, or it breaks for good. */
  lemma TrackOrBreak(config: Config, w: World, rs: seq<Record>, k: nat, before: nat, short: bool, op: ConsumerOp)
    requires ValidQueue(config, w.queue) && OnTrack(config, w, rs, k, before, short)
    requires !op.Seek? && LeavesAlone(config, w.consumer.topic, w.consumer.id, op)
    ensures var next, all := Step(config, w, op), rs + AddedBy(w.consumer.topic, op);
            if op.Poll? && short && Sends(config, w) then
              && (exists j: nat :: Gap(next, all, k, before, j))
              && !Streams(all, k, before, next.consumer.sent, next.consumer.offset)
            else
              && Streams(all, k, before, next.consumer.sent, next.consumer.offset)
              && OnTrack(config, next, all, k, before,
                         if op.Poll? then short || !HasRoom(config, w)
                         else !(op.Commit? && CommitStep(config, w.queue, w.consumer).1.Ok?) && short)
  {
    hide Step, Gap, LeavesAlone, ValidQueue, Streams, Start, HasRoom, Sends, Trails, CommitStep;
    assert rs + [] == rs;
    if !op.Poll? {
      StepOnTrack(config, w, rs, k, before, short, op);
    } else if short && Sends(config, w) {
      ShortPollBreaks(config, w, rs, k, before);
      var j := k + (|w.consumer.sent| - before) + 1;
      StreamBounds(rs, k, before, w.consumer.sent, w.consumer.offset);
      GapBreaksStream(Step(config, w, op), rs, k, before, j);
    } else {
      PollOnTrack(config, w, rs, k, before, short);
    }
  }

  // ---------- A commit after every poll ----------

  /** Every poll is followed by a commit before the next one. */
  predicate Disciplined(ops: seq<ConsumerOp>) {
    if ops == [] then true
    else
      var front, op := ops[..|ops| - 1], ops[|ops| - 1];
      Disciplined(front) && (op.Poll? ==> !PollPending(front))
  }

  lemma ClosedPollSendsNothing(config: Config, w: World)
    requires w.queue.closed
    ensures !Sends(config, w) && HasRoom(config, w)
  {
    hide Home;
  }

  /** A poll that ran out of room is made good by its commit, unless the queue was closed in between. */
  lemma {:induction false} DisciplineSuffices(config: Config, w: World, rs: seq<Record>, p: nat, e: nat,
                                              ops: seq<ConsumerOp>)
    requires ValidQueue(config, w.queue) && Trails(config, w, rs, p, e)
    requires Undisturbed(config, w.consumer.topic, w.consumer.id, ops) && Disciplined(ops)
    ensures Unbroken(config, w, ops)
    ensures Short(config, w, ops) ==> PollPending(ops) || Run(config, w, ops).queue.closed
  {
    if ops != [] {
      hide Step, Trails, LeavesAlone, ValidQueue, HasRoom, Sends, CommitStep;
      var n := |ops| - 1;
      DisciplineSuffices(config, w, rs, p, e, ops[..n]);
      var mid := Run(config, w, ops[..n]);
      var pm, em := RunTrails(config, w, rs, p, e, ops[..n]);
      var p', e' := StepTrails(config, mid, rs + Added(w.consumer.topic, ops[..n]), pm, em, ops[n]);
      if mid.queue.closed {
        ClosedPollSendsNothing(config, mid);
      } else if ops[n].Commit? {
        CommitTrails(config, mid, rs + Added(w.consumer.topic, ops[..n]), pm, em);
      }
    }
  }

  lemma StartsOnTrack(config: Config, w: World, rs: seq<Record>, k: nat)
    requires Trails(config, w, rs, k, k)
    ensures OnTrack(config, w, rs, k, |w.consumer.sent|, false)
  {
    hide TopicHolds;
    assert Streams(rs, k, |w.consumer.sent|, w.consumer.sent, w.consumer.offset);
    MakeTrack(config, w, rs, k, |w.consumer.sent|, false, k);
  }

  /**
   * With a commit after every poll the channel is sent, in order and without a gap, exactly a prefix
   * of the messages whose offset is greater than the starting offset, even when a full channel drops
   * part of a batch: the commit moves the catalog back to the last delivered record, which is the
   * only one the next poll skips. Producers and other consumers may do anything in between, and the
   * queue may be closed.
   */
  lemma CommittedStream(config: Config, w: World, rs: seq<Record>, k: nat, ops: seq<ConsumerOp>)
    requires ValidQueue(config, w.queue) && Trails(config, w, rs, k, k)
    requires Undisturbed(config, w.consumer.topic, w.consumer.id, ops) && Disciplined(ops)
    ensures var end, all := Run(config, w, ops), rs + Added(w.consumer.topic, ops);
            && KeepsName(w, end)
            && Streams(all, k, |w.consumer.sent|, end.consumer.sent, end.consumer.offset)
            && end.consumer.topic in end.queue.topics
            && (!end.queue.closed && !PollPending(ops) ==> CatalogOffset(end) == end.consumer.offset)
  {
    hide Run, Trails, OnTrack, Undisturbed, Disciplined, Streams, Unbroken, Short, ValidQueue, PollPending, Start;
    StartsOnTrack(config, w, rs, k);
    DisciplineSuffices(config, w, rs, k, k, ops);
    StreamExactly(config, w, rs, k, |w.consumer.sent|, ops);
    var p, e := RunTrails(config, w, rs, k, k, ops);
    TrailBounds(config, Run(config, w, ops), rs + Added(w.consumer.topic, ops), p, e);
  }

  // ---------- After a seek ----------

  /** From wherever the consumer stood, a seek to record k of an open topic puts it and its catalog there. */
  lemma SeekTrails(config: Config, w: World, rs: seq<Record>, k: nat)
    requires ValidQueue(config, w.queue) && TopicHolds(config, w, rs)
    requires k <= |rs| && Start(rs, k) < TWO_63
    ensures var next := Step(config, w, Seek(Start(rs, k)));
            && Trails(config, next, rs, k, k) && TopicHolds(config, next, rs) && KeepsName(w, next)
            && next.consumer.sent == w.consumer.sent && next.consumer.buffered == w.consumer.buffered
            && !next.queue.closed
  {
    SeekHolds(config, w, rs, Start(rs, k));
    SeekMoves(config, w, Start(rs, k));
    hide TopicHolds, Start, Step, ValidQueue;
    HeldIsOpen(config, w, rs);
    TopicIsHeld(config, Step(config, w, Seek(Start(rs, k))), rs);
  }

  lemma HeldIsOpen(config: Config, w: World, rs: seq<Record>)
    requires TopicHolds(config, w, rs)
    ensures !w.queue.closed && w.consumer.topic in w.queue.topics && !w.queue.topics[w.consumer.topic].closed
  {
  }

  /** Seeking anywhere, also between two records, leaves the topic as it is. */
  lemma SeekHolds(config: Config, w: World, rs: seq<Record>, offset: Int64)
    requires ValidQueue(config, w.queue) && TopicHolds(config, w, rs)
    ensures TopicHolds(config, Step(config, w, Seek(offset)), rs)
  {
    hide Home, Start, TopicRuns.HoldsRecords, ValidQueue, Put, SetOffsetStep, QueueRuns.Alone;
    var st := TopicAt(config, w.queue, w.consumer.topic);
    SetOffsetKeepsRecords(st, rs, w.consumer.id, offset);
    PutHolds(config, w, rs, SetOffsetStep(st, w.consumer.id, offset).0);
  }

  /** So does polling from anywhere. */
  lemma PollHolds(config: Config, w: World, rs: seq<Record>)
    requires ValidQueue(config, w.queue) && TopicHolds(config, w, rs)
    ensures TopicHolds(config, Step(config, w, Poll), rs)
  {
    PollKeepsName(config, w.queue, w.consumer);
    hide Home, TopicRuns.HoldsRecords, ValidQueue, Put, TopicStore.DequeueStep, QueueRuns.Alone, Deliver;
    var st := TopicAt(config, w.queue, w.consumer.topic);
    DequeueKeepsRecords(st, rs, w.consumer.id, POLL_LIMIT);
    TopicRuns.DequeueFrame(st, w.consumer.id, POLL_LIMIT);
    PutHolds(config, w, rs, TopicStore.DequeueStep(st, w.consumer.id, POLL_LIMIT).0);
  }

  /** The consumer is left alone and nobody closes the queue; the consumer itself may seek. */
  ghost predicate KeptOpen(config: Config, topic: string, id: string, ops: seq<ConsumerOp>) {
    forall i | 0 <= i < |ops| :: LeavesAlone(config, topic, id, ops[i]) && !(ops[i].Others? && ops[i].op.Close?)
  }

  lemma StepHolds(config: Config, w: World, rs: seq<Record>, op: ConsumerOp)
    requires ValidQueue(config, w.queue) && TopicHolds(config, w, rs)
    requires LeavesAlone(config, w.consumer.topic, w.consumer.id, op) && !(op.Others? && op.op.Close?)
    ensures TopicHolds(config, Step(config, w, op), rs + AddedBy(w.consumer.topic, op))
    ensures KeepsName(w, Step(config, w, op))
  {
    assert rs + [] == rs;
    hide TopicHolds, ValidQueue, LeavesAlone, Step;
    match op
    case Poll =>
      PollHolds(config, w, rs);
      PollKeepsBoth(config, w);
    case Receive => ReceiveHolds(config, w, rs);
    case Commit =>
      CommitIsSeekToSelf(config, w);
      SeekHolds(config, w, rs, w.consumer.offset);
      SeekMoves(config, w, w.consumer.offset);
    case Seek(o) =>
      SeekHolds(config, w, rs, o);
      SeekMoves(config, w, o);
    case Others(_) =>
      OthersStep(config, w, rs, op);
      OthersKeepName(config, w, op);
  }

  lemma PollKeepsBoth(config: Config, w: World)
    requires ValidQueue(config, w.queue)
    ensures KeepsName(w, Step(config, w, Poll))
  {
    hide PollStep, ValidQueue;
    PollKeepsName(config, w.queue, w.consumer);
  }

  lemma ReceiveHolds(config: Config, w: World, rs: seq<Record>)
    requires ValidQueue(config, w.queue) && TopicHolds(config, w, rs)
    ensures TopicHolds(config, Step(config, w, Receive), rs) && KeepsName(w, Step(config, w, Receive))
  {
    hide TopicAt, TopicRuns.HoldsRecords, QueueRuns.Alone, ValidQueue;
  }

  lemma OthersKeepName(config: Config, w: World, op: ConsumerOp)
    requires ValidQueue(config, w.queue) && op.Others?
    ensures KeepsName(w, Step(config, w, op))
  {
    hide QueueRuns.Step, ValidQueue;
  }

  /** Whatever the consumer does, seeks to anywhere included, the topic holds what was enqueued to it. */
  lemma {:induction false} RunHolds(config: Config, w: World, rs: seq<Record>, ops: seq<ConsumerOp>)
    requires ValidQueue(config, w.queue) && TopicHolds(config, w, rs)
    requires KeptOpen(config, w.consumer.topic, w.consumer.id, ops)
    ensures TopicHolds(config, Run(config, w, ops), rs + Added(w.consumer.topic, ops))
    ensures KeepsName(w, Run(config, w, ops))
  {
    if ops == [] {
      assert rs + [] == rs;
    } else {
      hide Step, TopicHolds, LeavesAlone, ValidQueue;
      var n := |ops| - 1;
      RunHolds(config, w, rs, ops[..n]);
      StepHolds(config, Run(config, w, ops[..n]), rs + Added(w.consumer.topic, ops[..n]), ops[n]);
      AddedGrows(w.consumer.topic, ops, rs);
    }
  }

  /**
   * The last seek decides. After any run, with any seeks, a seek to record k starts the stream anew at k,
   * whatever was sent before: from then on the channel carries the records after k in order and without a
   * gap exactly as from a start at k, and always with a commit after every poll.
   */
  lemma StreamAfterSeek(config: Config, w: World, rs: seq<Record>, earlier: seq<ConsumerOp>, k: nat,
                        ops: seq<ConsumerOp>)
    requires ValidQueue(config, w.queue) && TopicHolds(config, w, rs)
    requires KeptOpen(config, w.consumer.topic, w.consumer.id, earlier)
    requires Undisturbed(config, w.consumer.topic, w.consumer.id, ops)
    requires var some := rs + Added(w.consumer.topic, earlier);
             k <= |some| && Start(some, k) < TWO_63
    ensures var some := rs + Added(w.consumer.topic, earlier);
            var before := Run(config, w, earlier);
            var start := Step(config, before, Seek(Start(some, k)));
            var end, all := Run(config, start, ops), some + Added(w.consumer.topic, ops);
            && start.consumer.sent == before.consumer.sent
            && Trails(config, start, some, k, k)
            && (Streams(all, k, |start.consumer.sent|, end.consumer.sent, end.consumer.offset) <==>
                  Unbroken(config, start, ops))
            && (Disciplined(ops) ==> Unbroken(config, start, ops))
  {
    hide Run, Step, Trails, TopicHolds, OnTrack, Undisturbed, Disciplined, Streams, Unbroken, Short, ValidQueue, Start,
         KeptOpen;
    var some := rs + Added(w.consumer.topic, earlier);
    RunHolds(config, w, rs, earlier);
    var before := Run(config, w, earlier);
    SeekTrails(config, before, some, k);
    var start := Step(config, before, Seek(Start(some, k)));
    StartsOnTrack(config, start, some, k);
    StreamExactly(config, start, some, k, |start.consumer.sent|, ops);
    if Disciplined(ops) {
      DisciplineSuffices(config, start, some, k, k, ops);
    }
  }

  /** After a seek to record k the next poll sends records k+1 to at most k+9 again, as far as there is room. */
  lemma SeekRedelivers(config: Config, w: World, rs: seq<Record>, k: nat)
    requires ValidQueue(config, w.queue) && TopicHolds(config, w, rs)
    requires k < |rs| && Start(rs, |rs|) < TWO_32 && Start(rs, k) < TWO_63 && w.consumer.buffered <= 100
    ensures var end := Step(config, Step(config, w, Seek(Start(rs, k))), Poll);
            var unread, room := if k + 10 < |rs| then 9 else |rs| - k - 1, 100 - w.consumer.buffered;
            end.consumer.sent
              == w.consumer.sent + Entries(0, rs)[k + 1..k + 1 + if unread < room then unread else room]
  {
    hide Start, Entries, Step, ValidQueue, TopicHolds, Trails;
    SeekTrails(config, w, rs, k);
    PollTrails(config, Step(config, w, Seek(Start(rs, k))), rs, k, k);
  }

  /**
   * SeekToEnd moves to where the next record will begin, and the message at the starting offset is never
   * sent: the first record that is enqueued after it is lost to the consumer.
   */
  lemma SeekToEndSkipsNext(config: Config, w: World, rs: seq<Record>, ops: seq<ConsumerOp>)
    requires ValidQueue(config, w.queue) && TopicHolds(config, w, rs) && Start(rs, |rs|) < TWO_63
    requires Undisturbed(config, w.consumer.topic, w.consumer.id, ops)
    ensures var m := w.queue.topics[w.consumer.topic];
            var size := Pack(m.segmentIndex, m.currentSize);
            var end := Run(config, Step(config, w, Seek(size)), ops);
            var all := rs + Added(w.consumer.topic, ops);
            && size == Start(rs, |rs|) == Start(all, |rs|)
            && w.consumer.sent <= end.consumer.sent
            && forall i | |w.consumer.sent| <= i < |end.consumer.sent| :: end.consumer.sent[i].offset != size
  {
    var m := w.queue.topics[w.consumer.topic];
    SizeOfHeld(config, w, rs);
    hide Run, Step, TopicHolds, Start, ValidQueue, LeavesAlone, Pack;
    var size := Pack(m.segmentIndex, m.currentSize);
    RecordsGrow(rs, Added(w.consumer.topic, ops));
    SeekTrails(config, w, rs, |rs|);
    var start := Step(config, w, Seek(size));
    RunKeepsSent(config, start, ops);
    SeekMoves(config, w, size);
    forall i | |w.consumer.sent| <= i < |Run(config, start, ops).consumer.sent|
      ensures Run(config, start, ops).consumer.sent[i].offset != size
    {
      StartingMessageIsSkipped(config, start, ops, i);
    }
  }

  lemma SizeOfHeld(config: Config, w: World, rs: seq<Record>)
    requires TopicHolds(config, w, rs) && Start(rs, |rs|) < TWO_63
    ensures var m := w.queue.topics[w.consumer.topic];
            Pack(m.segmentIndex, m.currentSize) == Start(rs, |rs|)
  {
    hide Pack, Start, Stream, QueueRuns.Alone;
    FirstSegmentIsPlain(Start(rs, |rs|));
  }

  /** The messages above the starting offset are exactly the records after the starting record. */
  lemma AboveStart(rs: seq<Record>, k: nat, i: nat)
    requires k <= |rs| && i < |rs| && Start(rs, |rs|) < TWO_63
    ensures Entries(0, rs)[i].offset > Start(rs, k) <==> i > k
  {
    OffsetInLog(rs, i);
    StartIsInjective(rs, k, i);
  }

  /**
   * The lag of a consumer whose last delivered record is p counts that record too: it is zero only
   * when there is no record p yet.
   */
  lemma LagCountsLastDelivered(rs: seq<Record>, p: nat)
    requires p <= |rs| && Start(rs, |rs|) < TWO_63
    ensures Start(rs, p) <= Start(rs, |rs|)
    ensures Lag(Pack(0, Start(rs, |rs|)), Start(rs, p)) == Start(rs, |rs|) - Start(rs, p)
    ensures Lag(Pack(0, Start(rs, |rs|)), Start(rs, p)) == 0 <==> p == |rs|
  {
    hide Pack, Start;
    FirstSegmentIsPlain(Start(rs, |rs|));
    StartIncreases(rs, p, |rs|);
    WrapIsIdentity(Start(rs, |rs|) - Start(rs, p));
  }

  // ---------- No commit at all ----------

  /** Every poll of the run has room in the channel for everything new that it reads. */
  predicate AlwaysRoom(config: Config, w: World, ops: seq<ConsumerOp>)
    requires ValidQueue(config, w.queue)
  {
    if ops == [] then true
    else
      var front := ops[..|ops| - 1];
      AlwaysRoom(config, w, front) && (ops[|ops| - 1].Poll? ==> HasRoom(config, Run(config, w, front)))
  }

  predicate NoCommits(ops: seq<ConsumerOp>) {
    forall i | 0 <= i < |ops| :: !ops[i].Commit?
  }

  lemma {:induction false} ShortWithoutCommits(config: Config, w: World, ops: seq<ConsumerOp>)
    requires ValidQueue(config, w.queue) && NoCommits(ops)
    ensures Short(config, w, ops) <==> !AlwaysRoom(config, w, ops)
    ensures AlwaysRoom(config, w, ops) ==> Unbroken(config, w, ops)
  {
    if ops != [] {
      hide Run, HasRoom, Sends, ValidQueue;
      ShortWithoutCommits(config, w, ops[..|ops| - 1]);
    }
  }

  /** Every record read so far, that is every one between the starting record and the catalog, was sent. */
  ghost predicate AllReadSent(w: World, rs: seq<Record>, k: nat, before: nat)
    requires w.consumer.topic in w.queue.topics
  {
    forall j | k < j < |rs| && Start(rs, j) < CatalogOffset(w) :: !NeverSent(w.consumer.sent, before, Start(rs, j))
  }

  /** Record j was read and not sent. */
  ghost predicate Lost(w: World, rs: seq<Record>, before: nat, j: nat) {
    && w.consumer.topic in w.queue.topics
    && j < |rs| && Start(rs, j) < CatalogOffset(w)
    && NeverSent(w.consumer.sent, before, Start(rs, j))
  }

  /** Nothing sent from the given message on lies behind the consumer's offset. */
  ghost predicate SentUpTo(w: World, before: nat) {
    && before <= |w.consumer.sent|
    && forall i | before <= i < |w.consumer.sent| :: w.consumer.sent[i].offset <= w.consumer.offset
  }

  lemma StreamIsSentUpTo(w: World, rs: seq<Record>, k: nat, before: nat)
    requires Streams(rs, k, before, w.consumer.sent, w.consumer.offset)
    ensures SentUpTo(w, before)
  {
    hide Start, Entries;
    forall i | before <= i < |w.consumer.sent|
      ensures w.consumer.sent[i].offset <= w.consumer.offset
    {
      StreamedRecord(rs, k, before, w.consumer.sent, w.consumer.offset, i);
    }
  }

  /** Sending a stretch behind record j does not send record j. */
  lemma StretchMisses(rs: seq<Record>, sent: seq<LogEntry>, before: nat, first: nat, n: nat, j: nat)
    requires j < |rs| && NeverSent(sent, before, Start(rs, j)) && Start(rs, |rs|) < TWO_63
    requires n > 0 ==> first + n <= |rs| && (j < first || first + n <= j)
    ensures NeverSent(sent + Slice(Entries(0, rs), first, n), before, Start(rs, j))
  {
    hide Start, Entries;
    var more := Slice(Entries(0, rs), first, n);
    forall i | before <= i < |sent + more|
      ensures (sent + more)[i].offset != Start(rs, j)
    {
      if i < |sent| {
        assert (sent + more)[i] == sent[i];
      } else {
        OffsetInLog(rs, first + (i - |sent|));
        StartIsInjective(rs, first + (i - |sent|), j);
      }
    }
  }

  /** A record that a poll reads but finds no room for is lost. */
  lemma ReadNotSent(config: Config, w: World, rs: seq<Record>, p: nat, e: nat, before: nat, j: nat)
    requires ValidQueue(config, w.queue) && Trails(config, w, rs, p, e) && SentUpTo(w, before)
    requires !w.queue.closed && Start(rs, |rs|) < TWO_32
    requires FirstNew(p, e) + Room(w.consumer, NewCount(rs, p, e)) <= j < PollEnd(rs, e)
    ensures Lost(Step(config, w, Poll), rs, before, j)
  {
    hide Start, Trails, Entries, Step, ValidQueue, Room, NewCount, PollEnd, Slice;
    TrailBounds(config, w, rs, p, e);
    PollTrails(config, w, rs, p, e);
    CountsOf(rs, p, e);
    var n := Room(w.consumer, NewCount(rs, p, e));
    RoomBelow(w.consumer, NewCount(rs, p, e));
    TrailBounds(config, Step(config, w, Poll), rs, LastSent(p, e, n), PollEnd(rs, e));
    StartIsInjective(rs, p, j);
    StartIsInjective(rs, j, PollEnd(rs, e));
    StretchMisses(rs, w.consumer.sent, before, FirstNew(p, e), n, j);
  }

  /** While nothing is committed, a lost record stays lost. */
  lemma LostStays(config: Config, w: World, rs: seq<Record>, p: nat, e: nat, before: nat, j: nat, op: ConsumerOp)
    requires ValidQueue(config, w.queue) && Trails(config, w, rs, p, e) && Lost(w, rs, before, j)
    requires !op.Seek? && !op.Commit? && LeavesAlone(config, w.consumer.topic, w.consumer.id, op)
    ensures Lost(Step(config, w, op), rs + AddedBy(w.consumer.topic, op), before, j)
  {
    hide Start, Trails, Entries, Step, ValidQueue, Room, NewCount, PollEnd, Slice, LeavesAlone, NeverSent;
    RecordsGrow(rs, AddedBy(w.consumer.topic, op));
    TrailBounds(config, w, rs, p, e);
    StartIsInjective(rs, j, e);
    var p', e' := StepTrails(config, w, rs, p, e, op);
    TrailBounds(config, Step(config, w, op), rs + AddedBy(w.consumer.topic, op), p', e');
    if !op.Poll? {
      StepSendsNothing(config, w, op);
    } else if w.queue.closed || Start(rs, |rs|) >= TWO_32 {
      RefusedPollTrails(config, w, rs, p, e);
      TrailBounds(config, Step(config, w, op), rs, p, e);
    } else {
      assert rs + [] == rs;
      PollTrails(config, w, rs, p, e);
      CountsOf(rs, p, e);
      var n := Room(w.consumer, NewCount(rs, p, e));
      RoomBelow(w.consumer, NewCount(rs, p, e));
      TrailBounds(config, Step(config, w, op), rs, LastSent(p, e, n), PollEnd(rs, e));
      StartIncreases(rs, e, PollEnd(rs, e));
      StretchMisses(rs, w.consumer.sent, before, FirstNew(p, e), n, j);
    }
  }

  lemma {:induction false} RunStaysLost(config: Config, w: World, rs: seq<Record>, p: nat, e: nat, before: nat, j: nat,
                                        ops: seq<ConsumerOp>)
    requires ValidQueue(config, w.queue) && Trails(config, w, rs, p, e) && Lost(w, rs, before, j)
    requires Undisturbed(config, w.consumer.topic, w.consumer.id, ops) && NoCommits(ops)
    ensures Lost(Run(config, w, ops), rs + Added(w.consumer.topic, ops), before, j)
  {
    if ops == [] {
      assert rs + [] == rs;
    } else {
      hide Step, Trails, Lost, LeavesAlone, ValidQueue;
      var n := |ops| - 1;
      RunStaysLost(config, w, rs, p, e, before, j, ops[..n]);
      var pm, em := RunTrails(config, w, rs, p, e, ops[..n]);
      AddedGrows(w.consumer.topic, ops, rs);
      LostStays(config, Run(config, w, ops[..n]), rs + Added(w.consumer.topic, ops[..n]), pm, em, before, j, ops[n]);
    }
  }

  /**
   * A record that a poll read but found no room for is never sent while nothing is committed, however
   * often the consumer polls afterwards, wherever its catalog stood before that poll.
   */
  lemma UncommittedPollLoses(config: Config, w: World, rs: seq<Record>, p: nat, e: nat, before: nat,
                             ops: seq<ConsumerOp>, j: nat)
    requires ValidQueue(config, w.queue) && Trails(config, w, rs, p, e) && SentUpTo(w, before)
    requires !w.queue.closed && Start(rs, |rs|) < TWO_32
    requires FirstNew(p, e) + Room(w.consumer, NewCount(rs, p, e)) <= j < PollEnd(rs, e)
    requires Undisturbed(config, w.consumer.topic, w.consumer.id, ops) && NoCommits(ops)
    ensures NeverSent(Run(config, Step(config, w, Poll), ops).consumer.sent, before, Start(rs, j))
  {
    hide Run, Step, Trails, LeavesAlone, ValidQueue, Undisturbed, NoCommits, Start, Room, NewCount, PollEnd;
    TrailBounds(config, w, rs, p, e);
    ReadNotSent(config, w, rs, p, e, before, j);
    PollTrails(config, w, rs, p, e);
    var n := Room(w.consumer, NewCount(rs, p, e));
    RunStaysLost(config, Step(config, w, Poll), rs, LastSent(p, e, n), PollEnd(rs, e), before, j, ops);
    RecordsGrow(rs, Added(w.consumer.topic, ops));
  }

  lemma ShortPollLoses(config: Config, w: World, rs: seq<Record>, k: nat, before: nat) returns (j: nat)
    requires ValidQueue(config, w.queue) && OnTrack(config, w, rs, k, before, false) && !HasRoom(config, w)
    ensures k < j && Lost(Step(config, w, Poll), rs, before, j)
  {
    hide Start, Trails, Step, ValidQueue, PollNews, Streams, Lost, Room, NewCount, PollEnd;
    StreamBounds(rs, k, before, w.consumer.sent, w.consumer.offset);
    StreamIsSentUpTo(w, rs, k, before);
    var p := k + (|w.consumer.sent| - before);
    var e: nat :| Trails(config, w, rs, p, e) && e <= p + 1;
    if w.queue.closed || Start(rs, |rs|) >= TWO_32 {
      RefusedPollTrails(config, w, rs, p, e);
    } else {
      TrailBounds(config, w, rs, p, e);
      PollFrom(config, w, rs, p, e);
      CountsOf(rs, p, e);
      RoomBelow(w.consumer, NewCount(rs, p, e));
      j := FirstNew(p, e) + Room(w.consumer, NewCount(rs, p, e));
      ReadNotSent(config, w, rs, p, e, before, j);
    }
  }

  lemma {:induction false} ShortRunLoses(config: Config, w: World, rs: seq<Record>, k: nat, before: nat,
                                         ops: seq<ConsumerOp>) returns (j: nat)
    requires ValidQueue(config, w.queue) && OnTrack(config, w, rs, k, before, false)
    requires Undisturbed(config, w.consumer.topic, w.consumer.id, ops) && NoCommits(ops)
    requires !AlwaysRoom(config, w, ops)
    ensures k < j && Lost(Run(config, w, ops), rs + Added(w.consumer.topic, ops), before, j)
  {
    hide Step, Trails, Lost, LeavesAlone, ValidQueue, Streams, HasRoom, Short, Unbroken;
    var n := |ops| - 1;
    var mid, some := Run(config, w, ops[..n]), rs + Added(w.consumer.topic, ops[..n]);
    AddedGrows(w.consumer.topic, ops, rs);
    if AlwaysRoom(config, w, ops[..n]) {
      ShortWithoutCommits(config, w, ops[..n]);
      StreamExactly(config, w, rs, k, before, ops[..n]);
      j := ShortPollLoses(config, mid, some, k, before);
      assert some + [] == some;
    } else {
      j := ShortRunLoses(config, w, rs, k, before, ops[..n]);
      var p, e := TrackTrails(config, w, rs, k, before, false);
      var pm, em := RunTrails(config, w, rs, p, e, ops[..n]);
      LostStays(config, mid, some, pm, em, before, j, ops[n]);
    }
  }

  lemma TrackSendsAll(config: Config, w: World, rs: seq<Record>, k: nat, before: nat)
    requires OnTrack(config, w, rs, k, before, false)
    ensures w.consumer.topic in w.queue.topics && AllReadSent(w, rs, k, before)
  {
    hide Start, Entries, TopicHolds;
    var sent, p := w.consumer.sent, k + (|w.consumer.sent| - before);
    var e: nat :| Trails(config, w, rs, p, e) && e <= p + 1;
    forall j | k < j < |rs| && Start(rs, j) < CatalogOffset(w)
      ensures !NeverSent(sent, before, Start(rs, j))
    {
      StartIsInjective(rs, j, e);
      StreamedRecord(rs, k, before, sent, w.consumer.offset, before + (j - k - 1));
    }
  }

  /**
   * The consumer's own loop never commits. Then every record it reads is sent if and only if each poll
   * had room for its new messages, and as long as that is so the stream has no gap. Room for ten
   * messages is room enough (RoomForTen).
   */
  lemma UncommittedStream(config: Config, w: World, rs: seq<Record>, k: nat, before: nat, ops: seq<ConsumerOp>)
    requires ValidQueue(config, w.queue) && OnTrack(config, w, rs, k, before, false)
    requires Undisturbed(config, w.consumer.topic, w.consumer.id, ops) && NoCommits(ops)
    ensures var end, all := Run(config, w, ops), rs + Added(w.consumer.topic, ops);
            && end.consumer.topic in end.queue.topics
            && (AllReadSent(end, all, k, before) <==> AlwaysRoom(config, w, ops))
            && (AlwaysRoom(config, w, ops) ==> Streams(all, k, before, end.consumer.sent, end.consumer.offset))
  {
    hide Run, Undisturbed, NoCommits, AlwaysRoom, OnTrack, Short, Unbroken, Streams, ValidQueue, NeverSent, Start;
    ShortWithoutCommits(config, w, ops);
    StreamExactly(config, w, rs, k, before, ops);
    var end, all := Run(config, w, ops), rs + Added(w.consumer.topic, ops);
    if AlwaysRoom(config, w, ops) {
      TrackSendsAll(config, end, all, k, before);
    } else {
      var j := ShortRunLoses(config, w, rs, k, before, ops);
    }
  }

  // ---------- One consumer takes over from another ----------

  /** What NewConsumer makes for the same name and topic: it starts at the catalog's offset with an empty channel. */
  function Newcomer(w: World): World
    requires w.consumer.topic in w.queue.topics
  {
    World(w.queue, ConsumerState(w.consumer.topic, w.consumer.id, CatalogOffset(w), [], 0))
  }

  lemma StreamsJoin(rs: seq<Record>, more: seq<Record>, k: nat, before: nat, sent: seq<LogEntry>, offset: Int64,
                    next: seq<LogEntry>, last: Int64)
    requires Streams(rs, k, before, sent, offset)
    requires Streams(rs + more, k + (|sent| - before), 0, next, last)
    ensures Streams(rs + more, k, 0, sent[before..] + next, last)
  {
    hide Start, Entries;
    StreamsOfMore(rs, more, k, before, sent, offset);
    var es, d := Entries(0, rs + more), |sent| - before;
    assert next[0..] == next;
    var joined := sent[before..] + next;
    assert joined[0..] == joined;
    if |next| > 0 {
      assert es[k + 1..k + 1 + d] + es[k + d + 1..k + d + 1 + |next|] == es[k + 1..k + 1 + |joined|];
    } else {
      assert joined == sent[before..];
    }
  }

  lemma NewcomerTrails(config: Config, w: World, rs: seq<Record>, p: nat, e: nat)
    requires Trails(config, w, rs, p, e)
    ensures Trails(config, Newcomer(w), rs, e, e)
  {
    hide TopicAt, TopicRuns.HoldsRecords, QueueRuns.Alone, Start;
  }

  /** The newcomer's own stream begins at the catalog's record. */
  lemma NewcomerStreams(config: Config, w: World, rs: seq<Record>, p: nat, e: nat, ops: seq<ConsumerOp>)
    requires ValidQueue(config, w.queue) && Trails(config, w, rs, p, e)
    requires Undisturbed(config, w.consumer.topic, w.consumer.id, ops)
    ensures e <= |rs| && w.consumer.topic in w.queue.topics
    ensures var end := Run(config, Newcomer(w), ops);
            Unbroken(config, Newcomer(w), ops) ==>
              Streams(rs + Added(w.consumer.topic, ops), e, 0, end.consumer.sent, end.consumer.offset)
  {
    hide Run, Trails, OnTrack, Undisturbed, Streams, Unbroken, Short, ValidQueue, Start, CatalogOffset;
    TrailBounds(config, w, rs, p, e);
    NewcomerTrails(config, w, rs, p, e);
    StartsOnTrack(config, Newcomer(w), rs, e);
    StreamExactly(config, Newcomer(w), rs, e, 0, ops);
  }

  lemma StreamsApart(rs: seq<Record>, k: nat, d: nat, e: nat, sent: seq<LogEntry>, next: seq<LogEntry>, last: Int64)
    requires k + d != e && |sent| == d && Streams(rs, e, 0, next, last)
    ensures !Streams(rs, k, 0, sent + next, last)
  {
    hide Start, Entries;
    if Streams(rs, k, 0, sent + next, last) {
      StartIsInjective(rs, e + |next|, k + d + |next|);
    }
  }

  /**
   * Hand-over, exactly. After any run of polls and commits, on the same queue or on one that was opened
   * again, a new consumer of the same name continues the stream, the two channels together carrying one
   * stretch of the log, if and only if the catalog stands where the old consumer does.
   */
  lemma HandOverExactly(config: Config, w: World, rs: seq<Record>, k: nat, before: nat, e: nat, ops: seq<ConsumerOp>)
    requires ValidQueue(config, w.queue) && Streams(rs, k, before, w.consumer.sent, w.consumer.offset)
    requires Trails(config, w, rs, k + (|w.consumer.sent| - before), e)
    requires Undisturbed(config, w.consumer.topic, w.consumer.id, ops)
    ensures var end, all := Run(config, Newcomer(w), ops), rs + Added(w.consumer.topic, ops);
            Unbroken(config, Newcomer(w), ops) ==>
              (Streams(all, k, 0, w.consumer.sent[before..] + end.consumer.sent, end.consumer.offset) <==>
                 CatalogOffset(w) == w.consumer.offset)
  {
    hide Run, Trails, Undisturbed, Streams, Unbroken, ValidQueue, Start, CatalogOffset;
    StreamBounds(rs, k, before, w.consumer.sent, w.consumer.offset);
    var d := |w.consumer.sent| - before;
    TrailBounds(config, w, rs, k + d, e);
    NewcomerStreams(config, w, rs, k + d, e, ops);
    StartIsInjective(rs, k + d, e);
    var end, added := Run(config, Newcomer(w), ops), Added(w.consumer.topic, ops);
    if Unbroken(config, Newcomer(w), ops) {
      if e == k + d {
        StreamsJoin(rs, added, k, before, w.consumer.sent, w.consumer.offset, end.consumer.sent, end.consumer.offset);
      } else {
        StreamsApart(rs + added, k, d, e, w.consumer.sent[before..], end.consumer.sent, end.consumer.offset);
      }
    }
  }

  /**
   * Otherwise the record at the catalog's offset is skipped for good: everything the old consumer was
   * sent lies before it, and everything a new consumer of the name will ever be sent, whatever others
   * do, lies behind it.
   */
  lemma HandOverSkips(config: Config, w: World, rs: seq<Record>, p: nat, e: nat, before: nat, ops: seq<ConsumerOp>)
    requires ValidQueue(config, w.queue) && Trails(config, w, rs, p, e) && SentUpTo(w, before)
    requires CatalogOffset(w) != w.consumer.offset
    requires forall i | 0 <= i < |ops| :: !ops[i].Seek?
    ensures forall i | before <= i < |w.consumer.sent| :: w.consumer.sent[i].offset < CatalogOffset(w)
    ensures var end := Run(config, Newcomer(w), ops);
            forall i | 0 <= i < |end.consumer.sent| :: end.consumer.sent[i].offset > CatalogOffset(w)
  {
    hide Run, Trails, ValidQueue, Start, CatalogOffset;
    TrailBounds(config, w, rs, p, e);
    StartIsInjective(rs, p, e);
    var start := Newcomer(w);
    forall i | 0 <= i < |Run(config, start, ops).consumer.sent|
      ensures Run(config, start, ops).consumer.sent[i].offset > CatalogOffset(w)
    {
      StartingMessageIsSkipped(config, start, ops, i);
    }
  }

  /** A new consumer on the same queue, after a disciplined run that did not stop between a poll and its commit. */
  lemma HandOver(config: Config, w: World, rs: seq<Record>, k: nat, ops: seq<ConsumerOp>, more: seq<ConsumerOp>)
    requires ValidQueue(config, w.queue) && Trails(config, w, rs, k, k)
    requires Undisturbed(config, w.consumer.topic, w.consumer.id, ops) && Disciplined(ops) && !PollPending(ops)
    requires Undisturbed(config, w.consumer.topic, w.consumer.id, more) && Disciplined(more)
    ensures var topic := w.consumer.topic;
            var mid := Run(config, w, ops);
            && mid.consumer.topic in mid.queue.topics && w.consumer.sent <= mid.consumer.sent
            && (!mid.queue.closed ==>
                  var end := Run(config, Newcomer(mid), more);
                  Streams(rs + Added(topic, ops) + Added(topic, more), k, 0,
                          mid.consumer.sent[|w.consumer.sent|..] + end.consumer.sent, end.consumer.offset))
  {
    hide Run, Trails, Disciplined, Added, Streams, PollPending, Undisturbed, Unbroken, ValidQueue, Start, Newcomer;
    CommittedStream(config, w, rs, k, ops);
    RunKeepsSent(config, w, ops);
    var mid, some := Run(config, w, ops), rs + Added(w.consumer.topic, ops);
    var p, e := RunTrails(config, w, rs, k, k, ops);
    TrailBounds(config, mid, some, p, e);
    StreamBounds(some, k, |w.consumer.sent|, mid.consumer.sent, mid.consumer.offset);
    StartIsInjective(some, p, k + (|mid.consumer.sent| - |w.consumer.sent|));
    NewcomerTrails(config, mid, some, p, e);
    NewcomerKeepsName(mid);
    DisciplineSuffices(config, Newcomer(mid), some, e, e, more);
    HandOverExactly(config, mid, some, k, |w.consumer.sent|, e, more);
  }

  lemma NewcomerKeepsName(w: World)
    requires w.consumer.topic in w.queue.topics
    ensures KeepsName(w, Newcomer(w)) && Newcomer(w).queue == w.queue
  {
  }

  /** The queue after its topics were written out, or closed. */
  function Stopped(config: Config, q: QueueState, order: seq<string>, cleanly: bool): QueueState {
    if cleanly then QueueClose(config, q, order).0 else QueueSync(config, q, order).0
  }

  lemma StoppedIsValid(config: Config, q: QueueState, order: seq<string>, cleanly: bool)
    requires ValidQueue(config, q)
    ensures ValidQueue(config, Stopped(config, q, order, cleanly))
    ensures Stopped(config, q, order, cleanly).topics.Keys == q.topics.Keys
  {
    hide ValidQueue, SyncAll, CloseAll, SyncFailures, CloseFailures;
    QueueCloseKeepsValid(config, q, order);
    CloseAllKeepsValid(config, q, order);
    SyncAllKeepsValid(config, q, order);
  }

  lemma StoppedTopic(config: Config, q: QueueState, topic: string, order: seq<string>, cleanly: bool)
    requires ValidQueue(config, q) && QueueRuns.Alone(config, q, topic) && !q.closed
    requires topic in q.topics && !q.topics[topic].closed && topic in order
    ensures var next, st := Stopped(config, q, order, cleanly), TopicAt(config, q, topic);
            && topic in next.topics && OnDisk(TopicAt(config, next, topic)) == OnDisk(Saved(st))
            && QueueRuns.Alone(config, next, topic)
  {
    hide Home, ValidQueue, QueueRuns.Alone, SyncAll, CloseAll, SyncFailures, CloseFailures, Saved;
    if cleanly {
      QueueRuns.CloseAllSeen(config, q, order, topic);
      QueueRuns.ClosedQueueSeen(config, CloseAll(config, q, order), topic);
    } else {
      QueueRuns.SyncAllSeen(config, q, order, topic);
    }
  }

  /** Reloading a saved topic that holds rs gives the records and the offsets back. */
  lemma ReloadedHolds(st: TopicState, rs: seq<Record>)
    requires TopicRuns.HoldsRecords(st, rs) && ValidCatalog(st.catalog)
    ensures var back := Initialized(OnDisk(Saved(st)));
            && TopicRuns.HoldsRecords(back, rs) && ValidCatalog(back.catalog) && !back.closed
            && back.catalog.consumers == st.catalog.consumers
  {
    TopicRuns.HeldIsValid(st, rs);
    hide TopicRuns.HoldsRecords, ValidLog, Opened;
    ReopenIsIdentity(st.log);
    SameLogHolds(st, Initialized(OnDisk(Saved(st))), rs);
  }

  lemma SameLogHolds(a: TopicState, b: TopicState, rs: seq<Record>)
    requires TopicRuns.HoldsRecords(a, rs) && a.log == b.log
    ensures TopicRuns.HoldsRecords(b, rs)
  {
  }

  /** Written out or closed, and opened again, the queue holds the records and the consumer's offset as before. */
  lemma ReopenedHolds(config: Config, w: World, rs: seq<Record>, order: seq<string>, cleanly: bool,
                      listing: seq<string>)
    requires ValidQueue(config, w.queue) && TopicHolds(config, w, rs) && Plain(w.consumer.topic)
    requires w.consumer.topic in order
    requires Lists(listing, Children(config.root, Stopped(config, w.queue, order, cleanly).disks.Keys))
    ensures ValidQueue(config, Unopened(Stopped(config, w.queue, order, cleanly).disks))
    ensures var back := Reopened(config, Stopped(config, w.queue, order, cleanly), listing);
            && ValidQueue(config, back)
            && TopicHolds(config, World(back, w.consumer), rs)
            && CatalogOffset(World(back, w.consumer)) == CatalogOffset(w)
  {
    var topic := w.consumer.topic;
    var stopped := Stopped(config, w.queue, order, cleanly);
    var st := TopicAt(config, w.queue, topic);
    StoppedIsValid(config, w.queue, order, cleanly);
    StoppedTopic(config, w.queue, topic, order, cleanly);
    QueueRestarts.NothingOpen(config, stopped.disks, topic);
    hide Home, ValidQueue, Plain, Stopped, Saved, Initialized, Children, TopicRuns.HoldsRecords,
         ValidCatalog, Reopened, TopicAt, QueueRuns.Clear, CanOpen, Writable;
    QueueRuns.ClearDirectoryServes(stopped.disks, Home(config, topic));
    hide QueueRuns.Alone;
    QueueRestarts.DirectoryIsListed(config, stopped, topic);
    QueueRestarts.ReopenedTopic(config, stopped, topic, listing);
    ReloadedHolds(st, rs);
  }

  /**
   * Across a restart: the queue is written out or closed and opened again. Where the consumer and its
   * catalog stood before they stand after, so a hand-over is seamless under the same condition.
   */
  lemma RestartTrails(config: Config, w: World, rs: seq<Record>, p: nat, e: nat,
                      order: seq<string>, cleanly: bool, listing: seq<string>)
    requires ValidQueue(config, w.queue) && Trails(config, w, rs, p, e) && !w.queue.closed && Plain(w.consumer.topic)
    requires w.consumer.topic in order
    requires Lists(listing, Children(config.root, Stopped(config, w.queue, order, cleanly).disks.Keys))
    ensures ValidQueue(config, Unopened(Stopped(config, w.queue, order, cleanly).disks))
    ensures var back := Reopened(config, Stopped(config, w.queue, order, cleanly), listing);
            ValidQueue(config, back) && Trails(config, World(back, w.consumer), rs, p, e)
  {
    hide Start, Stopped, Plain, Lists, Children, ValidQueue, Reopened, TopicHolds, CatalogOffset;
    ReopenedHolds(config, w, rs, order, cleanly, listing);
    var back := Reopened(config, Stopped(config, w.queue, order, cleanly), listing);
    TopicIsHeld(config, World(back, w.consumer), rs);
  }

  /** A new consumer after a restart: seamless exactly when the catalog stood where the old consumer did. */
  lemma HandOverAcrossRestart(config: Config, w: World, rs: seq<Record>, k: nat, before: nat, e: nat,
                              order: seq<string>, cleanly: bool, listing: seq<string>, ops: seq<ConsumerOp>)
    requires ValidQueue(config, w.queue) && Streams(rs, k, before, w.consumer.sent, w.consumer.offset)
    requires Trails(config, w, rs, k + (|w.consumer.sent| - before), e) && !w.queue.closed && Plain(w.consumer.topic)
    requires w.consumer.topic in order
    requires Lists(listing, Children(config.root, Stopped(config, w.queue, order, cleanly).disks.Keys))
    requires Undisturbed(config, w.consumer.topic, w.consumer.id, ops)
    ensures ValidQueue(config, Unopened(Stopped(config, w.queue, order, cleanly).disks))
    ensures var back := Reopened(config, Stopped(config, w.queue, order, cleanly), listing);
            && ValidQueue(config, back) && w.consumer.topic in back.topics
            && var start := Newcomer(World(back, w.consumer));
               var end, all := Run(config, start, ops), rs + Added(w.consumer.topic, ops);
               Unbroken(config, start, ops) ==>
                 (Streams(all, k, 0, w.consumer.sent[before..] + end.consumer.sent, end.consumer.offset) <==>
                    CatalogOffset(w) == w.consumer.offset)
  {
    hide Start, Stopped, Plain, Lists, Children, ValidQueue, Reopened, Trails, Run, Streams, Unbroken, Undisturbed,
         CatalogOffset;
    StreamBounds(rs, k, before, w.consumer.sent, w.consumer.offset);
    var p := k + (|w.consumer.sent| - before);
    RestartTrails(config, w, rs, p, e, order, cleanly, listing);
    var back := World(Reopened(config, Stopped(config, w.queue, order, cleanly), listing), w.consumer);
    TrailBounds(config, w, rs, p, e);
    TrailBounds(config, back, rs, p, e);
    HandOverExactly(config, back, rs, k, before, e, ops);
  }
}
