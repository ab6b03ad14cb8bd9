/** Runs of one consumer beside arbitrary other users of the queue. */
module ConsumerRuns {
  import opened Numbers
  import opened Results
  import opened Offsets
  import opened Framing
  import opened SegmentLog
  import opened CatalogStore
  import opened TopicStore
  import opened QueueStore
  import opened ConsumerStore
  import QueueRuns
  import QueueReplies

  datatype World = World(queue: QueueState, consumer: ConsumerState)

  /** Others are any operations of other users of the queue, also ones that name this consumer. */
  datatype ConsumerOp = Poll | Receive | Commit | Seek(offset: Int64) | Others(op: QueueRuns.QueueOp)

  function Step(config: Config, w: World, op: ConsumerOp): (r: World)
    requires ValidQueue(config, w.queue)
    ensures ValidQueue(config, r.queue)
  {
    match op
    case Poll =>
      QueueDequeueKeepsValid(config, w.queue, w.consumer.topic, w.consumer.id, POLL_LIMIT);
      var (q, c, _) := PollStep(config, w.queue, w.consumer);
      World(q, c)
    case Receive => World(w.queue, ReceiveStep(w.consumer))
    case Commit =>
      QueueSetOffsetKeepsValid(config, w.queue, w.consumer.topic, w.consumer.id, w.consumer.offset);
      World(CommitStep(config, w.queue, w.consumer).0, w.consumer)
    case Seek(offset) =>
      QueueSetOffsetKeepsValid(config, w.queue, w.consumer.topic, w.consumer.id, offset);
      var (q, c, _) := SeekStep(config, w.queue, w.consumer, offset);
      World(q, c)
    case Others(op) => World(QueueRuns.Step(config, w.queue, op).0, w.consumer)
  }

  function Run(config: Config, w: World, ops: seq<ConsumerOp>): (r: World)
    requires ValidQueue(config, w.queue)
    ensures ValidQueue(config, r.queue)
  {
    if ops == [] then w else Step(config, Run(config, w, ops[..|ops| - 1]), ops[|ops| - 1])
  }

  // ---------- At most once: offsets on the channel strictly increase ----------

  /** The offsets of es strictly increase and all exceed floor. */
  ghost predicate AscendingAbove(floor: int, es: seq<LogEntry>) {
    && (forall i | 0 <= i < |es| :: es[i].offset > floor)
    && (forall i, j | 0 <= i < j < |es| :: es[i].offset < es[j].offset)
  }

  /** Whatever the files hold, a successful read returns offsets that strictly increase from where it began. */
  lemma {:induction false} ReadsAscend(files: Files, offset: Int64)
    requires ReadAll(files, offset).Ok?
    ensures AscendingAbove(offset - 1, ReadAll(files, offset).value)
    ensures ReadAll(files, offset).value != [] ==> offset >= 0
    decreases Distance(files, offset)
  {
    hide ReadAt;
    if Read(files, offset).Ok? {
      var e := Read(files, offset).value;
      ReadMakesProgress(files, offset);
      ReadsAscend(files, NextOffset(e));
      NextOffsetGrows(files, offset);
    }
  }

  lemma NextOffsetGrows(files: Files, offset: Int64)
    requires Read(files, offset).Ok?
    ensures offset >= 0
    ensures NextOffset(Read(files, offset).value) >= 0 ==> NextOffset(Read(files, offset).value) > offset
  {
    DataBelow4GiB(files[SegmentOf(offset)], PositionOf(offset));
  }

  lemma {:induction false} NewerAscends(floor: Int64, low: int, batch: seq<LogEntry>)
    requires AscendingAbove(low, batch)
    ensures AscendingAbove(floor, Newer(floor, batch)) && AscendingAbove(low, Newer(floor, batch))
    decreases |batch|
  {
    if batch != [] {
      assert AscendingAbove(batch[0].offset, batch[1..]);
      NewerAscends(floor, batch[0].offset, batch[1..]);
    }
  }

  /** What was sent since the start ascends above it, and c.offset is the last of it. */
  ghost predicate SentAscending(start: Int64, before: nat, sent: seq<LogEntry>, offset: Int64) {
    && before <= |sent|
    && AscendingAbove(start, sent[before..])
    && offset == if before == |sent| then start else sent[|sent| - 1].offset
  }

  lemma SendingAscends(start: Int64, before: nat, sent: seq<LogEntry>, offset: Int64, more: seq<LogEntry>)
    requires SentAscending(start, before, sent, offset) && AscendingAbove(offset, more)
    ensures SentAscending(start, before, sent + more, if more == [] then offset else more[|more| - 1].offset)
  {
    hide AscendingAbove;
    var es := sent[before..];
    assert (sent + more)[before..] == es + more;
    assert es != [] ==> es[|es| - 1].offset == offset;
    AscendingJoin(start, es, offset, more);
  }

  lemma AscendingJoin(floor: int, es: seq<LogEntry>, last: Int64, more: seq<LogEntry>)
    requires AscendingAbove(floor, es) && AscendingAbove(last, more)
    requires last == if es == [] then floor else es[|es| - 1].offset
    ensures AscendingAbove(floor, es + more)
  {
    if es == [] {
      assert es + more == more;
    } else {
      assert forall i | 0 <= i < |es| :: es[i].offset <= last;
    }
  }

  lemma DeliverAscends(c: ConsumerState, start: Int64, before: nat, low: int, batch: seq<LogEntry>)
    requires SentAscending(start, before, c.sent, c.offset) && AscendingAbove(low, batch)
    ensures var d := Deliver(c, c.offset, batch);
            c.sent <= d.sent && SentAscending(start, before, d.sent, d.offset)
  {
    hide Deliver, Newer, Room, SentAscending;
    DeliverSendsNewer(c, c.offset, batch);
    NewerAscends(c.offset, low, batch);
    var news := Newer(c.offset, batch);
    var n := Room(c, |news|);
    RoomBelow(c, |news|);
    SendingAscends(start, before, c.sent, c.offset, news[..n]);
  }

  lemma PollAscends(config: Config, q: QueueState, c: ConsumerState, start: Int64, before: nat)
    requires SentAscending(start, before, c.sent, c.offset)
    ensures var d := PollStep(config, q, c).1;
            c.sent <= d.sent && SentAscending(start, before, d.sent, d.offset)
  {
    hide Deliver, QueueDequeue, SentAscending;
    var result := QueueDequeue(config, q, c.topic, c.id, POLL_LIMIT).1;
    if result.Ok? {
      BatchAscends(config, q, c.topic, c.id, POLL_LIMIT);
      var low :| AscendingAbove(low, result.value);
      DeliverAscends(c, start, before, low, result.value);
    }
  }

  lemma RoomBelow(c: ConsumerState, n: nat)
    ensures Room(c, n) <= n
  {
  }

  /** Every batch of any queue comes in ascending order of offset. */
  lemma BatchAscends(config: Config, q: QueueState, topic: string, consumer: string, limit: nat)
    requires QueueDequeue(config, q, topic, consumer, limit).1.Ok?
    ensures exists low :: AscendingAbove(low, QueueDequeue(config, q, topic, consumer, limit).1.value)
  {
    hide ReadAll, NextOffset, Home;
    var st := TopicAt(config, q, topic);
    var offset: int := OffsetOf(st.catalog.consumers, consumer);
    ReadsAscend(st.log.files, offset);
    assert AscendingAbove(offset - 1, QueueDequeue(config, q, topic, consumer, limit).1.value);
  }

  /**
   * At most once: until the consumer seeks, the offsets sent on its channel strictly increase over
   * the whole run and exceed the offset it started with, whatever anybody writes to the catalog,
   * whatever is enqueued and however full the channel is. The message at the starting offset itself
   * is never sent.
   */
  lemma {:induction false} ChannelAscends(config: Config, w: World, ops: seq<ConsumerOp>)
    requires ValidQueue(config, w.queue)
    requires forall i | 0 <= i < |ops| :: !ops[i].Seek?
    ensures var c := Run(config, w, ops).consumer;
            w.consumer.sent <= c.sent && SentAscending(w.consumer.offset, |w.consumer.sent|, c.sent, c.offset)
  {
    if ops != [] {
      hide PollStep, CommitStep, ValidQueue;
      var n := |ops| - 1;
      ChannelAscends(config, w, ops[..n]);
      var mid := Run(config, w, ops[..n]);
      if ops[n].Poll? {
        PollAscends(config, mid.queue, mid.consumer, w.consumer.offset, |w.consumer.sent|);
      }
    }
  }

  /** In particular the message at the offset a consumer starts from is never sent to it. */
  lemma StartingMessageIsSkipped(config: Config, w: World, ops: seq<ConsumerOp>, i: nat)
    requires ValidQueue(config, w.queue)
    requires forall j | 0 <= j < |ops| :: !ops[j].Seek?
    requires |w.consumer.sent| <= i < |Run(config, w, ops).consumer.sent|
    ensures Run(config, w, ops).consumer.sent[i].offset > w.consumer.offset
  {
    hide Run;
    ChannelAscends(config, w, ops);
    var before := |w.consumer.sent|;
    assert Run(config, w, ops).consumer.sent[before..][i - before].offset > w.consumer.offset;
  }

  lemma DeliverKeepsName(c: ConsumerState, floor: Int64, batch: seq<LogEntry>)
    ensures Deliver(c, floor, batch).topic == c.topic && Deliver(c, floor, batch).id == c.id
  {
    DeliverSendsNewer(c, floor, batch);
  }

  lemma PollKeepsName(config: Config, q: QueueState, c: ConsumerState)
    ensures PollStep(config, q, c).1.topic == c.topic && PollStep(config, q, c).1.id == c.id
  {
    hide Deliver, QueueDequeue;
    var result := QueueDequeue(config, q, c.topic, c.id, POLL_LIMIT).1;
    if result.Ok? {
      DeliverKeepsName(c, c.offset, result.value);
    }
  }

  /** What was sent stays sent. */
  lemma {:induction false} RunKeepsSent(config: Config, w: World, ops: seq<ConsumerOp>)
    requires ValidQueue(config, w.queue)
    ensures w.consumer.sent <= Run(config, w, ops).consumer.sent
  {
    if ops != [] {
      hide QueueDequeue, Deliver, ValidQueue;
      var n := |ops| - 1;
      RunKeepsSent(config, w, ops[..n]);
      var mid := Run(config, w, ops[..n]);
      var result := QueueDequeue(config, mid.queue, mid.consumer.topic, mid.consumer.id, POLL_LIMIT).1;
      if ops[n].Poll? && result.Ok? {
        DeliverSendsNewer(mid.consumer, mid.consumer.offset, result.value);
      }
    }
  }

  // ---------- Seeking ----------

  /**
   * A seek moves the consumer's own offset whether or not the queue takes it, and nothing else of the
   * consumer; the catalog's offset follows exactly when queue and topic are open, and otherwise the seek
   * is refused and the queue stays as it is.
   */
  lemma SeekMoves(config: Config, w: World, offset: Int64)
    requires ValidQueue(config, w.queue)
    ensures var next, q, c := Step(config, w, Seek(offset)), w.queue, w.consumer;
            && next.consumer == ConsumerState(c.topic, c.id, offset, c.sent, c.buffered)
            && var result := SeekStep(config, q, c, offset).2;
               if !q.closed && c.topic in q.topics && !q.topics[c.topic].closed then
                 var m := q.topics[c.topic];
                 && result == Ok(())
                 && next.queue == q.(topics := q.topics[c.topic := m.(consumers := m.consumers[c.id := offset],
                                                                      catalogDirty := true)])
               else
                 && next.queue == q
                 && result == Err(if q.closed then QueueClosed
                                  else if c.topic !in q.topics then NoSuchTopic
                                  else FromTopic(TopicClosed))
  {
    QueueReplies.SetOffsetReply(config, w.queue, w.consumer.topic, w.consumer.id, offset);
    hide QueueSetOffset, ValidQueue;
  }

  /** A commit is a seek to where the consumer stands. */
  lemma CommitIsSeekToSelf(config: Config, w: World)
    requires ValidQueue(config, w.queue)
    ensures Step(config, w, Commit) == Step(config, w, Seek(w.consumer.offset))
    ensures CommitStep(config, w.queue, w.consumer).1 == SeekStep(config, w.queue, w.consumer, w.consumer.offset).2
  {
    hide QueueSetOffset, ValidQueue;
  }

  /** A poll fails exactly when the Dequeue it makes is refused, with that error, and then moves nothing. */
  lemma PollFailsExactly(config: Config, w: World)
    requires ValidQueue(config, w.queue)
    ensures var c := w.consumer;
            var reply := QueueRuns.Step(config, w.queue, QueueRuns.Dequeue(c.topic, c.id, 10)).1;
            var (q, d, result) := PollStep(config, w.queue, c);
            && (result.Ok? <==> reply.Batch?)
            && (result.Err? ==> reply == QueueRuns.Rejected(result.error) && q == w.queue && d == c)
            && (reply.Batch? && reply.entries == [] ==> q == w.queue && d == c)
  {
    QueueReplies.DequeueReply(config, w.queue, w.consumer.topic, w.consumer.id, 10);
    hide QueueDequeue, ValidQueue, QueueReplies.Found;
  }

  // ---------- The channel ----------

  /** What is still in the channel. */
  function Buffer(c: ConsumerState): seq<LogEntry> {
    if c.buffered <= |c.sent| then c.sent[|c.sent| - c.buffered..] else []
  }

  function Gone(c: ConsumerState, op: ConsumerOp): seq<LogEntry> {
    if op.Receive? && Buffer(c) != [] then [Buffer(c)[0]] else []
  }

  /** What receivers took from the channel over a run. */
  function Taken(config: Config, w: World, ops: seq<ConsumerOp>): seq<LogEntry>
    requires ValidQueue(config, w.queue)
  {
    if ops == [] then []
    else
      var n := |ops| - 1;
      Taken(config, w, ops[..n]) + Gone(Run(config, w, ops[..n]).consumer, ops[n])
  }

  /** The channel never holds more than a hundred messages. */
  ghost predicate InChannel(c: ConsumerState) {
    c.buffered <= |c.sent| && c.buffered <= 100
  }

  lemma DeliverKeepsChannel(c: ConsumerState, floor: Int64, batch: seq<LogEntry>)
    requires InChannel(c)
    ensures var d := Deliver(c, floor, batch);
            InChannel(d) && c.sent <= d.sent && Buffer(d) == Buffer(c) + d.sent[|c.sent|..]
  {
    hide Deliver, Newer;
    DeliverSendsNewer(c, floor, batch);
    var news := Newer(floor, batch);
    var ms := news[..Room(c, |news|)];
    assert (c.sent + ms)[|c.sent|..] == ms;
    assert (c.sent + ms)[|c.sent| - c.buffered..] == Buffer(c) + ms;
  }

  /** A poll that leaves new messages of its batch unsent leaves the channel with a hundred messages in it. */
  lemma {:induction false} ShortOnlyWhenFull(c: ConsumerState, floor: Int64, batch: seq<LogEntry>)
    requires c.buffered <= 100
    ensures var d := Deliver(c, floor, batch);
            |d.sent| < |c.sent| + |Newer(floor, batch)| ==> d.buffered == 100
  {
    var news := Newer(floor, batch);
    DeliverSendsNewer(c, floor, batch);
  }

  lemma PollKeepsChannel(config: Config, q: QueueState, c: ConsumerState)
    requires InChannel(c)
    ensures var d := PollStep(config, q, c).1;
            InChannel(d) && c.sent <= d.sent && Buffer(d) == Buffer(c) + d.sent[|c.sent|..]
  {
    hide QueueDequeue, Deliver, InChannel, Buffer;
    var result := QueueDequeue(config, q, c.topic, c.id, POLL_LIMIT).1;
    if result.Ok? {
      DeliverKeepsChannel(c, c.offset, result.value);
    } else {
      assert Buffer(c) + c.sent[|c.sent|..] == Buffer(c);
    }
  }

  lemma ReceiveKeepsChannel(c: ConsumerState)
    requires InChannel(c)
    ensures var d := ReceiveStep(c);
            InChannel(d) && d.sent == c.sent && Gone(c, Receive) + Buffer(d) == Buffer(c)
  {
  }

  lemma StepKeepsChannel(config: Config, w: World, op: ConsumerOp)
    requires ValidQueue(config, w.queue) && InChannel(w.consumer)
    ensures var c, d := w.consumer, Step(config, w, op).consumer;
            && InChannel(d) && c.sent <= d.sent
            && Gone(c, op) + Buffer(d) == Buffer(c) + d.sent[|c.sent|..]
  {
    hide PollStep, ReceiveStep, CommitStep, ValidQueue, QueueRuns.Step, QueueSetOffset, InChannel, Buffer;
    var c, d := w.consumer, Step(config, w, op).consumer;
    assert Buffer(c) + c.sent[|c.sent|..] == Buffer(c);
    assert [] + Buffer(d) == Buffer(d);
    match op
    case Poll => PollKeepsChannel(config, w.queue, c);
    case Receive => ReceiveKeepsChannel(c);
    case _ => SameChannel(c, d);
  }

  lemma SameChannel(c: ConsumerState, d: ConsumerState)
    requires d.sent == c.sent && d.buffered == c.buffered
    ensures Buffer(d) == Buffer(c) && InChannel(d) == InChannel(c)
  {
  }

  /**
   * First in, first out, and nothing lost: through every run, seeks included, what receivers took followed
   * by what is still in the channel is what was in it at first followed by what was sent since.
   */
  lemma {:induction false} ReceivedInOrder(config: Config, w: World, ops: seq<ConsumerOp>)
    requires ValidQueue(config, w.queue) && InChannel(w.consumer)
    ensures var end := Run(config, w, ops).consumer;
            && InChannel(end) && w.consumer.sent <= end.sent
            && Taken(config, w, ops) + Buffer(end) == Buffer(w.consumer) + end.sent[|w.consumer.sent|..]
  {
    hide Step, Buffer, InChannel, Gone, ValidQueue;
    if ops == [] {
      var c := w.consumer;
      assert [] + Buffer(c) == Buffer(c) + c.sent[|c.sent|..];
    } else {
      var n := |ops| - 1;
      ReceivedInOrder(config, w, ops[..n]);
      var mid := Run(config, w, ops[..n]);
      StepKeepsChannel(config, mid, ops[n]);
      var c, d := mid.consumer, Step(config, mid, ops[n]).consumer;
      assert d.sent[|w.consumer.sent|..] == c.sent[|w.consumer.sent|..] + d.sent[|c.sent|..];
      OneMoreTaken(Taken(config, w, ops[..n]), Buffer(c), Gone(c, ops[n]), Buffer(d), Buffer(w.consumer),
                   c.sent[|w.consumer.sent|..], d.sent[|c.sent|..]);
    }
  }

  lemma OneMoreTaken(taken: seq<LogEntry>, buffer: seq<LogEntry>, gone: seq<LogEntry>, left: seq<LogEntry>,
                     first: seq<LogEntry>, sent: seq<LogEntry>, more: seq<LogEntry>)
    requires taken + buffer == first + sent && gone + left == buffer + more
    ensures taken + gone + left == first + (sent + more)
  {
    assert taken + gone + left == taken + (gone + left) == taken + buffer + more == first + sent + more;
  }

  /** The lag is the distance from the consumer's offset to the topic's size, and zero when it stands behind it. */
  lemma LagIsDistance(size: Int64, offset: Int64)
    requires 0 <= size
    ensures Lag(size, offset) == if 0 < size - offset < TWO_63 then size - offset else 0
  {
  }
}
