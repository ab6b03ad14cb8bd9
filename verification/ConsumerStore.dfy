/** A polling consumer: its own offset, and a bounded channel it sends on (pkg/queue/consumer.go). */
module ConsumerStore {
  import opened Numbers
  import opened Results
  import opened Offsets
  import opened SegmentLog
  import opened CatalogStore
  import opened TopicStore
  import opened QueueStore

  const CHANNEL_CAPACITY: nat := 100
  const POLL_LIMIT: nat := 10

  /** offset is c.offset; sent is all that was ever sent on the channel, of which the last buffered are still in it. */
  datatype ConsumerState = ConsumerState(topic: string, id: string, offset: Int64, sent: seq<LogEntry>, buffered: nat)

  /** One message goes into the channel and becomes the last delivered one. */
  function Sent(c: ConsumerState, m: LogEntry): ConsumerState {
    c.(offset := m.offset, sent := c.sent + [m], buffered := c.buffered + 1)
  }

  /** The loop of pollMessages: messages not above floor are skipped, and a full channel ends the loop. */
  function Deliver(c: ConsumerState, floor: Int64, batch: seq<LogEntry>): ConsumerState
    decreases |batch|
  {
    if batch == [] then c
    else if batch[0].offset <= floor then Deliver(c, floor, batch[1..])
    else if c.buffered < CHANNEL_CAPACITY then Deliver(Sent(c, batch[0]), floor, batch[1..])
    else c
  }

  function PollStep(config: Config, q: QueueState, c: ConsumerState)
      : (QueueState, ConsumerState, Result<(), QueueError>)
  {
    var (next, result) := QueueDequeue(config, q, c.topic, c.id, POLL_LIMIT);
    match result
    case Err(e) => (next, c, Err(e))
    case Ok(batch) => (next, Deliver(c, c.offset, batch), Ok(()))
  }

  /** CommitOffset writes "last delivered" where Dequeue keeps "next unread". */
  function CommitStep(config: Config, q: QueueState, c: ConsumerState): (QueueState, Result<(), QueueError>) {
    QueueSetOffset(config, q, c.topic, c.id, c.offset)
  }

  function SeekStep(config: Config, q: QueueState, c: ConsumerState, offset: Int64)
      : (QueueState, ConsumerState, Result<(), QueueError>) {
    var (next, result) := QueueSetOffset(config, q, c.topic, c.id, offset);
    (next, c.(offset := offset), result)
  }

  /** A receiver takes the oldest buffered message. */
  function ReceiveStep(c: ConsumerState): ConsumerState {
    if c.buffered == 0 then c else c.(buffered := c.buffered - 1)
  }

  /** GetLag: the topic's size less the last delivered offset, never negative. */
  function Lag(size: Int64, offset: Int64): Int64 {
    var lag := Wrap64(size - offset);
    if lag < 0 then 0 else lag
  }

  /** The messages of a batch above floor. */
  function Newer(floor: Int64, batch: seq<LogEntry>): (news: seq<LogEntry>)
    ensures forall i | 0 <= i < |news| :: news[i].offset > floor
  {
    if batch == [] then []
    else (if batch[0].offset > floor then [batch[0]] else []) + Newer(floor, batch[1..])
  }

  /** How many of n messages the channel still takes. */
  function Room(c: ConsumerState, n: nat): nat {
    if c.buffered >= CHANNEL_CAPACITY then 0
    else if n <= CHANNEL_CAPACITY - c.buffered then n
    else CHANNEL_CAPACITY - c.buffered
  }

  /** What one poll sends: the new messages of the batch, cut where the channel is full; the offset follows the last. */
  lemma {:induction false} DeliverSendsNewer(c: ConsumerState, floor: Int64, batch: seq<LogEntry>)
    ensures var news := Newer(floor, batch);
            Deliver(c, floor, batch) == AfterSending(c, news[..Room(c, |news|)])
    decreases |batch|
  {
    if batch == [] {
      SendingNothing(c);
    } else if batch[0].offset <= floor {
      assert Newer(floor, batch) == Newer(floor, batch[1..]);
      DeliverSendsNewer(c, floor, batch[1..]);
    } else if c.buffered < CHANNEL_CAPACITY {
      var m, rest := batch[0], Newer(floor, batch[1..]);
      var n := Room(c, 1 + |rest|);
      DeliverSendsNewer(Sent(c, m), floor, batch[1..]);
      assert ([m] + rest)[..n] == [m] + rest[..n - 1];
      SendingOneMore(c, m, rest[..n - 1]);
    } else {
      SendingNothing(c);
    }
  }

  /** The consumer after these messages went into the channel. */
  function AfterSending(c: ConsumerState, ms: seq<LogEntry>): (d: ConsumerState)
    ensures d.topic == c.topic && d.id == c.id
    ensures d.sent == c.sent + ms
    ensures d.offset == if ms == [] then c.offset else ms[|ms| - 1].offset
  {
    c.(sent := c.sent + ms, buffered := c.buffered + |ms|,
       offset := if ms == [] then c.offset else ms[|ms| - 1].offset)
  }

  lemma SendingNothing(c: ConsumerState)
    ensures AfterSending(c, []) == c
  {
    assert c.sent + [] == c.sent;
  }

  lemma SendingOneMore(c: ConsumerState, m: LogEntry, ms: seq<LogEntry>)
    ensures AfterSending(Sent(c, m), ms) == AfterSending(c, [m] + ms)
  {
    assert c.sent + [m] + ms == c.sent + ([m] + ms);
  }

  datatype ConsumerError = EmptyConsumerId | EmptyTopic | NoTopic

  class Consumer {
    const id: string
    const topicName: string
    const queue: Queue
    var offset: Int64
    var messageChan: seq<LogEntry>
    ghost var sent: seq<LogEntry>

    ghost predicate Valid()
      reads this, queue, queue.Repr
    {
      && queue.Valid() && this !in queue.Repr
      && |messageChan| <= |sent| && messageChan == sent[|sent| - |messageChan|..]
    }

    ghost function State(): ConsumerState
      reads this
    {
      ConsumerState(topicName, id, offset, sent, |messageChan|)
    }

    constructor (id: string, topicName: string, queue: Queue, offset: Int64)
      requires queue.Valid()
      ensures Valid() && this.queue == queue
      ensures State() == ConsumerState(topicName, id, offset, [], 0)
    {
      hide Queue.Valid, Queue.State;
      this.id := id;
      this.topicName := topicName;
      this.queue := queue;
      this.offset := offset;
      this.messageChan := [];
      this.sent := [];
    }

    /** NewConsumer: a consumer starts at whatever offset the catalog holds for it. */
    static method NewConsumer(id: string, topicName: string, queue: Queue)
        returns (result: Result<Consumer, ConsumerError>)
      requires queue.Valid()
      ensures id == "" ==> result == Err(EmptyConsumerId)
      ensures id != "" && topicName == "" ==> result == Err(EmptyTopic)
      ensures id != "" && topicName != "" && topicName !in queue.State().topics ==> result == Err(NoTopic)
      ensures id != "" && topicName != "" && topicName in queue.State().topics ==>
                && result.Ok? && fresh(result.value) && result.value.Valid() && result.value.queue == queue
                && result.value.State() == ConsumerState(topicName, id,
                     OffsetOf(queue.State().topics[topicName].consumers, id), [], 0)
    {
      if id == "" {
        return Err(EmptyConsumerId);
      }
      if topicName == "" {
        return Err(EmptyTopic);
      }
      hide Queue.Valid, Queue.State, OffsetOf;
      var start := queue.GetConsumerOffset(topicName, id);
      if start.Err? {
        return Err(NoTopic);
      }
      var consumer := new Consumer(id, topicName, queue, start.value);
      return Ok(consumer);
    }

    method PollMessages() returns (result: Result<(), QueueError>)
      requires Valid()
      modifies this, queue.Repr
      ensures Valid()
      ensures (queue.State(), State(), result) == PollStep(queue.config, old(queue.State()), old(State()))
    {
      hide Queue.Valid, Queue.State, QueueDequeue, Deliver;
      var currentOffset := offset;
      var messages := queue.DequeueWithLimit(topicName, id, POLL_LIMIT);
      if messages.Err? {
        return Err(messages.error);
      }
      SendNew(currentOffset, messages.value);
      return Ok(());
    }

    /** pollMessages' loop over a batch. */
    method SendNew(currentOffset: Int64, messages: seq<LogEntry>)
      requires |messageChan| <= |sent| && messageChan == sent[|sent| - |messageChan|..]
      modifies this
      ensures |messageChan| <= |sent| && messageChan == sent[|sent| - |messageChan|..]
      ensures State() == Deliver(old(State()), currentOffset, messages)
    {
      assert messages[0..] == messages;
      for i := 0 to |messages|
        invariant |messageChan| <= |sent| && messageChan == sent[|sent| - |messageChan|..]
        invariant Deliver(old(State()), currentOffset, messages) == Deliver(State(), currentOffset, messages[i..])
      {
        var message := messages[i];
        assert messages[i..][1..] == messages[i + 1..];
        if message.offset > currentOffset {
          if |messageChan| < CHANNEL_CAPACITY {
            messageChan := messageChan + [message];
            sent := sent + [message];
            offset := message.offset;
          } else {
            return;
          }
        }
      }
    }

    method Receive() returns (message: Option<LogEntry>)
      requires Valid()
      modifies this
      ensures Valid() && State() == ReceiveStep(old(State()))
      ensures message == if old(messageChan) == [] then None else Some(old(messageChan)[0])
    {
      hide Queue.Valid;
      if messageChan == [] {
        return None;
      }
      message := Some(messageChan[0]);
      messageChan := messageChan[1..];
    }

    method CommitOffset() returns (result: Result<(), QueueError>)
      requires Valid()
      modifies queue.Repr
      ensures Valid() && State() == old(State())
      ensures (queue.State(), result) == CommitStep(queue.config, old(queue.State()), State())
    {
      hide Queue.Valid, Queue.State, QueueSetOffset;
      result := queue.UpdateConsumerOffset(topicName, id, offset);
    }

    method GetLag() returns (result: Result<Int64, QueueError>)
      requires Valid()
      ensures topicName !in queue.State().topics ==> result == Err(NoSuchTopic)
      ensures topicName in queue.State().topics ==>
                var m := queue.State().topics[topicName];
                result == Ok(Lag(Pack(m.segmentIndex, m.currentSize), offset))
    {
      hide Queue.Valid, Queue.State, Pack, Wrap64;
      var size := queue.GetTopicSize(topicName);
      if size.Err? {
        return size;
      }
      var lag := Wrap64(size.value - offset);
      if lag < 0 {
        lag := 0;
      }
      return Ok(lag);
    }

    method SetOffset(newOffset: Int64) returns (result: Result<(), QueueError>)
      requires Valid()
      modifies this, queue.Repr
      ensures Valid()
      ensures (queue.State(), State(), result) == SeekStep(queue.config, old(queue.State()), old(State()), newOffset)
    {
      hide Queue.Valid, Queue.State, QueueSetOffset;
      offset := newOffset;
      result := queue.UpdateConsumerOffset(topicName, id, newOffset);
    }

    method Reset() returns (result: Result<(), QueueError>)
      requires Valid()
      modifies this, queue.Repr
      ensures Valid()
      ensures (queue.State(), State(), result) == SeekStep(queue.config, old(queue.State()), old(State()), 0)
    {
      hide Queue.Valid, Queue.State, SeekStep;
      result := SetOffset(0);
    }

    /** SeekToEnd: to the topic's packed size; without the topic nothing moves, not even the own offset. */
    method SeekToEnd() returns (result: Result<(), QueueError>)
      requires Valid()
      modifies this, queue.Repr
      ensures Valid()
      ensures topicName !in old(queue.State()).topics ==>
                result == Err(NoSuchTopic) && queue.State() == old(queue.State()) && State() == old(State())
      ensures topicName in old(queue.State()).topics ==>
                var m := old(queue.State()).topics[topicName];
                (queue.State(), State(), result)
                  == SeekStep(queue.config, old(queue.State()), old(State()), Pack(m.segmentIndex, m.currentSize))
    {
      hide Queue.Valid, Queue.State, SeekStep, Pack;
      var size := queue.GetTopicSize(topicName);
      if size.Err? {
        return Err(size.error);
      }
      result := SetOffset(size.value);
    }
  }
}
