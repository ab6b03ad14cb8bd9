/** Runs of a topic: interleavings of producers, consumers, syncs, closes and restarts. */
module TopicRuns {
  import opened Numbers
  import opened Results
  import opened Offsets
  import opened Framing
  import opened SegmentLog
  import opened SegmentReads
  import opened IndexEntries
  import opened IndexStore
  import opened CatalogStore
  import opened TopicStore

  datatype TopicOp =
    | Enqueue(record: Record)
    | Dequeue(consumer: string, limit: nat)
    | SetOffset(consumer: string, offset: Int64)
    | Sync
    | Close
    | Restart

  datatype Reply = Accepted(offset: Int64) | Batch(entries: seq<LogEntry>) | Done | Rejected(error: TopicError)

  function Step(config: Config, st: TopicState, op: TopicOp): (r: (TopicState, Reply))
    requires ValidTopic(st)
    ensures ValidTopic(r.0)
  {
    match op
    case Enqueue(record) =>
      EnqueueKeepsValid(config, st, record);
      var (next, result) := EnqueueStep(config, st, record);
      (next, if result.Ok? then Accepted(result.value) else Rejected(result.error))
    case Dequeue(consumer, limit) =>
      var (next, result) := DequeueStep(st, consumer, limit);
      (next, if result.Ok? then Batch(result.value) else Rejected(result.error))
    case SetOffset(consumer, offset) =>
      var (next, result) := SetOffsetStep(st, consumer, offset);
      (next, if result.Ok? then Done else Rejected(result.error))
    case Sync =>
      SavedKeepsValid(st);
      var (next, result) := SyncStep(st);
      (next, if result.Ok? then Done else Rejected(result.error))
    case Close =>
      SavedKeepsValid(st);
      (CloseStep(st), Done)
    case Restart =>
      RestartKeepsValid(st);
      (RestartStep(st), Done)
  }

  /** The state after a run and the reply to each of its operations. */
  function Run(config: Config, st: TopicState, ops: seq<TopicOp>): (r: (TopicState, seq<Reply>))
    requires ValidTopic(st)
    ensures ValidTopic(r.0) && |r.1| == |ops|
  {
    if ops == [] then (st, [])
    else
      var (mid, replies) := Run(config, st, ops[..|ops| - 1]);
      var (next, reply) := Step(config, mid, ops[|ops| - 1]);
      (next, replies + [reply])
  }

  function Fresh(): (st: TopicState)
    ensures ValidTopic(st) && !st.closed
  {
    InitializedIsValid(EMPTY_DISK);
    Initialized(EMPTY_DISK)
  }

  /** What an operation with this reply adds to the records, and to what the consumer was given. */
  function NewRecords(op: TopicOp, reply: Reply): seq<Record> {
    if op.Enqueue? && reply.Accepted? then [op.record] else []
  }

  function NewEntries(consumer: string, op: TopicOp, reply: Reply): seq<LogEntry> {
    if op.Dequeue? && op.consumer == consumer && reply.Batch? then reply.entries else []
  }

  /** The records whose Enqueue was acknowledged, in order. */
  function Acknowledged(ops: seq<TopicOp>, replies: seq<Reply>): seq<Record>
    requires |ops| == |replies|
  {
    if ops == [] then []
    else
      var n := |ops| - 1;
      Acknowledged(ops[..n], replies[..n]) + NewRecords(ops[n], replies[n])
  }

  /** Everything delivered to one consumer, its batches joined in order. */
  function Delivered(consumer: string, ops: seq<TopicOp>, replies: seq<Reply>): seq<LogEntry>
    requires |ops| == |replies|
  {
    if ops == [] then []
    else
      var n := |ops| - 1;
      Delivered(consumer, ops[..n], replies[..n]) + NewEntries(consumer, ops[n], replies[n])
  }

  /** The topic's only segment holds exactly the records rs. */
  ghost predicate HoldsRecords(st: TopicState, rs: seq<Record>) {
    st.log == LogState(map[0 := Stream(rs)], 0, Start(rs, |rs|))
  }

  lemma WhatIsHeld(st: TopicState, rs: seq<Record>)
    requires HoldsRecords(st, rs)
    ensures st.log.files == map[0 := Stream(rs)] && st.log.currentSize == Start(rs, |rs|)
  {
  }

  /** A log of one segment that holds whole records is in step with its file. */
  lemma HeldIsValid(st: TopicState, rs: seq<Record>)
    requires HoldsRecords(st, rs)
    ensures ValidLog(st.log)
  {
    hide Stream, Start;
    assert st.log.files.Keys == {0};
  }

  lemma FreshHoldsNothing()
    ensures HoldsRecords(Fresh(), [])
    ensures Fresh().index == IndexState([], false, []) && Fresh().catalog == CatalogState(map[], false, None)
  {
  }

  lemma AppendedHolds(rs: seq<Record>, r: Record)
    ensures Appended(LogState(map[0 := Stream(rs)], 0, Start(rs, |rs|)), r)
         == LogState(map[0 := Stream(rs + [r])], 0, Start(rs + [r], |rs + [r]|))
  {
    hide Stream, Frame;
    StreamOfOneMore(rs, r);
    assert Start(rs + [r], |rs| + 1) == Start(rs, |rs|) + FrameSize(r);
  }

  lemma EnqueueHoldsOneMore(config: Config, st: TopicState, rs: seq<Record>, r: Record)
    requires HoldsRecords(st, rs) && !st.closed
    ensures SegmentExists(st.log)
    ensures HoldsRecords(EnqueueStep(config, st, r).0, rs + [r])
    ensures EnqueueStep(config, st, r).1 == Ok(Pack(0, Start(rs, |rs|)))
  {
    hide Pack, Indexed, EnqueueStep, ValidLog, Appended, Stream, Start;
    HeldIsValid(st, rs);
    EnqueueAppends(config, st, r);
    AppendedHolds(rs, r);
  }

  /** An Enqueue is refused exactly when the topic is closed; it leaves the catalog and both their files alone. */
  lemma EnqueueReply(config: Config, st: TopicState, r: Record)
    requires SegmentExists(st.log)
    ensures var (next, result) := EnqueueStep(config, st, r);
            && next.catalog == st.catalog && next.closed == st.closed && next.index.file == st.index.file
            && (if st.closed then next == st && result == Err(TopicClosed) else result.Ok?)
  {
    hide AppendStep, Inserted;
  }

  /** No acknowledged record is ever lost: through every run the log is the acknowledged records, in order. */
  lemma {:induction false} LogIsAcknowledged(config: Config, ops: seq<TopicOp>)
    ensures var (st, replies) := Run(config, Fresh(), ops);
            HoldsRecords(st, Acknowledged(ops, replies))
  {
    hide Stream, EnqueueStep, DequeueStep;
    if ops == [] {
      FreshHoldsNothing();
    } else {
      var n := |ops| - 1;
      LogIsAcknowledged(config, ops[..n]);
      var (mid, replies) := Run(config, Fresh(), ops[..n]);
      StepKeepsLog(config, mid, Acknowledged(ops[..n], replies), ops[n]);
      assert (replies + [Step(config, mid, ops[n]).1])[..n] == replies;
    }
  }

  lemma StepKeepsLog(config: Config, st: TopicState, rs: seq<Record>, op: TopicOp)
    requires ValidTopic(st) && HoldsRecords(st, rs)
    ensures var (next, reply) := Step(config, st, op);
            HoldsRecords(next, rs + NewRecords(op, reply))
  {
    hide Stream, Start, EnqueueStep;
    assert rs + [] == rs;
    match op
    case Enqueue(r) =>
      EnqueueReply(config, st, r);
      if !st.closed {
        EnqueueHoldsOneMore(config, st, rs, r);
      }
    case Restart =>
      RestartKeepsValid(st);
    case _ =>
  }

  // ---------- In-order, gap-free, duplicate-free delivery ----------

  /** Neither a move of the consumer's offset by hand nor a restart. */
  predicate MovesByDequeue(consumer: string, op: TopicOp) {
    !(op.SetOffset? && op.consumer == consumer) && !op.Restart?
  }

  ghost predicate AllMoveByDequeue(consumer: string, ops: seq<TopicOp>) {
    forall i | 0 <= i < |ops| :: MovesByDequeue(consumer, ops[i])
  }

  lemma AllMoveTogether(consumer: string, a: seq<TopicOp>, b: seq<TopicOp>)
    requires AllMoveByDequeue(consumer, a) && AllMoveByDequeue(consumer, b)
    ensures AllMoveByDequeue(consumer, a + b)
  {
  }

  /** The consumer has been given exactly the first |sent| records, and its offset is where the next one begins. */
  ghost predicate HasPrefix(st: TopicState, rs: seq<Record>, consumer: string, sent: seq<LogEntry>) {
    && |sent| <= |rs|
    && sent == Entries(0, rs)[..|sent|]
    && OffsetOf(st.catalog.consumers, consumer) == Start(rs, |sent|)
  }

  /** Reading from record k of a topic's log, and where the offset of its last entry leads on. */
  lemma ReadRecordsFrom(files: Files, rs: seq<Record>, k: nat)
    requires files == map[0 := Stream(rs)] && Start(rs, |rs|) < TWO_32 && k <= |rs|
    ensures Start(rs, k) < TWO_32 && ReadAll(files, Start(rs, k)) == Ok(Entries(0, rs)[k..])
    ensures k > 0 ==> NextOffset(Entries(0, rs)[k - 1]) == Start(rs, k)
  {
    hide Stream, Read, Start, ReadAll, NextOffset, Pack;
    assert Holds(files, 0, rs) by {
      StartIncreases(rs, |rs|, |rs|);
    }
    StartIncreases(rs, k, |rs|);
    PackIsSum(0, Start(rs, k));
    ReadFromBoundary(files, 0, rs, k);
    if k > 0 {
      HoldsIsUncut(files, 0, rs);
      ReadRecord(files, 0, rs, |Stream(rs)|, k - 1);
    }
  }

  /** What a Dequeue gives a consumer that stands at record k: the next limit records, and the offset after them. */
  lemma DequeueAt(st: TopicState, rs: seq<Record>, consumer: string, limit: nat, k: nat)
    requires st.log.files == map[0 := Stream(rs)] && Start(rs, |rs|) < TWO_32 && k <= |rs| && !st.closed
    requires OffsetOf(st.catalog.consumers, consumer) == Start(rs, k)
    ensures var end := if k + limit < |rs| then k + limit else |rs|;
            var (next, result) := DequeueStep(st, consumer, limit);
            && result == Ok(Entries(0, rs)[k..end])
            && next == st.(catalog := next.catalog)
            && OffsetOf(next.catalog.consumers, consumer) == Start(rs, end)
            && next.catalog.file == st.catalog.file
            && (forall other | other != consumer ::
                  OffsetOf(next.catalog.consumers, other) == OffsetOf(st.catalog.consumers, other))
            && (end == k ==> next == st)
            && (end != k ==> next.catalog.dirty)
  {
    hide Stream, Start, ReadAll, NextOffset, Entries;
    var end := if k + limit < |rs| then k + limit else |rs|;
    ReadRecordsFrom(st.log.files, rs, k);
    ReadRecordsFrom(st.log.files, rs, end);
    assert Limited(Entries(0, rs)[k..], limit) == Entries(0, rs)[k..end];
    if end > k {
      var batch := Entries(0, rs)[k..end];
      assert batch[|batch| - 1] == Entries(0, rs)[end - 1];
    }
  }

  /** Records appended later do not change the entries of earlier ones. */
  lemma EntriesOfPrefix(rs: seq<Record>, r: Record)
    ensures Entries(0, rs + [r])[..|rs|] == Entries(0, rs)
  {
    StreamOfOneMore(rs, r);
  }

  lemma EnqueueKeepsPrefix(config: Config, st: TopicState, rs: seq<Record>, r: Record, consumer: string,
                           sent: seq<LogEntry>)
    requires ValidTopic(st) && HasPrefix(st, rs, consumer, sent)
    ensures HasPrefix(EnqueueStep(config, st, r).0, rs + [r], consumer, sent)
  {
    hide Entries, EnqueueStep;
    EnqueueReply(config, st, r);
    EntriesOfPrefix(rs, r);
    StreamOfOneMore(rs, r);
    assert Entries(0, rs + [r])[..|sent|] == Entries(0, rs + [r])[..|rs|][..|sent|];
  }

  /** A Dequeue touches nothing but its own consumer's offset. */
  lemma DequeueFrame(st: TopicState, consumer: string, limit: nat)
    ensures var (next, result) := DequeueStep(st, consumer, limit);
            && next == st.(catalog := next.catalog)
            && next.catalog.file == st.catalog.file
            && (st.closed ==> next == st && result == Err(TopicClosed))
            && (forall other | other != consumer ::
                  OffsetOf(next.catalog.consumers, other) == OffsetOf(st.catalog.consumers, other))
  {
    hide ReadAll, NextOffset;
  }

  /** From 2^32 bytes on every Dequeue is refused and changes nothing, wherever the consumer stands. */
  lemma FullTopicRejects(st: TopicState, rs: seq<Record>, consumer: string, limit: nat)
    requires HoldsRecords(st, rs) && Start(rs, |rs|) >= TWO_32 && !st.closed
    ensures DequeueStep(st, consumer, limit).0 == st
    ensures DequeueStep(st, consumer, limit).1.Err?
  {
    hide Stream, Start, ReadAll, NextOffset;
    FullLogFails(st.log.files, OffsetOf(st.catalog.consumers, consumer));
  }

  lemma DequeueExtendsPrefix(st: TopicState, rs: seq<Record>, consumer: string, limit: nat, sent: seq<LogEntry>)
    requires HoldsRecords(st, rs) && Start(rs, |rs|) < TWO_32 && HasPrefix(st, rs, consumer, sent) && !st.closed
    ensures var (next, result) := DequeueStep(st, consumer, limit);
            result.Ok? && HasPrefix(next, rs, consumer, sent + result.value)
  {
    hide Stream, Start, Entries, DequeueStep, HoldsRecords;
    WhatIsHeld(st, rs);
    DequeueAt(st, rs, consumer, limit, |sent|);
    var end := if |sent| + limit < |rs| then |sent| + limit else |rs|;
    assert Entries(0, rs)[..|sent|] + Entries(0, rs)[|sent|..end] == Entries(0, rs)[..end];
  }

  /** A Dequeue gives the consumer the next records of its prefix, and is refused exactly when the log is full. */
  lemma DequeueKeepsPrefix(st: TopicState, rs: seq<Record>, consumer: string, limit: nat, sent: seq<LogEntry>)
    requires HoldsRecords(st, rs) && HasPrefix(st, rs, consumer, sent) && !st.closed
    ensures var (next, result) := DequeueStep(st, consumer, limit);
            && (result.Ok? <==> Start(rs, |rs|) < TWO_32)
            && HasPrefix(next, rs, consumer, sent + if result.Ok? then result.value else [])
  {
    hide Start, DequeueStep, HoldsRecords, HasPrefix;
    assert sent + [] == sent;
    if Start(rs, |rs|) < TWO_32 {
      DequeueExtendsPrefix(st, rs, consumer, limit, sent);
    } else {
      FullTopicRejects(st, rs, consumer, limit);
    }
  }

  lemma StepKeepsPrefix(config: Config, st: TopicState, rs: seq<Record>, op: TopicOp, consumer: string,
                        sent: seq<LogEntry>)
    requires ValidTopic(st) && MovesByDequeue(consumer, op)
    requires HoldsRecords(st, rs) && HasPrefix(st, rs, consumer, sent)
    ensures var (next, reply) := Step(config, st, op);
            HasPrefix(next, rs + NewRecords(op, reply), consumer, sent + NewEntries(consumer, op, reply))
  {
    hide Stream, Start, Entries, DequeueStep, EnqueueStep, HoldsRecords;
    assert rs + [] == rs && sent + [] == sent;
    match op
    case Enqueue(r) =>
      EnqueueReply(config, st, r);
      if !st.closed {
        EnqueueKeepsPrefix(config, st, rs, r, consumer, sent);
      }
    case Dequeue(c, limit) =>
      DequeueFrame(st, c, limit);
      if c == consumer && !st.closed {
        DequeueKeepsPrefix(st, rs, c, limit, sent);
      }
    case _ =>
  }

  lemma RunOfOneMore(config: Config, ops: seq<TopicOp>, consumer: string)
    requires ops != []
    ensures var n := |ops| - 1;
            var (mid, before) := Run(config, Fresh(), ops[..n]);
            var (st, replies) := Run(config, Fresh(), ops);
            && (st, replies) == (Step(config, mid, ops[n]).0, before + [Step(config, mid, ops[n]).1])
            && Acknowledged(ops, replies) == Acknowledged(ops[..n], before) + NewRecords(ops[n], replies[n])
            && Delivered(consumer, ops, replies)
               == Delivered(consumer, ops[..n], before) + NewEntries(consumer, ops[n], replies[n])
  {
    hide Fresh, Step;
    var n := |ops| - 1;
    var (mid, before) := Run(config, Fresh(), ops[..n]);
    assert (before + [Step(config, mid, ops[n]).1])[..n] == before;
  }

  /** The log only grows. */
  lemma StepGrowsLog(config: Config, st: TopicState, rs: seq<Record>, op: TopicOp)
    requires ValidTopic(st)
    ensures var reply := Step(config, st, op).1;
            Start(rs, |rs|) <= Start(rs + NewRecords(op, reply), |rs + NewRecords(op, reply)|)
  {
    hide Step, Start;
    var more := rs + NewRecords(op, Step(config, st, op).1);
    assert more[..|rs|] == rs;
    StartOfPrefix(more, |rs|, |rs|);
    StartIncreases(more, |rs|, |more|);
  }

  /** Before its last operation a run below some size was below it. */
  lemma BelowBefore(config: Config, ops: seq<TopicOp>, bound: nat)
    requires ops != []
    ensures var front := ops[..|ops| - 1];
            var (mid, before) := Run(config, Fresh(), front);
            var rs := Acknowledged(front, before);
            && HoldsRecords(mid, rs)
            && (Run(config, Fresh(), ops).0.log.currentSize < bound ==>
                  mid.log.currentSize < bound && Start(rs, |rs|) < bound)
  {
    hide Step, Run, Fresh, Acknowledged, Delivered, Stream, Start;
    var n := |ops| - 1;
    RunOfOneMore(config, ops, "");
    LogIsAcknowledged(config, ops);
    LogIsAcknowledged(config, ops[..n]);
    var (mid, before) := Run(config, Fresh(), ops[..n]);
    StepGrowsLog(config, mid, Acknowledged(ops[..n], before), ops[n]);
  }

  /**
   * In every interleaving of producers and consumers on a fresh topic, what each consumer has been
   * given is exactly a prefix of what was enqueued, with no gap, duplicate or reordering, and its
   * catalog offset is where that prefix ends.
   */
  lemma {:induction false} InOrderDelivery(config: Config, ops: seq<TopicOp>, consumer: string)
    requires AllMoveByDequeue(consumer, ops)
    ensures var (st, replies) := Run(config, Fresh(), ops);
            HasPrefix(st, Acknowledged(ops, replies), consumer, Delivered(consumer, ops, replies))
  {
    if ops == [] {
      FreshHoldsNothing();
    } else {
      hide Step, Run, HasPrefix, HoldsRecords, Fresh, Acknowledged, Delivered, Stream, Start, MovesByDequeue;
      var n := |ops| - 1;
      RunOfOneMore(config, ops, consumer);
      LogIsAcknowledged(config, ops[..n]);
      var (mid, before) := Run(config, Fresh(), ops[..n]);
      InOrderDelivery(config, ops[..n], consumer);
      StepKeepsPrefix(config, mid, Acknowledged(ops[..n], before), ops[n], consumer,
                      Delivered(consumer, ops[..n], before));
    }
  }

  /**
   * After any run in which a consumer moves by Dequeue only, its next Dequeue is refused exactly
   * when the topic is closed or its log has reached 2^32 bytes; a refusal changes nothing.
   */
  lemma RefusedExactly(config: Config, ops: seq<TopicOp>, consumer: string, limit: nat)
    requires AllMoveByDequeue(consumer, ops)
    ensures var st := Run(config, Fresh(), ops).0;
            var (next, reply) := Step(config, st, Dequeue(consumer, limit));
            && (reply.Rejected? <==> st.closed || st.log.currentSize >= TWO_32)
            && (reply.Rejected? ==> next == st)
  {
    hide Run, Fresh, HasPrefix, HoldsRecords, Acknowledged, Delivered, Stream, Start, DequeueStep;
    var (st, replies) := Run(config, Fresh(), ops);
    var rs := Acknowledged(ops, replies);
    InOrderDelivery(config, ops, consumer);
    LogIsAcknowledged(config, ops);
    WhatIsHeld(st, rs);
    DequeueFrame(st, consumer, limit);
    if !st.closed {
      DequeueKeepsPrefix(st, rs, consumer, limit, Delivered(consumer, ops, replies));
      if st.log.currentSize >= TWO_32 {
        FullTopicRejects(st, rs, consumer, limit);
      }
    }
  }

  // ---------- Open and closed ----------

  /** The last Close of the run has no Restart after it. */
  predicate ShutBy(ops: seq<TopicOp>) {
    ops != [] && var last := ops[|ops| - 1]; last.Close? || (!last.Restart? && ShutBy(ops[..|ops| - 1]))
  }

  lemma {:induction false} ClosedExactly(config: Config, ops: seq<TopicOp>)
    ensures Run(config, Fresh(), ops).0.closed <==> ShutBy(ops)
  {
    hide Fresh, EnqueueStep, DequeueStep, ValidTopic;
    if ops != [] {
      var n := |ops| - 1;
      ClosedExactly(config, ops[..n]);
      StepOpensOrCloses(config, Run(config, Fresh(), ops[..n]).0, ops[n]);
    }
  }

  lemma StepOpensOrCloses(config: Config, st: TopicState, op: TopicOp)
    requires ValidTopic(st)
    ensures Step(config, st, op).0.closed <==> op.Close? || (!op.Restart? && st.closed)
  {
    hide AppendStep, ReadAll, Indexed, NextOffset, ValidTopic;
  }

  /**
   * From a Close on everything is refused and nothing changes, until a restart; before it and after the
   * restart Enqueue, SetOffset and Sync are never refused.
   */
  lemma RefusedWhileShut(config: Config, ops: seq<TopicOp>, op: TopicOp)
    requires !op.Restart? && !op.Close?
    ensures var st := Run(config, Fresh(), ops).0;
            var (next, reply) := Step(config, st, op);
            && (ShutBy(ops) ==> reply == Rejected(TopicClosed) && next == st)
            && (!ShutBy(ops) ==>
                  && (op.Enqueue? ==> reply.Accepted?)
                  && (op.SetOffset? || op.Sync? ==> reply == Done)
                  && reply != Rejected(TopicClosed))
  {
    ClosedExactly(config, ops);
    hide Run, Fresh, AppendStep, ReadAll, Indexed, NextOffset, ValidTopic;
  }
}
