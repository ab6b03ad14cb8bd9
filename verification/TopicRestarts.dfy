/** Runs with restarts: what a consumer may see again and what it can never miss. */
module TopicRestarts {
  import opened Numbers
  import opened Framing
  import opened SegmentLog
  import opened SegmentReads
  import opened CatalogStore
  import opened TopicStore
  import opened TopicRuns

  /** The offset a consumer would be given back if the topic were loaded from its directory now. */
  function ReloadedOffset(st: TopicState, consumer: string): Int64 {
    OffsetOf(LoadedCatalog(st.catalog.file).consumers, consumer)
  }

  /** The j-th delivery is record i of es for some i, and all records before i were delivered before it. */
  ghost predicate InTurn(es: seq<LogEntry>, sent: seq<LogEntry>, j: nat)
    requires j < |sent|
  {
    exists i | 0 <= i < |es| :: sent[j] == es[i] && forall h | 0 <= h < i :: es[h] in sent[..j]
  }

  /** Whenever a record was delivered, every earlier record had been delivered before it. */
  ghost predicate NeverAhead(es: seq<LogEntry>, sent: seq<LogEntry>) {
    forall j | 0 <= j < |sent| :: InTurn(es, sent, j)
  }

  /**
   * The consumer stands at record k, its snapshot at record s no later, and the records delivered
   * at least once are exactly the first m, with m no less than k.
   */
  ghost predicate Stands(st: TopicState, rs: seq<Record>, consumer: string, sent: seq<LogEntry>,
                         s: nat, k: nat, m: nat)
  {
    && s <= k <= m <= |rs|
    && ReloadedOffset(st, consumer) == Start(rs, s)
    && OffsetOf(st.catalog.consumers, consumer) == Start(rs, k)
    && (forall e :: e in sent <==> e in Entries(0, rs)[..m])
    && NeverAhead(Entries(0, rs), sent)
  }

  lemma EnqueueKeepsStands(config: Config, st: TopicState, rs: seq<Record>, r: Record, consumer: string,
                           sent: seq<LogEntry>, s: nat, k: nat, m: nat)
    requires ValidTopic(st) && Stands(st, rs, consumer, sent, s, k, m)
    ensures Stands(EnqueueStep(config, st, r).0, rs + [r], consumer, sent, s, k, m)
  {
    hide Entries, NeverAhead, Start, Stream, EnqueueStep;
    EnqueueReply(config, st, r);
    var before, after := Entries(0, rs), Entries(0, rs + [r]);
    EntriesOfPrefix(rs, r);
    StreamOfOneMore(rs, r);
    assert after[..m] == after[..|rs|][..m] == before[..m];
    MoreEntriesKeepOrder(after, |rs|, sent);
  }

  lemma MoreEntriesKeepOrder(es: seq<LogEntry>, n: nat, sent: seq<LogEntry>)
    requires n <= |es| && NeverAhead(es[..n], sent)
    ensures NeverAhead(es, sent)
  {
    forall j | 0 <= j < |sent|
      ensures InTurn(es, sent, j)
    {
      assert InTurn(es[..n], sent, j);
      var i :| 0 <= i < n && sent[j] == es[..n][i] && forall h | 0 <= h < i :: es[..n][h] in sent[..j];
      forall h | 0 <= h < i
        ensures es[h] in sent[..j]
      {
        assert es[..n][h] == es[h];
      }
      assert sent[j] == es[i];
    }
  }

  /** Delivering records k to end - 1 to a consumer that has had the first m >= k skips nothing. */
  lemma BatchKeepsOrder(es: seq<LogEntry>, sent: seq<LogEntry>, k: nat, end: nat, m: nat)
    requires k <= m <= |es| && k <= end <= |es|
    requires NeverAhead(es, sent) && forall e :: e in sent <==> e in es[..m]
    ensures NeverAhead(es, sent + es[k..end])
  {
    var more := sent + es[k..end];
    forall j | 0 <= j < |more|
      ensures InTurn(es, more, j)
    {
      if j < |sent| {
        assert InTurn(es, sent, j);
        assert more[..j] == sent[..j] && more[j] == sent[j];
      } else {
        var i := k + (j - |sent|);
        assert more[j] == es[i];
        forall h | 0 <= h < i
          ensures es[h] in more[..j]
        {
          if h < k {
            assert es[h] == es[..m][h];
            assert es[h] in sent;
            assert more[..j] == sent + more[|sent|..j];
          } else {
            assert more[..j][|sent| + (h - k)] == es[h];
          }
        }
      }
    }
  }

  /** A prefix and a stretch that begins in it cover together the longer of two prefixes. */
  lemma PrefixAndStretch(es: seq<LogEntry>, k: nat, end: nat, m: nat, e: LogEntry)
    requires k <= m <= |es| && k <= end <= |es|
    ensures e in es[..m] || e in es[k..end] <==> e in es[..if end > m then end else m]
  {
    if end > m {
      assert es[..end] == es[..m] + es[m..end];
      assert es[k..end] == es[k..m] + es[m..end];
      assert es[..m] == es[..k] + es[k..m];
    } else {
      assert es[..m] == es[..k] + es[k..end] + es[end..m];
    }
  }

  lemma BatchKeepsSet(es: seq<LogEntry>, sent: seq<LogEntry>, k: nat, end: nat, m: nat)
    requires k <= m <= |es| && k <= end <= |es|
    requires forall e :: e in sent <==> e in es[..m]
    ensures forall e :: e in sent + es[k..end] <==> e in es[..if end > m then end else m]
  {
    forall e
      ensures e in sent + es[k..end] <==> e in es[..if end > m then end else m]
    {
      PrefixAndStretch(es, k, end, m, e);
      assert e in sent <==> e in es[..m];
    }
  }

  lemma DequeueKeepsStands(st: TopicState, rs: seq<Record>, consumer: string, limit: nat,
                           sent: seq<LogEntry>, s: nat, k: nat, m: nat) returns (k': nat, m': nat)
    requires HoldsRecords(st, rs) && !st.closed && Stands(st, rs, consumer, sent, s, k, m)
    ensures var (next, result) := DequeueStep(st, consumer, limit);
            Stands(next, rs, consumer, sent + if result.Ok? then result.value else [], s, k', m')
  {
    hide Stream, Start, Entries, DequeueStep, HoldsRecords, NeverAhead;
    if Start(rs, |rs|) >= TWO_32 {
      FullTopicRejects(st, rs, consumer, limit);
      assert sent + [] == sent;
      k', m' := k, m;
    } else {
      WhatIsHeld(st, rs);
      DequeueAt(st, rs, consumer, limit, k);
      k' := if k + limit < |rs| then k + limit else |rs|;
      m' := if k' > m then k' else m;
      BatchKeepsOrder(Entries(0, rs), sent, k, k', m);
      BatchKeepsSet(Entries(0, rs), sent, k, k', m);
    }
  }

  /** Writing the catalog out moves the snapshot up to where the consumer stands. */
  lemma SaveKeepsStands(st: TopicState, rs: seq<Record>, consumer: string, sent: seq<LogEntry>, s: nat, k: nat, m: nat)
    requires ValidTopic(st) && Stands(st, rs, consumer, sent, s, k, m)
    ensures Stands(Saved(st), rs, consumer, sent, k, k, m)
    ensures Stands(Saved(st).(closed := true), rs, consumer, sent, k, k, m)
  {
    hide Start, Entries, NeverAhead, ValidLog;
  }

  /** A restart moves the consumer back to its snapshot. */
  lemma RestartKeepsStands(st: TopicState, rs: seq<Record>, consumer: string, sent: seq<LogEntry>,
                           s: nat, k: nat, m: nat)
    requires Stands(st, rs, consumer, sent, s, k, m)
    ensures Stands(RestartStep(st), rs, consumer, sent, s, s, m)
  {
    hide Start, Entries, NeverAhead, Opened;
  }

  lemma SeekLeavesOthers(st: TopicState, rs: seq<Record>, consumer: string, sent: seq<LogEntry>,
                         s: nat, k: nat, m: nat, other: string, offset: Int64)
    requires Stands(st, rs, consumer, sent, s, k, m) && other != consumer
    ensures Stands(SetOffsetStep(st, other, offset).0, rs, consumer, sent, s, k, m)
  {
    hide Start, Entries, NeverAhead;
  }

  lemma DequeueLeavesOthers(st: TopicState, rs: seq<Record>, consumer: string, sent: seq<LogEntry>,
                            s: nat, k: nat, m: nat, other: string, limit: nat)
    requires Stands(st, rs, consumer, sent, s, k, m) && (other != consumer || st.closed)
    ensures Stands(DequeueStep(st, other, limit).0, rs, consumer, sent, s, k, m)
  {
    hide Start, Entries, NeverAhead, DequeueStep;
    DequeueFrame(st, other, limit);
  }

  /** Every operation but a seek of its own keeps the consumer standing somewhere. */
  lemma StepKeepsStands(config: Config, st: TopicState, rs: seq<Record>, op: TopicOp, consumer: string,
                        sent: seq<LogEntry>, s: nat, k: nat, m: nat) returns (s': nat, k': nat, m': nat)
    requires ValidTopic(st) && !(op.SetOffset? && op.consumer == consumer)
    requires HoldsRecords(st, rs) && Stands(st, rs, consumer, sent, s, k, m)
    ensures var (next, reply) := Step(config, st, op);
            Stands(next, rs + NewRecords(op, reply), consumer, sent + NewEntries(consumer, op, reply), s', k', m')
  {
    hide Start, Stands, EnqueueStep, DequeueStep, HoldsRecords, Saved, RestartStep;
    assert rs + [] == rs && sent + [] == sent;
    s', k', m' := s, k, m;
    match op
    case Enqueue(r) =>
      EnqueueReply(config, st, r);
      if !st.closed {
        EnqueueKeepsStands(config, st, rs, r, consumer, sent, s, k, m);
      }
    case Dequeue(c, limit) =>
      DequeueFrame(st, c, limit);
      if c == consumer && !st.closed {
        k', m' := DequeueKeepsStands(st, rs, c, limit, sent, s, k, m);
      } else {
        DequeueLeavesOthers(st, rs, consumer, sent, s, k, m, c, limit);
      }
    case SetOffset(c, o) =>
      SeekLeavesOthers(st, rs, consumer, sent, s, k, m, c, o);
    case Restart =>
      RestartKeepsStands(st, rs, consumer, sent, s, k, m);
      k' := s;
    case _ =>
      if !st.closed {
        SaveKeepsStands(st, rs, consumer, sent, s, k, m);
        s' := k;
      }
  }

  /**
   * At least once: whatever restarts fall between the operations of a run, no acknowledged record
   * is lost, the offset a consumer would be reloaded with is a record boundary no later than the
   * one in memory, and the records delivered so far are exactly the first m for some m not below
   * either; records may be delivered again, none is skipped.
   */
  lemma {:induction false} AtLeastOnce(config: Config, ops: seq<TopicOp>, consumer: string)
      returns (s: nat, k: nat, m: nat)
    requires forall i | 0 <= i < |ops| :: !(ops[i].SetOffset? && ops[i].consumer == consumer)
    ensures var (st, replies) := Run(config, Fresh(), ops);
            var rs := Acknowledged(ops, replies);
            HoldsRecords(st, rs) && Stands(st, rs, consumer, Delivered(consumer, ops, replies), s, k, m)
  {
    LogIsAcknowledged(config, ops);
    if ops == [] {
      FreshHoldsNothing();
      s, k, m := 0, 0, 0;
    } else {
      hide Step, Run, Stands, HoldsRecords, Fresh, Acknowledged, Delivered, Stream, Start;
      var n := |ops| - 1;
      RunOfOneMore(config, ops, consumer);
      LogIsAcknowledged(config, ops[..n]);
      var (mid, before) := Run(config, Fresh(), ops[..n]);
      var rs := Acknowledged(ops[..n], before);
      s, k, m := AtLeastOnce(config, ops[..n], consumer);
      s, k, m := StepKeepsStands(config, mid, rs, ops[n], consumer, Delivered(consumer, ops[..n], before), s, k, m);
    }
  }
}
