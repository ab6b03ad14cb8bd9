/** The index a topic keeps while it is appended to, against the log and against a rebuild. */
module TopicIndex {
  import opened Numbers
  import opened Results
  import opened Offsets
  import opened Framing
  import opened SegmentLog
  import opened SegmentReads
  import opened IndexEntries
  import opened SegmentScan
  import opened Rebuilding
  import opened IndexStore
  import opened TopicStore
  import opened TopicRuns

  /** The entries whose offset is a multiple of the interval. */
  function Sampled(interval: int, es: seq<IndexEntry>): seq<IndexEntry>
    requires interval > 0
  {
    if es == [] then []
    else
      var e := es[|es| - 1];
      Sampled(interval, es[..|es| - 1]) + if ShouldIndex(interval, e.offset) then [e] else []
  }

  lemma {:induction false} SampledIsSubset(interval: int, es: seq<IndexEntry>)
    requires interval > 0
    ensures forall x :: x in Sampled(interval, es) <==> x in es && ShouldIndex(interval, x.offset)
    ensures Sorted(es) ==> Sorted(Sampled(interval, es))
  {
    if es != [] {
      var front, e := es[..|es| - 1], es[|es| - 1];
      assert forall x :: x in es <==> x in front || x == e by {
        assert es == front + [e];
      }
      SampledIsSubset(interval, front);
      if Sorted(es) {
        SortedFront(es);
        assert forall i | 0 <= i < |Sampled(interval, front)| :: Sampled(interval, front)[i] in front;
      }
    }
  }

  lemma UpsertAtEnd(es: seq<IndexEntry>, e: IndexEntry)
    requires forall x | x in es :: x.offset < e.offset
    ensures Upsert(es, e) == es + [e]
  {
    if es != [] {
      assert es[|es| - 1] in es;
    }
  }

  /** Appending a record adds its entry at the end of the segment's full index. */
  lemma IndexOfOneMore(rs: seq<Record>, r: Record)
    requires Start(rs, |rs|) < TWO_63
    ensures var at := Pack(0, Start(rs, |rs|));
            && at == Start(rs, |rs|)
            && IndexOf(0, rs + [r]) == IndexOf(0, rs) + [IndexEntry(at, at)]
            && (forall k | 0 <= k < |rs| :: IndexOf(0, rs)[k].offset < at)
  {
    hide Pack, Stream, Start, Frame, Wrap64;
    var end := Start(rs, |rs|);
    FirstSegmentIsPlain(end);
    WrapIsIdentity(end);
    StreamOfOneMore(rs, r);
    assert IndexOf(0, rs + [r]) == IndexOf(0, rs) + [IndexEntry(Pack(0, end), end)];
    forall k | 0 <= k < |rs|
      ensures IndexOf(0, rs)[k].offset < end
    {
      StartIncreases(rs, k, |rs|);
      FirstSegmentIsPlain(Start(rs, k));
    }
  }

  lemma SampledOfOneMore(interval: int, es: seq<IndexEntry>, e: IndexEntry)
    requires interval > 0
    ensures Sampled(interval, es + [e]) == Sampled(interval, es) + if ShouldIndex(interval, e.offset) then [e] else []
  {
    assert (es + [e])[..|es|] == es;
  }

  lemma EnqueueKeepsSampled(config: Config, st: TopicState, rs: seq<Record>, r: Record)
    requires ValidTopic(st) && HoldsRecords(st, rs) && Start(rs, |rs|) < TWO_63 && !st.closed
    ensures st.index.entries == Sampled(config.indexInterval, IndexOf(0, rs)) ==>
              EnqueueStep(config, st, r).0.index.entries == Sampled(config.indexInterval, IndexOf(0, rs + [r]))
  {
    hide Stream, Start, Pack, Sampled, Upsert, Inserted, IndexOf, EnqueueStep, Appended;
    EnqueueAppends(config, st, r);
    if st.index.entries == Sampled(config.indexInterval, IndexOf(0, rs)) {
      var at := Pack(0, Start(rs, |rs|));
      IndexOfOneMore(rs, r);
      SampledOfOneMore(config.indexInterval, IndexOf(0, rs), IndexEntry(at, at));
      SampledIsSubset(config.indexInterval, IndexOf(0, rs));
      forall x | x in st.index.entries
        ensures x.offset < at
      {
        assert x in IndexOf(0, rs);
      }
      UpsertAtEnd(st.index.entries, IndexEntry(at, at));
      InsertedIsUpsert(st.index.entries, IndexEntry(at, at));
    }
  }

  lemma StepKeepsSampled(config: Config, st: TopicState, rs: seq<Record>, op: TopicOp)
    requires ValidTopic(st) && HoldsRecords(st, rs) && Start(rs, |rs|) < TWO_63 && !op.Restart?
    ensures var (next, reply) := Step(config, st, op);
            st.index.entries == Sampled(config.indexInterval, IndexOf(0, rs)) ==>
              next.index.entries == Sampled(config.indexInterval, IndexOf(0, rs + NewRecords(op, reply)))
  {
    hide Stream, Start, Sampled, IndexOf, DequeueStep, EnqueueStep, HoldsRecords;
    assert rs + [] == rs;
    match op
    case Enqueue(r) =>
      EnqueueReply(config, st, r);
      if !st.closed {
        EnqueueKeepsSampled(config, st, rs, r);
      }
    case Dequeue(c, limit) =>
      DequeueFrame(st, c, limit);
    case _ =>
  }

  lemma NothingIsSampled(config: Config)
    ensures Run(config, Fresh(), []) == (Fresh(), [])
    ensures Fresh().index.entries == Sampled(config.indexInterval, IndexOf(0, Acknowledged([], [])))
  {
    FreshHoldsNothing();
  }

  /** Through every run without a restart the index is the sampled full index of what was acknowledged. */
  lemma {:induction false} IndexIsSampled(config: Config, ops: seq<TopicOp>)
    requires forall i | 0 <= i < |ops| :: !ops[i].Restart?
    ensures var (st, replies) := Run(config, Fresh(), ops);
            st.log.currentSize < TWO_63 ==>
              st.index.entries == Sampled(config.indexInterval, IndexOf(0, Acknowledged(ops, replies)))
  {
    hide Step, Run, HoldsRecords, Fresh, Acknowledged, Sampled, IndexOf, Stream, Start;
    if ops == [] {
      NothingIsSampled(config);
    } else if Run(config, Fresh(), ops).0.log.currentSize < TWO_63 {
      var n := |ops| - 1;
      RunOfOneMore(config, ops, "");
      BelowBefore(config, ops, TWO_63);
      var (mid, before) := Run(config, Fresh(), ops[..n]);
      var rs := Acknowledged(ops[..n], before);
      IndexIsSampled(config, ops[..n]);
      StepKeepsSampled(config, mid, rs, ops[n]);
    }
  }

  /** A rebuild of a fresh topic's directory indexes every record. */
  lemma RebuiltIsFull(rs: seq<Record>)
    requires |Stream(rs)| < TWO_32
    ensures Rebuilt(map[0 := Stream(rs)]) == IndexOf(0, rs)
  {
    hide Ascending, Scan, Stream, IndexOf;
    var files: Files := map[0 := Stream(rs)];
    assert files.Keys == {0};
    SingleListing(0);
    ScanSegmentFile(0, rs);
    assert RebuiltUpTo(files, [0], 1) == RebuiltUpTo(files, [0], 0) + IndexOf(0, rs);
  }

  /** The entry carries this record start as its offset and as its position. */
  predicate PointsAt(e: IndexEntry, start: nat) {
    e.offset == start && e.position == start
  }

  /** The entries are, in ascending order, exactly the record starts that the interval divides. */
  ghost predicate IndexesStarts(interval: int, es: seq<IndexEntry>, rs: seq<Record>)
    requires interval > 0
  {
    && Sorted(es)
    && (forall p | 0 <= p < |es| :: IsIndexedStart(interval, es[p], rs))
    && (forall k | 0 <= k < |rs| && Start(rs, k) % interval == 0 :: HasEntry(es, Start(rs, k)))
  }

  ghost predicate IsIndexedStart(interval: int, e: IndexEntry, rs: seq<Record>)
    requires interval > 0
  {
    exists k | 0 <= k < |rs| :: PointsAt(e, Start(rs, k)) && Start(rs, k) % interval == 0
  }

  ghost predicate HasEntry(es: seq<IndexEntry>, start: nat) {
    exists p | 0 <= p < |es| :: PointsAt(es[p], start)
  }

  lemma SampledIndexesStarts(interval: int, rs: seq<Record>)
    requires interval > 0 && |Stream(rs)| < TWO_63
    ensures IndexesStarts(interval, Sampled(interval, IndexOf(0, rs)), rs)
  {
    hide Sampled, Stream, Start, Pack;
    var full := IndexOf(0, rs);
    var es := Sampled(interval, full);
    forall k | 0 <= k < |rs|
      ensures PointsAt(full[k], Start(rs, k))
    {
      StartIncreases(rs, k, |rs|);
      FirstSegmentIsPlain(Start(rs, k));
      WrapIsIdentity(Start(rs, k));
    }
    forall j, k | 0 <= j < k < |rs|
      ensures full[j].offset < full[k].offset
    {
      assert PointsAt(full[j], Start(rs, j)) && PointsAt(full[k], Start(rs, k));
      StartIncreases(rs, j, k);
    }
    SampledIsSubset(interval, full);
    forall p | 0 <= p < |es|
      ensures IsIndexedStart(interval, es[p], rs)
    {
      assert es[p] in full;
      var k :| 0 <= k < |full| && full[k] == es[p];
      assert PointsAt(es[p], Start(rs, k));
    }
    forall k | 0 <= k < |rs| && Start(rs, k) % interval == 0
      ensures HasEntry(es, Start(rs, k))
    {
      assert full[k] in full;
      assert full[k] in es;
      var p :| 0 <= p < |es| && es[p] == full[k];
      assert PointsAt(es[p], Start(rs, k));
    }
  }

  /**
   * After any run without a restart on a fresh topic below 2^32 bytes the index is what a rebuild
   * would give, thinned to the multiples of the config.indexInterval: exactly the record starts that the
   * interval divides, ascending, each with its position equal to its offset.
   */
  lemma IndexAgreesWithRebuild(config: Config, ops: seq<TopicOp>)
    requires forall i | 0 <= i < |ops| :: !ops[i].Restart?
    ensures var (st, replies) := Run(config, Fresh(), ops);
            && (st.log.currentSize < TWO_63 ==>
                  IndexesStarts(config.indexInterval, st.index.entries, Acknowledged(ops, replies)))
            && (st.log.currentSize < TWO_32 ==>
                  st.index.entries == Sampled(config.indexInterval, Rebuilt(st.log.files)))
  {
    hide Run, Fresh, Acknowledged, Sampled, Stream, Start, Rebuilt, IndexOf, IndexesStarts;
    IndexIsSampled(config, ops);
    LogIsAcknowledged(config, ops);
    var rs := Acknowledged(ops, Run(config, Fresh(), ops).1);
    if |Stream(rs)| < TWO_63 {
      SampledIndexesStarts(config.indexInterval, rs);
    }
    if |Stream(rs)| < TWO_32 {
      RebuiltIsFull(rs);
    }
  }

  /** Closest is the last entry not above target, or the first entry. */
  lemma {:induction false} ClosestPicks(es: seq<IndexEntry>, target: Int64) returns (p: nat)
    requires es != []
    ensures p < |es| && Closest(es, target) == Some(es[p])
    ensures forall q | p < q < |es| :: es[q].offset > target
    ensures p > 0 ==> es[p].offset <= target
  {
    p := |es| - 1;
    if p > 0 && es[p].offset > target {
      p := ClosestPicks(es[..p], target);
    }
  }

  lemma SeekInIndex(interval: int, es: seq<IndexEntry>, rs: seq<Record>, j: nat) returns (i: nat)
    requires interval > 0 && j < |rs| && Start(rs, |rs|) < TWO_63 && IndexesStarts(interval, es, rs)
    ensures i <= j && Start(rs, j) < TWO_63
    ensures Closest(es, Start(rs, j)).Some? && PointsAt(Closest(es, Start(rs, j)).value, Start(rs, i))
    ensures forall h | i < h <= j :: Start(rs, h) % interval != 0
  {
    hide Closest;
    StartIncreases(rs, j, |rs|);
    var o := Start(rs, j);
    assert HasEntry(es, 0) by {
      assert Start(rs, 0) == 0;
    }
    hide Start;
    var z :| 0 <= z < |es| && PointsAt(es[z], 0);
    var p := ClosestPicks(es, o);
    assert es[p].offset <= o;
    assert IsIndexedStart(interval, es[p], rs);
    i :| 0 <= i < |rs| && PointsAt(es[p], Start(rs, i)) && Start(rs, i) % interval == 0;
    StartIsInjective(rs, j, i);
    forall h | i < h <= j
      ensures Start(rs, h) % interval != 0
    {
      if Start(rs, h) % interval == 0 {
        StartIncreases(rs, h, j);
        StartIsInjective(rs, i, h);
      }
    }
  }

  lemma SeekReads(files: Files, rs: seq<Record>, i: nat, j: nat)
    requires Holds(files, 0, rs) && i <= j < |rs|
    ensures Start(rs, i) <= Start(rs, j) < TWO_32
    ensures ReadAll(files, Start(rs, j)) == Ok(Entries(0, rs)[j..])
    ensures ReadAll(files, Start(rs, i)) == Prepend(Entries(0, rs)[i..j], ReadAll(files, Start(rs, j)))
  {
    hide Start, ReadAll, Pack;
    StartIncreases(rs, i, j);
    StartIncreases(rs, j, |rs|);
    PackIsSum(0, Start(rs, i));
    PackIsSum(0, Start(rs, j));
    ReadFromBoundary(files, 0, rs, i);
    ReadFromBoundary(files, 0, rs, j);
    assert Entries(0, rs)[i..j] + Entries(0, rs)[j..] == Entries(0, rs)[i..];
  }

  /**
   * Seeking through the index refines scanning: for the start of any record j the closest indexed
   * position is the start of the last indexed record i not after it, and reading from there gives
   * the records skipped over followed by what reading at record j gives.
   */
  lemma SeekRefinesScan(config: Config, ops: seq<TopicOp>, j: nat) returns (i: nat)
    requires forall i | 0 <= i < |ops| :: !ops[i].Restart?
    ensures var (st, replies) := Run(config, Fresh(), ops);
            var rs := Acknowledged(ops, replies);
            st.log.currentSize < TWO_32 && j < |rs| ==>
              && i <= j && Start(rs, i) <= Start(rs, j) < TWO_32
              && (forall h | i < h <= j :: Start(rs, h) % config.indexInterval != 0)
              && Closest(st.index.entries, Start(rs, j)).Some?
              && PointsAt(Closest(st.index.entries, Start(rs, j)).value, Start(rs, i))
              && ReadAll(st.log.files, Start(rs, i))
                   == Prepend(Entries(0, rs)[i..j], ReadAll(st.log.files, Start(rs, j)))
              && ReadAll(st.log.files, Start(rs, j)) == Ok(Entries(0, rs)[j..])
  {
    hide Run, Fresh, Acknowledged, Stream, Start, IndexesStarts, Closest, PointsAt, ReadAll;
    IndexAgreesWithRebuild(config, ops);
    LogIsAcknowledged(config, ops);
    var (st, replies) := Run(config, Fresh(), ops);
    var rs := Acknowledged(ops, replies);
    i := 0;
    if st.log.currentSize < TWO_32 && j < |rs| {
      i := SeekInIndex(config.indexInterval, st.index.entries, rs, j);
      SeekReads(st.log.files, rs, i, j);
    }
  }

  /** The position Enqueue records is the one a scan would record exactly in segment 0. */
  lemma PositionsAgreeInFirstSegment(segment: nat, position: nat)
    requires segment < TWO_31 && position < TWO_32
    ensures IndexEntry(Pack(segment, position), Pack(segment, position))
         == IndexEntry(Pack(segment, position), Wrap64(position))
       <==> segment == 0
  {
    PackIsSum(segment, position);
    WrapIsIdentity(position);
  }

  // ---------- The index across restarts ----------

  /** The entries are, in ascending order, some of the indexed record starts. */
  ghost predicate IndexesSome(interval: int, es: seq<IndexEntry>, rs: seq<Record>)
    requires interval > 0
  {
    Sorted(es) && forall p | 0 <= p < |es| :: IsIndexedStart(interval, es[p], rs)
  }

  lemma IndexesSomeOfMore(interval: int, es: seq<IndexEntry>, rs: seq<Record>, r: Record)
    requires interval > 0 && IndexesSome(interval, es, rs)
    ensures IndexesSome(interval, es, rs + [r])
  {
    hide Start;
    StreamOfOneMore(rs, r);
    forall p | 0 <= p < |es|
      ensures IsIndexedStart(interval, es[p], rs + [r])
    {
      assert IsIndexedStart(interval, es[p], rs);
      var k :| 0 <= k < |rs| && PointsAt(es[p], Start(rs, k)) && Start(rs, k) % interval == 0;
      assert Start(rs + [r], k) == Start(rs, k);
    }
  }

  lemma LaterEntryIndexes(interval: int, es: seq<IndexEntry>, e: IndexEntry, rs: seq<Record>)
    requires interval > 0 && IndexesSome(interval, es, rs) && IsIndexedStart(interval, e, rs)
    requires forall p | 0 <= p < |es| :: es[p].offset < e.offset
    ensures IndexesSome(interval, Upsert(es, e), rs)
  {
    hide IsIndexedStart, Upsert;
    forall x | x in es
      ensures x.offset < e.offset
    {
      var p :| 0 <= p < |es| && es[p] == x;
    }
    UpsertAtEnd(es, e);
  }

  lemma EnqueueIndexesSome(config: Config, st: TopicState, rs: seq<Record>, r: Record)
    requires ValidTopic(st) && HoldsRecords(st, rs) && Start(rs, |rs|) < TWO_63 && !st.closed
    requires IndexesSome(config.indexInterval, st.index.entries, rs)
    ensures IndexesSome(config.indexInterval, EnqueueStep(config, st, r).0.index.entries, rs + [r])
  {
    hide Start, Stream, Pack, Upsert, Inserted, IsIndexedStart, IndexesSome, Appended, EnqueueStep;
    EnqueueAppends(config, st, r);
    var at := Start(rs, |rs|);
    FirstSegmentIsPlain(at);
    IndexesSomeOfMore(config.indexInterval, st.index.entries, rs, r);
    if at % config.indexInterval == 0 {
      var es, e := st.index.entries, IndexEntry(at, at);
      IndexedStartsAreBefore(config.indexInterval, es, rs);
      StreamOfOneMore(rs, r);
      InsertedIsUpsert(es, e);
      NewStartIsIndexed(config.indexInterval, e, rs + [r], |rs|);
      LaterEntryIndexes(config.indexInterval, es, e, rs + [r]);
    }
  }

  lemma IndexedStartsAreBefore(interval: int, es: seq<IndexEntry>, rs: seq<Record>)
    requires interval > 0 && IndexesSome(interval, es, rs)
    ensures forall p | 0 <= p < |es| :: es[p].offset < Start(rs, |rs|)
  {
    hide Start;
    forall p | 0 <= p < |es|
      ensures es[p].offset < Start(rs, |rs|)
    {
      assert IsIndexedStart(interval, es[p], rs);
      var k :| 0 <= k < |rs| && PointsAt(es[p], Start(rs, k)) && Start(rs, k) % interval == 0;
      StartIncreases(rs, k, |rs|);
    }
  }

  lemma NewStartIsIndexed(interval: int, e: IndexEntry, rs: seq<Record>, k: nat)
    requires interval > 0 && k < |rs| && PointsAt(e, Start(rs, k)) && Start(rs, k) % interval == 0
    ensures IsIndexedStart(interval, e, rs)
  {
  }

  lemma StepIndexesSome(config: Config, st: TopicState, rs: seq<Record>, op: TopicOp)
    requires ValidTopic(st) && HoldsRecords(st, rs) && Start(rs, |rs|) < TWO_63
    requires IndexesSome(config.indexInterval, st.index.entries, rs)
    requires IndexesSome(config.indexInterval, Decode(st.index.file), rs)
    ensures var (next, reply) := Step(config, st, op);
            && IndexesSome(config.indexInterval, next.index.entries, rs + NewRecords(op, reply))
            && IndexesSome(config.indexInterval, Decode(next.index.file), rs + NewRecords(op, reply))
  {
    hide Stream, Start, IndexesSome, DequeueStep, EnqueueStep, HoldsRecords, Decode;
    assert rs + [] == rs;
    match op
    case Enqueue(r) =>
      EnqueueReply(config, st, r);
      if !st.closed {
        EnqueueIndexesSome(config, st, rs, r);
        IndexesSomeOfMore(config.indexInterval, Decode(st.index.file), rs, r);
      }
    case Dequeue(c, limit) =>
      DequeueFrame(st, c, limit);
    case Sync =>
      SaveThenLoad(st.index);
    case Close =>
      SaveThenLoad(st.index);
    case _ =>
  }

  /**
   * An index never lies: through any run whatever, restarts with an unsaved index included, every
   * entry is the start of an acknowledged record, so it may lack records but never points beside one.
   */
  lemma {:induction false} IndexNeverLies(config: Config, ops: seq<TopicOp>)
    ensures var (st, replies) := Run(config, Fresh(), ops);
            st.log.currentSize < TWO_63 ==>
              && IndexesSome(config.indexInterval, st.index.entries, Acknowledged(ops, replies))
              && IndexesSome(config.indexInterval, Decode(st.index.file), Acknowledged(ops, replies))
  {
    if ops == [] {
      FreshHoldsNothing();
    } else if Run(config, Fresh(), ops).0.log.currentSize < TWO_63 {
      hide Step, Run, HoldsRecords, Fresh, Acknowledged, IndexesSome, Decode, Stream, Start;
      var n := |ops| - 1;
      RunOfOneMore(config, ops, "");
      BelowBefore(config, ops, TWO_63);
      var (mid, before) := Run(config, Fresh(), ops[..n]);
      var rs := Acknowledged(ops[..n], before);
      IndexNeverLies(config, ops[..n]);
      StepIndexesSome(config, mid, rs, ops[n]);
    }
  }
}
