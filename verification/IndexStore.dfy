/** The in-memory index and its file (pkg/storage/index.go: type Index). */
module IndexStore {
  import opened Numbers
  import opened Results
  import opened Framing
  import opened Offsets
  import opened SegmentLog
  import opened IndexEntries
  import opened SegmentScan
  import opened Rebuilding

  datatype IndexError = OffsetNotFound | IndexEmpty

  datatype IndexState = IndexState(entries: seq<IndexEntry>, dirty: bool, file: seq<Byte>)

  /** Opening an index file. */
  function LoadedIndex(file: seq<Byte>): IndexState {
    IndexState(Decode(file), false, file)
  }

  /** Writing the index out when it has changed: Sync and Close. */
  function SavedIndex(st: IndexState): IndexState {
    if st.dirty then IndexState(st.entries, false, Encode(st.entries)) else st
  }

  /** The offsets ascend, in memory and in the file, and unless the index is dirty it is what its file holds. */
  ghost predicate ValidIndex(st: IndexState) {
    Sorted(st.entries) && Sorted(Decode(st.file)) && (!st.dirty ==> Decode(st.file) == st.entries)
  }

  /** A saved index is loaded back unchanged. */
  lemma SaveThenLoad(st: IndexState)
    requires ValidIndex(st)
    ensures ValidIndex(SavedIndex(st))
    ensures LoadedIndex(SavedIndex(st).file) == SavedIndex(st)
    ensures SavedIndex(st).entries == st.entries
  {
    LoadAfterPersist(st.entries, []);
    assert Encode(st.entries) + [] == Encode(st.entries);
  }

  /** sort.Search over the entries: on a monotone predicate, the first index at which it holds. */
  method Search(es: seq<IndexEntry>, f: IndexEntry -> bool) returns (p: nat)
    ensures p == Probe(es, f, 0, |es|) <= |es|
    ensures Monotone(es, f) ==> forall j | 0 <= j < p :: !f(es[j])
    ensures Monotone(es, f) ==> forall j | p <= j < |es| :: f(es[j])
  {
    p := 0;
    var q := |es|;
    while p < q
      invariant p <= q <= |es|
      invariant Probe(es, f, 0, |es|) == Probe(es, f, p, q)
    {
      var h := (p + q) / 2;
      if !f(es[h]) {
        p := h + 1;
      } else {
        q := h;
      }
    }
    if Monotone(es, f) {
      ProbeFindsFirst(es, f, 0, |es|);
    }
  }

  /** index.idx: every index opened on it loads from and writes to the same bytes. */
  class IndexFile {
    var bytes: seq<Byte>

    constructor (bytes: seq<Byte>)
      ensures this.bytes == bytes
    {
      this.bytes := bytes;
    }
  }

  class Index {
    var entries: seq<IndexEntry>
    var dirty: bool
    const file: IndexFile

    function State(): IndexState
      reads this, file
    {
      IndexState(entries, dirty, file.bytes)
    }

    /** NewIndex: load entry by entry what whole entries the file holds. */
    constructor (file: IndexFile)
      ensures State() == LoadedIndex(file.bytes) && this.file == file
    {
      var bytes := file.bytes;
      var numEntries := |bytes| / INDEX_ENTRY_SIZE;
      var loaded: seq<IndexEntry> := [];
      for j := 0 to numEntries
        invariant loaded == DecodeUpTo(bytes, j)
      {
        var buf := bytes[j * INDEX_ENTRY_SIZE..(j + 1) * INDEX_ENTRY_SIZE];
        Uint64Bound(buf[0..8]);
        Uint64Bound(buf[8..16]);
        assert buf[0..8] == buf[..8] && buf[8..16] == buf[8..];
        loaded := loaded + [IndexEntry(ToInt64(FromBigEndian(buf[0..8])), ToInt64(FromBigEndian(buf[8..16])))];
      }
      this.entries := loaded;
      this.dirty := false;
      this.file := file;
    }

    method AddEntry(offset: Int64, position: Int64)
      modifies this
      ensures dirty && entries == Inserted(old(entries), IndexEntry(offset, position))
      ensures Sorted(old(entries)) ==>
                && entries == Upsert(old(entries), IndexEntry(offset, position))
                && Sorted(entries) && AsMap(entries) == AsMap(old(entries))[offset := position]
    {
      hide AsMap, Upsert, Sorted, Probe;
      var entry := IndexEntry(offset, position);
      ghost var before := entries;
      if Sorted(before) {
        InsertedIsUpsert(before, entry);
        UpsertKeepsSorted(before, entry);
        UpsertIsMapUpdate(before, entry);
      }
      var insertPos := Search(entries, AtLeast(offset));
      if insertPos < |entries| && entries[insertPos].offset == offset {
        entries := entries[insertPos := entry];
      } else {
        ShiftInserts(before, insertPos, IndexEntry(0, 0), entry);
        entries := entries + [IndexEntry(0, 0)];
        entries := entries[..insertPos + 1] + entries[insertPos..|entries| - 1];
        entries := entries[insertPos := entry];
      }
      dirty := true;
    }

    method GetPosition(offset: Int64) returns (result: Result<Int64, IndexError>)
      ensures var p := Probe(entries, AtLeast(offset), 0, |entries|);
              result == if p < |entries| && entries[p].offset == offset then Ok(entries[p].position)
                        else Err(OffsetNotFound)
      ensures Sorted(entries) ==>
                result == if offset in AsMap(entries) then Ok(AsMap(entries)[offset]) else Err(OffsetNotFound)
    {
      hide Probe;
      var es := entries;
      var pos := Search(es, AtLeast(offset));
      if Sorted(es) {
        SortedIsMonotone(es, offset);
        MapHoldsEntries(es);
      }
      if pos < |es| && es[pos].offset == offset {
        return Ok(es[pos].position);
      }
      if Sorted(es) {
        MissingKey(es, offset);
      }
      return Err(OffsetNotFound);
    }

    method GetClosestPosition(offset: Int64) returns (result: Result<(Int64, Int64), IndexError>)
      ensures entries == [] ==> result == Err(IndexEmpty)
      ensures entries != [] ==>
                var e := ClosestFound(entries, offset);
                result == Ok((e.offset, e.position)) && (Sorted(entries) ==> Closest(entries, offset) == Some(e))
    {
      hide Probe, Closest;
      if |entries| == 0 {
        return Err(IndexEmpty);
      }
      if Sorted(entries) {
        ClosestFoundIsClosest(entries, offset);
      }
      var pos := Search(entries, Above(offset));
      if pos == 0 {
        return Ok((entries[0].offset, entries[0].position));
      }
      pos := pos - 1;
      return Ok((entries[pos].offset, entries[pos].position));
    }

    method GetRange(startOffset: Int64, endOffset: Int64) returns (result: seq<IndexEntry>)
      ensures result == Within(entries[..UpTo(entries, endOffset)], startOffset, endOffset)
      ensures Sorted(entries) ==> result == Within(entries, startOffset, endOffset)
    {
      hide Within, Sorted, UpTo;
      if Sorted(entries) {
        NothingAfterBreak(entries, startOffset, endOffset);
      }
      result := [];
      NothingInNone(startOffset, endOffset);
      for i := 0 to |entries|
        invariant i <= UpTo(entries, endOffset)
        invariant result == Within(entries[..i], startOffset, endOffset)
      {
        var entry := entries[i];
        WithinOneMore(entries, i, startOffset, endOffset);
        if entry.offset >= startOffset && entry.offset <= endOffset {
          result := result + [entry];
        }
        if entry.offset > endOffset {
          return;
        }
      }
    }

    method Sync()
      modifies this, file
      ensures State() == SavedIndex(old(State()))
    {
      if !dirty {
        return;
      }
      Persist();
    }

    method Persist()
      modifies this, file
      ensures State() == IndexState(old(entries), false, Encode(old(entries)))
    {
      file.bytes := [];
      for i := 0 to |entries|
        invariant entries == old(entries)
        invariant file.bytes == Encode(entries[..i])
      {
        assert entries[..i + 1][..i] == entries[..i];
        var buf := BigEndian(ToUint64(entries[i].offset), 8) + BigEndian(ToUint64(entries[i].position), 8);
        file.bytes := file.bytes + buf;
      }
      assert entries[..|entries|] == entries;
      dirty := false;
    }

    method ScanSegment(bytes: seq<Byte>, segmentIndex: nat)
      modifies this
      ensures entries == old(entries) + Scan(bytes, segmentIndex, 0, 0)
      ensures dirty == old(dirty)
    {
      var position := 0;
      var filePosition := 0;
      while filePosition + HEADER_SIZE <= |bytes|
        invariant 0 <= position && 0 <= filePosition
        invariant old(entries) + Scan(bytes, segmentIndex, 0, 0)
               == entries + Scan(bytes, segmentIndex, filePosition, position)
        invariant dirty == old(dirty)
        decreases |bytes| - filePosition
      {
        ScanStep(bytes, segmentIndex, filePosition, position);
        var dataSize := SizeAt(bytes, filePosition);
        var globalOffset := Pack(segmentIndex, position);
        ghost var rest := Scan(bytes, segmentIndex, filePosition + HEADER_SIZE + dataSize,
                               position + PositionStep(dataSize));
        assert entries + ([IndexEntry(globalOffset, Wrap64(position))] + rest)
            == entries + [IndexEntry(globalOffset, Wrap64(position))] + rest;
        entries := entries + [IndexEntry(globalOffset, Wrap64(position))];
        filePosition := filePosition + HEADER_SIZE + dataSize;
        position := position + PositionStep(dataSize);
      }
    }

    method Rebuild(log: Log)
      modifies this, file
      ensures State() == IndexState(Rebuilt(log.directory.files), false, Encode(Rebuilt(log.directory.files)))
    {
      entries := [];
      var segments := log.ListSegments();
      for segmentIndex := 0 to |segments|
        invariant entries == RebuiltUpTo(log.directory.files, segments, segmentIndex)
      {
        ScanSegment(log.directory.files[segments[segmentIndex]], segmentIndex);
      }
      dirty := true;
      Persist();
    }
  }

  /** Growing by a blank, shifting the tail up by one and overwriting is insertion. */
  lemma ShiftInserts(es: seq<IndexEntry>, p: nat, blank: IndexEntry, e: IndexEntry)
    requires p <= |es|
    ensures var grown := es + [blank];
            (grown[..p + 1] + grown[p..|grown| - 1])[p := e] == es[..p] + [e] + es[p..]
  {
  }

  lemma ScanStep(bytes: seq<Byte>, segment: nat, filePosition: nat, position: nat)
    requires filePosition + HEADER_SIZE <= |bytes|
    ensures var size := SizeAt(bytes, filePosition);
            Scan(bytes, segment, filePosition, position)
              == [IndexEntry(Pack(segment, position), Wrap64(position))]
               + Scan(bytes, segment, filePosition + HEADER_SIZE + size, position + PositionStep(size))
  {
  }

  /** An offset that no entry has is not a key. */
  lemma {:induction false} MissingKey(es: seq<IndexEntry>, offset: Int64)
    requires forall i | 0 <= i < |es| :: es[i].offset != offset
    ensures offset !in AsMap(es)
  {
    if es != [] {
      MissingKey(es[..|es| - 1], offset);
    }
  }
}
