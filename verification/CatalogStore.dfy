/** Consumer offsets and their snapshot on disk (pkg/storage/catalog.go). */
module CatalogStore {
  import opened Numbers
  import opened Results

  type Offsets = map<string, Int64>

  /** file is the snapshot consumers.json holds, None while there is no such file. */
  datatype CatalogState = CatalogState(consumers: Offsets, dirty: bool, file: Option<Offsets>)

  function LoadedCatalog(file: Option<Offsets>): CatalogState {
    CatalogState(if file.Some? then file.value else map[], false, file)
  }

  /** Sync and Close: write the snapshot when the map has changed. */
  function SavedCatalog(st: CatalogState): CatalogState {
    if st.dirty then CatalogState(st.consumers, false, Some(st.consumers)) else st
  }

  /** Unless it is dirty, the catalog is what its file holds. */
  ghost predicate ValidCatalog(st: CatalogState) {
    !st.dirty ==> LoadedCatalog(st.file).consumers == st.consumers
  }

  /** An unknown consumer starts at offset 0. */
  function OffsetOf(consumers: Offsets, consumer: string): Int64 {
    if consumer in consumers then consumers[consumer] else 0
  }

  function Updated(st: CatalogState, consumer: string, offset: Int64): CatalogState {
    CatalogState(st.consumers[consumer := offset], true, st.file)
  }

  /** The running minimum of GetMinOffset, for the order in which the map's values come. */
  function MinScan(offsets: seq<Int64>): Int64 {
    if offsets == [] then -1
    else
      var min, o := MinScan(offsets[..|offsets| - 1]), offsets[|offsets| - 1];
      if min == -1 || o < min then o else min
  }

  /** The running maximum of GetMaxOffset. */
  function MaxScan(offsets: seq<Int64>): Int64 {
    if offsets == [] then 0
    else
      var max, o := MaxScan(offsets[..|offsets| - 1]), offsets[|offsets| - 1];
      if o > max then o else max
  }

  ghost predicate IsMinimum(m: Int64, offsets: seq<Int64>) {
    m in offsets && forall o | o in offsets :: m <= o
  }

  ghost predicate IsMaximum(m: Int64, offsets: seq<Int64>) {
    m in offsets && forall o | o in offsets :: o <= m
  }

  ghost predicate SomeBelow(bound: int, offsets: seq<Int64>) {
    exists o :: o in offsets && o < bound
  }

  lemma OneMore(front: seq<Int64>, last: Int64)
    ensures forall o :: o in front + [last] <==> o in front || o == last
    ensures SomeBelow(-1, front + [last]) <==> SomeBelow(-1, front) || last < -1
  {
    var offsets := front + [last];
    assert forall o :: o in offsets <==> o in front || o == last;
    assert last in offsets;
  }

  /** Where the scan stands after any prefix, told by whether -1 or something below it was met. */
  lemma {:induction false} MinScanCases(offsets: seq<Int64>)
    requires offsets != []
    ensures var m, last := MinScan(offsets), offsets[|offsets| - 1];
            if SomeBelow(-1, offsets) || -1 !in offsets then IsMinimum(m, offsets)
            else (m == -1 <==> last == -1) && m >= -1
  {
    var front, last := offsets[..|offsets| - 1], offsets[|offsets| - 1];
    OneMore(front, last);
    assert offsets == front + [last];
    if front != [] {
      MinScanCases(front);
      if !SomeBelow(-1, front) {
        assert forall o | o in front :: o >= -1;
      } else {
        assert MinScan(front) < -1;
      }
    }
  }

  /** GetMinOffset is the least offset unless that is -1, its mark for "none yet", and no -1 comes last. */
  lemma MinScanIsMinimum(offsets: seq<Int64>)
    requires offsets != []
    ensures IsMinimum(MinScan(offsets), offsets)
       <==> !IsMinimum(-1, offsets) || offsets[|offsets| - 1] == -1
  {
    MinScanCases(offsets);
    if -1 in offsets && !SomeBelow(-1, offsets) {
      assert IsMinimum(-1, offsets);
    }
  }

  lemma {:induction false} MaxScanCases(offsets: seq<Int64>)
    ensures MaxScan(offsets) >= 0
    ensures forall o | o in offsets :: o <= MaxScan(offsets)
    ensures MaxScan(offsets) in offsets || (MaxScan(offsets) == 0 && forall o | o in offsets :: o < 0)
  {
    if offsets != [] {
      var front, last := offsets[..|offsets| - 1], offsets[|offsets| - 1];
      assert forall o :: o in offsets <==> o in front || o == last by {
        assert offsets == front + [last];
      }
      MaxScanCases(front);
    }
  }

  /** GetMaxOffset is the greatest offset exactly when some offset is not negative. */
  lemma MaxScanIsMaximum(offsets: seq<Int64>)
    ensures IsMaximum(MaxScan(offsets), offsets) <==> exists o :: o in offsets && o >= 0
  {
    MaxScanCases(offsets);
  }

  /** The offsets of the consumers of order, in that order. */
  function OffsetsIn(consumers: Offsets, order: seq<string>): seq<Int64>
    requires forall i | 0 <= i < |order| :: order[i] in consumers
  {
    seq(|order|, i requires 0 <= i < |order| => consumers[order[i]])
  }

  /** consumers.json: every catalog opened on it loads and writes the same snapshot, None while there is no file. */
  class SnapshotFile {
    var content: Option<Offsets>

    constructor (content: Option<Offsets>)
      ensures this.content == content
    {
      this.content := content;
    }
  }

  class Catalog {
    var consumers: Offsets
    var dirty: bool
    const file: SnapshotFile

    function State(): CatalogState
      reads this, file
    {
      CatalogState(consumers, dirty, file.content)
    }

    constructor (file: SnapshotFile)
      ensures State() == LoadedCatalog(file.content) && this.file == file
    {
      this.consumers := if file.content.Some? then file.content.value else map[];
      this.dirty := false;
      this.file := file;
    }

    method UpdateOffset(consumer: string, offset: Int64)
      modifies this
      ensures State() == Updated(old(State()), consumer, offset)
    {
      consumers := consumers[consumer := offset];
      dirty := true;
    }

    function GetOffset(consumer: string): (offset: Int64)
      reads this
      ensures consumer !in consumers ==> offset == 0
      ensures consumer in consumers ==> offset == consumers[consumer]
    {
      OffsetOf(consumers, consumer)
    }

    /** Writing the snapshot fails, and changes nothing, when a directory stands in the place of a file it needs. */
    method Sync(writable: bool) returns (ok: bool)
      modifies this, file
      ensures ok <==> writable || !old(dirty)
      ensures State() == if writable then SavedCatalog(old(State())) else old(State())
    {
      if !dirty {
        return true;
      }
      if !writable {
        return false;
      }
      file.content := Some(consumers);
      dirty := false;
      return true;
    }

    /** order is the order in which Go's map iteration happens to list the consumers. */
    method GetMinOffset(order: seq<string>) returns (minOffset: Int64)
      requires forall k :: k in order <==> k in consumers
      ensures consumers == map[] ==> minOffset == 0
      ensures consumers != map[] ==> minOffset == MinScan(OffsetsIn(consumers, order))
    {
      if |consumers| == 0 {
        return 0;
      }
      minOffset := -1;
      for i := 0 to |order|
        invariant minOffset == MinScan(OffsetsIn(consumers, order)[..i])
      {
        var offset := consumers[order[i]];
        if minOffset == -1 || offset < minOffset {
          minOffset := offset;
        }
        assert OffsetsIn(consumers, order)[..i + 1][..i] == OffsetsIn(consumers, order)[..i];
      }
      assert OffsetsIn(consumers, order)[..|order|] == OffsetsIn(consumers, order);
    }

    method GetMaxOffset(order: seq<string>) returns (maxOffset: Int64)
      requires forall k :: k in order <==> k in consumers
      ensures maxOffset == MaxScan(OffsetsIn(consumers, order))
    {
      maxOffset := 0;
      for i := 0 to |order|
        invariant maxOffset == MaxScan(OffsetsIn(consumers, order)[..i])
      {
        var offset := consumers[order[i]];
        if offset > maxOffset {
          maxOffset := offset;
        }
        assert OffsetsIn(consumers, order)[..i + 1][..i] == OffsetsIn(consumers, order)[..i];
      }
      assert OffsetsIn(consumers, order)[..|order|] == OffsetsIn(consumers, order);
    }
  }
}
