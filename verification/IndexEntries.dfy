/** The values an index holds: sorted entries, look-up, insertion and the persisted form (pkg/storage/index.go). */
module IndexEntries {
  import opened Numbers
  import opened Results

  const INDEX_ENTRY_SIZE: nat := 16

  datatype IndexEntry = IndexEntry(offset: Int64, position: Int64)

  predicate Sorted(es: seq<IndexEntry>) {
    forall i, j | 0 <= i < j < |es| :: es[i].offset < es[j].offset
  }

  /** The map from offsets to positions that an array stands for. */
  function AsMap(es: seq<IndexEntry>): map<Int64, Int64> {
    if es == [] then map[]
    else
      var e := es[|es| - 1];
      AsMap(es[..|es| - 1])[e.offset := e.position]
  }

  lemma SortedFront(es: seq<IndexEntry>)
    requires Sorted(es) && es != []
    ensures Sorted(es[..|es| - 1])
    ensures forall i | 0 <= i < |es| - 1 :: es[i].offset < es[|es| - 1].offset
  {
  }

  /** The keys of the map are the offsets of the array, each with its own position. */
  lemma {:induction false} MapHoldsEntries(es: seq<IndexEntry>)
    requires Sorted(es)
    ensures forall i | 0 <= i < |es| :: es[i].offset in AsMap(es) && AsMap(es)[es[i].offset] == es[i].position
    ensures forall o | o in AsMap(es) :: es != [] && es[0].offset <= o <= es[|es| - 1].offset
  {
    if es != [] {
      var front := es[..|es| - 1];
      SortedFront(es);
      MapHoldsEntries(front);
      forall i | 0 <= i < |es| - 1
        ensures es[i].offset in AsMap(es) && AsMap(es)[es[i].offset] == es[i].position
      {
        assert front[i] == es[i];
      }
    }
  }

  /** A sorted array is determined by its map: there is one array per map. */
  lemma {:induction false} SortedIsCanonical(a: seq<IndexEntry>, b: seq<IndexEntry>)
    requires Sorted(a) && Sorted(b) && AsMap(a) == AsMap(b)
    ensures a == b
  {
    MapHoldsEntries(a);
    MapHoldsEntries(b);
    if a != [] && b != [] {
      assert a[|a| - 1].offset == b[|b| - 1].offset;
      MapWithoutLast(a);
      MapWithoutLast(b);
      SortedIsCanonical(a[..|a| - 1], b[..|b| - 1]);
      assert a == a[..|a| - 1] + [a[|a| - 1]];
      assert b == b[..|b| - 1] + [b[|b| - 1]];
    }
  }

  lemma MapWithoutLast(es: seq<IndexEntry>)
    requires Sorted(es) && es != []
    ensures Sorted(es[..|es| - 1])
    ensures AsMap(es[..|es| - 1]) == AsMap(es) - {es[|es| - 1].offset}
  {
    var front, last := es[..|es| - 1], es[|es| - 1];
    SortedFront(es);
    MapHoldsEntries(front);
    assert AsMap(es) == AsMap(front)[last.offset := last.position];
    hide AsMap, Sorted;
    assert last.offset !in AsMap(front);
  }

  /** Insertion into a sorted array, replacing an entry of the same offset: a plain walk from the back. */
  function Upsert(es: seq<IndexEntry>, e: IndexEntry): seq<IndexEntry> {
    if es == [] then [e]
    else
      var front, last := es[..|es| - 1], es[|es| - 1];
      if last.offset < e.offset then es + [e]
      else if last.offset == e.offset then front + [e]
      else Upsert(front, e) + [last]
  }

  /** es with e inserted at p, or put in the place of an entry of the same offset. */
  function Placed(es: seq<IndexEntry>, e: IndexEntry, p: nat): seq<IndexEntry>
    requires p <= |es|
  {
    if p < |es| && es[p].offset == e.offset then es[p := e] else es[..p] + [e] + es[p..]
  }

  lemma PlacedBeforeLast(front: seq<IndexEntry>, last: IndexEntry, e: IndexEntry, p: nat)
    requires p <= |front| && last.offset > e.offset
    ensures Placed(front + [last], e, p) == Placed(front, e, p) + [last]
  {
    var es := front + [last];
    assert es[..p] == front[..p] && es[p..] == front[p..] + [last];
    assert es[..p] + [e] + es[p..] == front[..p] + [e] + front[p..] + [last];
  }

  lemma PlacedAtEnd(front: seq<IndexEntry>, last: IndexEntry, e: IndexEntry)
    ensures last.offset == e.offset ==> Placed(front + [last], e, |front|) == front + [e]
    ensures Placed(front + [last], e, |front| + 1) == front + [last] + [e]
  {
    var es := front + [last];
    assert es[..|es|] + [e] + es[|es|..] == es + [e];
  }

  /** What the walk builds, told by the first index whose offset is not below e's. */
  lemma {:induction false} UpsertAt(es: seq<IndexEntry>, e: IndexEntry, p: nat)
    requires p <= |es| && Sorted(es)
    requires forall j | 0 <= j < p :: es[j].offset < e.offset
    requires forall j | p <= j < |es| :: es[j].offset >= e.offset
    ensures Upsert(es, e) == Placed(es, e, p)
  {
    if es != [] {
      var front, last := es[..|es| - 1], es[|es| - 1];
      SortedFront(es);
      assert p < |front| ==> es[p].offset < last.offset;
      assert es == front + [last];
      hide Placed, Sorted;
      PlacedAtEnd(front, last, e);
      if last.offset > e.offset {
        UpsertAt(front, e, p);
        PlacedBeforeLast(front, last, e, p);
      }
    }
  }

  // ---------- sort.Search ----------

  function AtLeast(offset: Int64): IndexEntry -> bool {
    (e: IndexEntry) => e.offset >= offset
  }

  function Above(offset: Int64): IndexEntry -> bool {
    (e: IndexEntry) => e.offset > offset
  }

  /** sort.Search by halving between i and j: on any array whatever, it ends somewhere. */
  function Probe(es: seq<IndexEntry>, f: IndexEntry -> bool, i: nat, j: nat): (p: nat)
    requires i <= j <= |es|
    ensures i <= p <= j
    decreases j - i
  {
    if i == j then i
    else
      var h := (i + j) / 2;
      if f(es[h]) then Probe(es, f, i, h) else Probe(es, f, h + 1, j)
  }

  /** Once f holds it goes on holding. */
  ghost predicate Monotone(es: seq<IndexEntry>, f: IndexEntry -> bool) {
    forall i, j | 0 <= i <= j < |es| && f(es[i]) :: f(es[j])
  }

  lemma SortedIsMonotone(es: seq<IndexEntry>, offset: Int64)
    requires Sorted(es)
    ensures Monotone(es, AtLeast(offset)) && Monotone(es, Above(offset))
  {
  }

  /** On an array where f is monotone the search finds the first index at which f holds. */
  lemma {:induction false} ProbeFindsFirst(es: seq<IndexEntry>, f: IndexEntry -> bool, i: nat, j: nat)
    requires i <= j <= |es| && Monotone(es, f)
    requires forall h | 0 <= h < i :: !f(es[h])
    requires forall h | j <= h < |es| :: f(es[h])
    ensures forall h | 0 <= h < Probe(es, f, i, j) :: !f(es[h])
    ensures forall h | Probe(es, f, i, j) <= h < |es| :: f(es[h])
    decreases j - i
  {
    if i < j {
      var h := (i + j) / 2;
      if f(es[h]) {
        ProbeFindsFirst(es, f, i, h);
      } else {
        ProbeFindsFirst(es, f, h + 1, j);
      }
    }
  }

  /** AddEntry's insertion on any array: e is placed where the search ends. */
  function Inserted(es: seq<IndexEntry>, e: IndexEntry): seq<IndexEntry> {
    Placed(es, e, Probe(es, AtLeast(e.offset), 0, |es|))
  }

  /** On a sorted array that is the insertion that keeps it sorted. */
  lemma InsertedIsUpsert(es: seq<IndexEntry>, e: IndexEntry)
    requires Sorted(es)
    ensures Inserted(es, e) == Upsert(es, e)
  {
    hide Placed, Upsert, Probe;
    SortedIsMonotone(es, e.offset);
    ProbeFindsFirst(es, AtLeast(e.offset), 0, |es|);
    UpsertAt(es, e, Probe(es, AtLeast(e.offset), 0, |es|));
  }

  lemma {:induction false} UpsertKeepsSorted(es: seq<IndexEntry>, e: IndexEntry)
    requires Sorted(es)
    ensures Sorted(Upsert(es, e))
    ensures forall i | 0 <= i < |Upsert(es, e)| :: Upsert(es, e)[i] == e || Upsert(es, e)[i] in es
  {
    if es != [] {
      SortedFront(es);
      UpsertKeepsSorted(es[..|es| - 1], e);
    }
  }

  lemma MapOfOneMore(es: seq<IndexEntry>, e: IndexEntry)
    ensures AsMap(es + [e]) == AsMap(es)[e.offset := e.position]
  {
    assert (es + [e])[..|es|] == es;
  }

  lemma UpdatesCommute(m: map<Int64, Int64>, a: IndexEntry, b: IndexEntry)
    ensures a.offset != b.offset ==>
              m[a.offset := a.position][b.offset := b.position] == m[b.offset := b.position][a.offset := a.position]
    ensures a.offset == b.offset ==> m[a.offset := a.position][b.offset := b.position] == m[b.offset := b.position]
  {
  }

  /** Insertion into a sorted array is map update. */
  lemma {:induction false} UpsertIsMapUpdate(es: seq<IndexEntry>, e: IndexEntry)
    requires Sorted(es)
    ensures AsMap(Upsert(es, e)) == AsMap(es)[e.offset := e.position]
  {
    MapOfOneMore(es, e);
    if es != [] {
      var front, last := es[..|es| - 1], es[|es| - 1];
      SortedFront(es);
      MapOfOneMore(front, last);
      assert es == front + [last];
      hide AsMap, Sorted;
      UpdatesCommute(AsMap(front), e, last);
      UpdatesCommute(AsMap(front), last, e);
      if last.offset == e.offset {
        MapOfOneMore(front, e);
      } else if last.offset > e.offset {
        UpsertIsMapUpdate(front, e);
        MapOfOneMore(Upsert(front, e), last);
      }
    }
  }

  /** The last entry not above target; the first entry when all are above it. */
  function Closest(es: seq<IndexEntry>, target: Int64): Option<IndexEntry> {
    if es == [] then None
    else if |es| == 1 || es[|es| - 1].offset <= target then Some(es[|es| - 1])
    else Closest(es[..|es| - 1], target)
  }

  /** Closest is floor in the index's map, or its least key when there is no floor. */
  lemma {:induction false} ClosestIsFloor(es: seq<IndexEntry>, target: Int64)
    requires Sorted(es) && es != []
    ensures Closest(es, target).Some?
    ensures var e := Closest(es, target).value;
            && e.offset in AsMap(es) && AsMap(es)[e.offset] == e.position
            && (e.offset <= target ==> forall o | o in AsMap(es) && o <= target :: o <= e.offset)
            && (e.offset > target ==> forall o | o in AsMap(es) :: target < e.offset <= o)
  {
    MapHoldsEntries(es);
    if |es| > 1 && es[|es| - 1].offset > target {
      SortedFront(es);
      ClosestIsFloor(es[..|es| - 1], target);
    }
  }

  lemma {:induction false} ClosestAt(es: seq<IndexEntry>, target: Int64, p: nat)
    requires es != [] && p <= |es|
    requires forall j | 0 <= j < p :: es[j].offset <= target
    requires forall j | p <= j < |es| :: es[j].offset > target
    ensures Closest(es, target) == Some(es[if p == 0 then 0 else p - 1])
  {
    if p < |es| && |es| > 1 {
      ClosestAt(es[..|es| - 1], target, p);
    }
  }

  /** GetClosestPosition on any array: the entry before the one where the search ends, or the first. */
  function ClosestFound(es: seq<IndexEntry>, target: Int64): IndexEntry
    requires es != []
  {
    var p := Probe(es, Above(target), 0, |es|);
    es[if p == 0 then 0 else p - 1]
  }

  lemma ClosestFoundIsClosest(es: seq<IndexEntry>, target: Int64)
    requires Sorted(es) && es != []
    ensures Closest(es, target) == Some(ClosestFound(es, target))
  {
    SortedIsMonotone(es, target);
    ProbeFindsFirst(es, Above(target), 0, |es|);
    ClosestAt(es, target, Probe(es, Above(target), 0, |es|));
  }

  /** The entries whose offset lies in [lo, hi], tested one by one. */
  function Within(es: seq<IndexEntry>, lo: Int64, hi: Int64): seq<IndexEntry> {
    if es == [] then []
    else
      var e := es[|es| - 1];
      Within(es[..|es| - 1], lo, hi) + if lo <= e.offset <= hi then [e] else []
  }

  lemma NothingInNone(lo: Int64, hi: Int64)
    ensures Within([], lo, hi) == []
  {
  }

  lemma WithinOneMore(es: seq<IndexEntry>, i: nat, lo: Int64, hi: Int64)
    requires i < |es|
    ensures Within(es[..i + 1], lo, hi) == Within(es[..i], lo, hi) + if lo <= es[i].offset <= hi then [es[i]] else []
  {
    assert es[..i + 1][..i] == es[..i];
  }

  /** A range keeps exactly the entries in it. */
  lemma {:induction false} WithinHolds(es: seq<IndexEntry>, lo: Int64, hi: Int64, x: IndexEntry)
    ensures x in Within(es, lo, hi) <==> x in es && lo <= x.offset <= hi
  {
    if es != [] {
      var front, e := es[..|es| - 1], es[|es| - 1];
      assert es == front + [e];
      WithinHolds(front, lo, hi, x);
    }
  }

  /** A range keeps exactly the entries in it, in the array's order. */
  lemma {:induction false} WithinKeepsRange(es: seq<IndexEntry>, lo: Int64, hi: Int64)
    requires Sorted(es)
    ensures forall x :: x in Within(es, lo, hi) <==> x in es && lo <= x.offset <= hi
    ensures Sorted(Within(es, lo, hi))
  {
    forall x
      ensures x in Within(es, lo, hi) <==> x in es && lo <= x.offset <= hi
    {
      WithinHolds(es, lo, hi, x);
    }
    if es != [] {
      var front, e := es[..|es| - 1], es[|es| - 1];
      SortedFront(es);
      WithinKeepsRange(front, lo, hi);
      var kept := Within(front, lo, hi);
      forall i | 0 <= i < |kept|
        ensures kept[i].offset < e.offset
      {
        assert kept[i] in front;
      }
    }
  }

  lemma {:induction false} NothingWithinBeyond(es: seq<IndexEntry>, p: nat, lo: Int64, hi: Int64)
    requires p <= |es| && forall j | p <= j < |es| :: es[j].offset > hi
    ensures Within(es, lo, hi) == Within(es[..p], lo, hi)
  {
    if p < |es| {
      NothingWithinBeyond(es[..|es| - 1], p, lo, hi);
      assert es[..|es| - 1][..p] == es[..p];
    } else {
      assert es[..p] == es;
    }
  }

  /** GetRange's loop on any array: it stops at the first entry above hi. */
  function UpTo(es: seq<IndexEntry>, hi: Int64): (n: nat)
    ensures n <= |es| && forall i | 0 <= i < n :: es[i].offset <= hi
    ensures n < |es| ==> es[n].offset > hi
  {
    if es == [] || es[0].offset > hi then 0 else 1 + UpTo(es[1..], hi)
  }

  /** On a sorted array nothing in the range comes after that. */
  lemma NothingAfterBreak(es: seq<IndexEntry>, lo: Int64, hi: Int64)
    requires Sorted(es)
    ensures Within(es[..UpTo(es, hi)], lo, hi) == Within(es, lo, hi)
  {
    NothingWithinBeyond(es, UpTo(es, hi), lo, hi);
  }

  // ---------- The persisted form ----------

  function EncodeEntry(e: IndexEntry): (bytes: seq<Byte>)
    ensures |bytes| == INDEX_ENTRY_SIZE
  {
    BigEndian(ToUint64(e.offset), 8) + BigEndian(ToUint64(e.position), 8)
  }

  /** persist: the entries one after the other. */
  function Encode(es: seq<IndexEntry>): (bytes: seq<Byte>)
    ensures |bytes| == INDEX_ENTRY_SIZE * |es|
  {
    if es == [] then [] else Encode(es[..|es| - 1]) + EncodeEntry(es[|es| - 1])
  }

  function DecodeEntry(bytes: seq<Byte>): IndexEntry
    requires |bytes| == INDEX_ENTRY_SIZE
  {
    Uint64Bound(bytes[..8]);
    Uint64Bound(bytes[8..]);
    IndexEntry(ToInt64(FromBigEndian(bytes[..8])), ToInt64(FromBigEndian(bytes[8..])))
  }

  /** load: as many whole entries as the file holds; a shorter rest is not looked at. */
  function Decode(bytes: seq<Byte>): seq<IndexEntry> {
    DecodeUpTo(bytes, |bytes| / INDEX_ENTRY_SIZE)
  }

  function DecodeUpTo(bytes: seq<Byte>, n: nat): (es: seq<IndexEntry>)
    requires n * INDEX_ENTRY_SIZE <= |bytes|
    ensures |es| == n
  {
    if n == 0 then []
    else DecodeUpTo(bytes, n - 1) + [DecodeEntry(bytes[(n - 1) * INDEX_ENTRY_SIZE..n * INDEX_ENTRY_SIZE])]
  }

  /** The bytes of an entry: eight of its offset, then eight of its position, each modulo 2^64. */
  lemma EntryLayout(e: IndexEntry, k: nat)
    requires k < 16
    ensures EncodeEntry(e)[k] == if k < 8 then e.offset % TWO_64 / Pow256(7 - k) % 256
                                 else e.position % TWO_64 / Pow256(15 - k) % 256
  {
    hide BigEndian, Pow256;
    if k < 8 {
      BigEndianByte(ToUint64(e.offset), 8, k);
    } else {
      BigEndianByte(ToUint64(e.position), 8, k - 8);
    }
  }

  lemma EntryRoundTrip(e: IndexEntry)
    ensures DecodeEntry(EncodeEntry(e)) == e
  {
    hide BigEndian, FromBigEndian;
    Int64RoundTrip(e.offset);
    Int64RoundTrip(e.position);
    assert EncodeEntry(e)[..8] == BigEndian(ToUint64(e.offset), 8);
    assert EncodeEntry(e)[8..] == BigEndian(ToUint64(e.position), 8);
  }

  lemma {:induction false} DecodePrefix(es: seq<IndexEntry>, rest: seq<Byte>)
    ensures DecodeUpTo(Encode(es) + rest, |es|) == es
  {
    hide EncodeEntry, DecodeEntry;
    if es != [] {
      var n := |es| - 1;
      var last := EncodeEntry(es[n]);
      assert Encode(es) + rest == Encode(es[..n]) + (last + rest);
      DecodePrefix(es[..n], last + rest);
      assert (Encode(es) + rest)[n * INDEX_ENTRY_SIZE..(n + 1) * INDEX_ENTRY_SIZE] == last;
      EntryRoundTrip(es[n]);
    }
  }

  /** Loading what was persisted restores it, also when a fragment of a further entry follows. */
  lemma LoadAfterPersist(es: seq<IndexEntry>, fragment: seq<Byte>)
    requires |fragment| < INDEX_ENTRY_SIZE
    ensures Decode(Encode(es) + fragment) == es
  {
    DecodePrefix(es, fragment);
  }
}
