/** The index that Rebuild makes of a whole directory, and when it addresses the log. */
module Rebuilding {
  import opened Numbers
  import opened Results
  import opened Offsets
  import opened Framing
  import opened SegmentLog
  import opened SegmentReads
  import opened IndexEntries
  import opened SegmentScan

  /** Rebuild over the first n files of a listing: each scanned under its place in the list, not its name. */
  function RebuiltUpTo(files: Files, listing: seq<nat>, n: nat): seq<IndexEntry>
    requires n <= |listing| && forall i | 0 <= i < |listing| :: listing[i] in files
  {
    if n == 0 then [] else RebuiltUpTo(files, listing, n - 1) + Scan(files[listing[n - 1]], n - 1, 0, 0)
  }

  function Rebuilt(files: Files): seq<IndexEntry> {
    var listing: seq<nat> := Ascending(files.Keys);
    RebuiltUpTo(files, listing, |listing|)
  }

  /** Every segment file is well framed and below 2^32 bytes. */
  ghost predicate Framed(files: Files, contents: map<nat, seq<Record>>) {
    files.Keys == contents.Keys && forall n | n in files :: Holds(files, n, contents[n])
  }

  lemma FramedSegment(files: Files, contents: map<nat, seq<Record>>, n: nat)
    requires Framed(files, contents) && n in files
    ensures n < TWO_31 && Holds(files, n, contents[n])
  {
    assert Holds(files, n, contents[n]);
  }

  /** The entries of the first n listed segments when segment listing[i] is given the number numbers[i]. */
  ghost function Numbered(contents: map<nat, seq<Record>>, listing: seq<nat>, numbers: seq<nat>, n: nat)
      : seq<IndexEntry>
    requires n <= |listing| == |numbers| && forall i | 0 <= i < |listing| :: listing[i] in contents
  {
    if n == 0 then []
    else Numbered(contents, listing, numbers, n - 1) + IndexOf(numbers[n - 1], contents[listing[n - 1]])
  }

  /** One entry per record of the directory, each with the offset at which Read finds the record. */
  ghost function TrueIndex(contents: map<nat, seq<Record>>): seq<IndexEntry> {
    var listing: seq<nat> := Ascending(contents.Keys);
    Numbered(contents, listing, listing, |listing|)
  }

  /** The numbers a list's places stand for. */
  function Places(n: nat): (places: seq<nat>)
    ensures |places| == n && forall i | 0 <= i < n :: places[i] == i
  {
    seq(n, i => i)
  }

  lemma {:induction false} RebuiltIsNumberedByPlace(files: Files, contents: map<nat, seq<Record>>,
                                                    listing: seq<nat>, n: nat)
    requires Framed(files, contents) && n <= |listing|
    requires forall i | 0 <= i < |listing| :: listing[i] in files
    ensures RebuiltUpTo(files, listing, n) == Numbered(contents, listing, Places(|listing|), n)
  {
    hide Scan, Stream, Places, IndexOf;
    if n > 0 {
      RebuiltIsNumberedByPlace(files, contents, listing, n - 1);
      var s := listing[n - 1];
      FramedSegment(files, contents, s);
      ScanSegmentFile(n - 1, contents[s]);
    }
  }

  /** Two numberings give the same entries exactly when they agree on every segment that has a record. */
  lemma {:induction false} NumberingsAgree(contents: map<nat, seq<Record>>, listing: seq<nat>,
                                           a: seq<nat>, b: seq<nat>, n: nat)
    requires n <= |listing| == |a| == |b| && forall i | 0 <= i < |listing| :: listing[i] in contents
    requires forall i | 0 <= i < |listing| :: a[i] < TWO_31 && b[i] < TWO_31
    ensures |Numbered(contents, listing, a, n)| == |Numbered(contents, listing, b, n)|
    ensures Numbered(contents, listing, a, n) == Numbered(contents, listing, b, n)
       <==> forall i | 0 <= i < n && contents[listing[i]] != [] :: a[i] == b[i]
  {
    if n > 0 {
      NumberingsAgree(contents, listing, a, b, n - 1);
      var rs := contents[listing[n - 1]];
      var x, y := IndexOf(a[n - 1], rs), IndexOf(b[n - 1], rs);
      SplitEqual(Numbered(contents, listing, a, n - 1), x, Numbered(contents, listing, b, n - 1), y);
      if rs != [] && a[n - 1] != b[n - 1] {
        PackRoundTrip(a[n - 1], 0);
        PackRoundTrip(b[n - 1], 0);
        assert x[0] != y[0];
      }
    }
  }

  lemma SplitEqual<T>(a: seq<T>, x: seq<T>, b: seq<T>, y: seq<T>)
    requires |a| == |b|
    ensures a + x == b + y <==> a == b && x == y
  {
    if a + x == b + y {
      assert a == (a + x)[..|a|] && x == (a + x)[|a|..];
      assert b == (b + y)[..|b|] && y == (b + y)[|b|..];
    }
  }

  lemma {:induction false} AscendingBelow(listing: seq<nat>, i: nat)
    requires forall j, k | 0 <= j < k < |listing| :: listing[j] < listing[k]
    requires i < |listing|
    ensures i <= listing[i]
  {
    if i > 0 {
      AscendingBelow(listing, i - 1);
    }
  }

  /**
   * Rebuild gives every record of the directory its readable offset exactly when each segment
   * that holds a record stands in the listing at the place of its own number.
   */
  lemma RebuildIsExact(files: Files, contents: map<nat, seq<Record>>)
    requires Framed(files, contents)
    ensures var listing := Ascending(files.Keys);
            (Rebuilt(files) == TrueIndex(contents)
             <==> forall i | 0 <= i < |listing| && contents[listing[i]] != [] :: listing[i] == i)
  {
    hide Ascending, RebuiltUpTo, Numbered, Holds;
    var listing: seq<nat> := Ascending(files.Keys);
    RebuiltIsNumberedByPlace(files, contents, listing, |listing|);
    var places := Places(|listing|);
    forall i | 0 <= i < |listing|
      ensures places[i] < TWO_31 && listing[i] < TWO_31
    {
      AscendingBelow(listing, i);
      FramedSegment(files, contents, listing[i]);
    }
    NumberingsAgree(contents, listing, places, listing, |listing|);
  }

  /** The segments are numbered 0..n-1. */
  ghost predicate GapFree(files: Files) {
    forall s, t | s in files && 0 <= t < s :: t in files
  }

  lemma {:induction false} GapFreePlaces(files: Files, i: nat)
    requires GapFree(files) && i < |Ascending(files.Keys)|
    ensures Ascending(files.Keys)[i] == i
    decreases i
  {
    var listing: seq<nat> := Ascending(files.Keys);
    AscendingBelow(listing, i);
    if listing[i] > i {
      assert listing[i] in files && i in files;
      var j :| 0 <= j < |listing| && listing[j] == i;
      GapFreePlaces(files, j);
    }
  }

  /** All records of the first n listed segments, as Read returns them. */
  ghost function EntriesUpTo(contents: map<nat, seq<Record>>, listing: seq<nat>, n: nat): seq<LogEntry>
    requires n <= |listing| && forall i | 0 <= i < |listing| :: listing[i] in contents
  {
    if n == 0 then []
    else EntriesUpTo(contents, listing, n - 1) + Entries(listing[n - 1], contents[listing[n - 1]])
  }

  /** The entry of each record of one segment is where Read finds that record. */
  lemma SegmentIndexReads(files: Files, n: nat, rs: seq<Record>)
    requires Holds(files, n, rs)
    ensures forall k | 0 <= k < |rs| :: Read(files, IndexOf(n, rs)[k].offset) == Ok(Entries(n, rs)[k])
    ensures forall k | 0 <= k < |rs| :: n * TWO_32 <= IndexOf(n, rs)[k].offset < (n + 1) * TWO_32
    ensures Sorted(IndexOf(n, rs))
  {
    hide Stream, Read, Pack, Start;
    HoldsIsUncut(files, n, rs);
    forall k | 0 <= k < |rs|
      ensures Read(files, IndexOf(n, rs)[k].offset) == Ok(Entries(n, rs)[k])
      ensures n * TWO_32 <= IndexOf(n, rs)[k].offset < (n + 1) * TWO_32
    {
      StartIncreases(rs, k + 1, |rs|);
      StartIncreases(rs, k, k + 1);
      ReadRecord(files, n, rs, |Stream(rs)|, k);
      PackIsSum(n, Start(rs, k));
    }
    forall j, k | 0 <= j < k < |rs|
      ensures IndexOf(n, rs)[j].offset < IndexOf(n, rs)[k].offset
    {
      StartIncreases(rs, j, k);
      StartIncreases(rs, k, |rs|);
      PackPreservesOrder(n, Start(rs, j), n, Start(rs, k));
    }
  }

  /** The index entries ascend, lie in [low, high), and Read finds the log entries at them, in order. */
  ghost predicate ReadsInOrder(files: Files, es: seq<IndexEntry>, logs: seq<LogEntry>, low: int, high: int) {
    && |es| == |logs|
    && Sorted(es)
    && (forall i | 0 <= i < |es| :: Read(files, es[i].offset) == Ok(logs[i]))
    && (forall i | 0 <= i < |es| :: low <= es[i].offset < high)
  }

  lemma OrdersJoin(files: Files, a: seq<IndexEntry>, la: seq<LogEntry>, b: seq<IndexEntry>, lb: seq<LogEntry>,
                   low: int, mid: int, high: int)
    requires ReadsInOrder(files, a, la, low, mid) && ReadsInOrder(files, b, lb, mid, high) && low <= mid <= high
    ensures ReadsInOrder(files, a + b, la + lb, low, high)
  {
    hide Read;
  }

  lemma WiderRange(files: Files, es: seq<IndexEntry>, logs: seq<LogEntry>, low: int, high: int, higher: int)
    requires ReadsInOrder(files, es, logs, low, high) && high <= higher
    ensures ReadsInOrder(files, es, logs, low, higher)
  {
    hide Read, Sorted;
  }

  /** The first offset behind the address ranges of the first n listed segments. */
  function RangeEnd(listing: seq<nat>, n: nat): nat
    requires n <= |listing|
  {
    if n == 0 then 0 else (listing[n - 1] + 1) * TWO_32
  }

  /** The listing names files, in ascending order. */
  ghost predicate ListsFiles(files: Files, listing: seq<nat>) {
    && (forall i | 0 <= i < |listing| :: listing[i] in files)
    && (forall i, j | 0 <= i < j < |listing| :: listing[i] < listing[j])
  }

  lemma RangesAscend(files: Files, listing: seq<nat>, n: nat)
    requires 0 < n <= |listing| && ListsFiles(files, listing)
    ensures listing[n - 1] in files
    ensures 0 <= RangeEnd(listing, n - 1) <= listing[n - 1] * TWO_32
    ensures RangeEnd(listing, n) == (listing[n - 1] + 1) * TWO_32
  {
  }

  lemma {:induction false} TrueIndexReadsUpTo(files: Files, contents: map<nat, seq<Record>>, listing: seq<nat>, n: nat)
    requires Framed(files, contents) && n <= |listing| && ListsFiles(files, listing)
    requires forall i | 0 <= i < |listing| :: listing[i] in contents
    ensures ReadsInOrder(files, Numbered(contents, listing, listing, n), EntriesUpTo(contents, listing, n),
                         0, RangeEnd(listing, n))
  {
    hide Read, IndexOf, Entries, ReadsInOrder, Holds, Framed, RangeEnd, ListsFiles;
    if n == 0 {
      NothingInOrder(files);
      NoRange(listing);
    } else {
      TrueIndexReadsUpTo(files, contents, listing, n - 1);
      RangesAscend(files, listing, n);
      NextSegmentInOrder(files, contents, listing[n - 1], Numbered(contents, listing, listing, n - 1),
                         EntriesUpTo(contents, listing, n - 1), RangeEnd(listing, n - 1));
    }
  }

  lemma NoRange(listing: seq<nat>)
    ensures RangeEnd(listing, 0) == 0
  {
  }

  /** Entries in order up to somewhere below segment s, and then those of segment s. */
  lemma NextSegmentInOrder(files: Files, contents: map<nat, seq<Record>>, s: nat, es: seq<IndexEntry>,
                           logs: seq<LogEntry>, end: nat)
    requires Framed(files, contents) && s in files && s in contents
    requires ReadsInOrder(files, es, logs, 0, end) && end <= s * TWO_32
    ensures ReadsInOrder(files, es + IndexOf(s, contents[s]), logs + Entries(s, contents[s]), 0, (s + 1) * TWO_32)
  {
    hide Read, IndexOf, Entries, ReadsInOrder, Holds, Framed;
    FramedSegment(files, contents, s);
    SegmentReadsInOrder(files, s, contents[s]);
    WiderRange(files, es, logs, 0, end, s * TWO_32);
    OrdersJoin(files, es, logs, IndexOf(s, contents[s]), Entries(s, contents[s]), 0, s * TWO_32, (s + 1) * TWO_32);
  }

  lemma OrderOf(files: Files, es: seq<IndexEntry>, logs: seq<LogEntry>, low: int, high: int)
    requires ReadsInOrder(files, es, logs, low, high)
    ensures |es| == |logs| && Sorted(es)
    ensures forall i | 0 <= i < |es| :: Read(files, es[i].offset) == Ok(logs[i])
  {
    hide Read, Sorted;
  }

  lemma NothingInOrder(files: Files)
    ensures ReadsInOrder(files, [], [], 0, 0)
  {
  }

  lemma SegmentReadsInOrder(files: Files, n: nat, rs: seq<Record>)
    requires Holds(files, n, rs)
    ensures ReadsInOrder(files, IndexOf(n, rs), Entries(n, rs), n * TWO_32, (n + 1) * TWO_32)
  {
    hide Read, Sorted, Holds;
    SegmentIndexReads(files, n, rs);
  }

  /**
   * Rebuilding a directory of segments 0..n-1 gives exactly one entry per record, strictly
   * ascending across segments, and Read at each entry's offset returns that record.
   */
  lemma RebuildAddressesLog(files: Files, contents: map<nat, seq<Record>>)
    requires Framed(files, contents) && GapFree(files)
    ensures Rebuilt(files) == TrueIndex(contents)
    ensures Sorted(Rebuilt(files))
    ensures (var es := EntriesUpTo(contents, Ascending(contents.Keys), |Ascending(contents.Keys)|);
             && |Rebuilt(files)| == |es|
             && forall i | 0 <= i < |es| :: Read(files, Rebuilt(files)[i].offset) == Ok(es[i]))
  {
    hide Read, Entries, IndexOf, ReadsInOrder, Holds, RangeEnd, RebuiltUpTo, Numbered, EntriesUpTo, Scan, Sorted;
    var listing: seq<nat> := Ascending(files.Keys);
    forall i | 0 <= i < |listing|
      ensures listing[i] == i
    {
      GapFreePlaces(files, i);
    }
    assert ListsFiles(files, listing);
    RebuildIsExact(files, contents);
    hide ListsFiles, GapFree, Rebuilt;
    TrueIndexReadsUpTo(files, contents, listing, |listing|);
    OrderOf(files, Rebuilt(files), EntriesUpTo(contents, listing, |listing|), 0, RangeEnd(listing, |listing|));
  }

  lemma SingleListing(n: nat)
    ensures Ascending({n}) == [n]
  {
    assert {n} - {MaxOf({n})} == {};
  }

  /** One removed low segment is enough: the rebuilt entry of the record that is left points into a missing file. */
  lemma RebuildMisnumbers(r: Record)
    requires FrameSize(r) < TWO_32
    ensures var files: Files := map[1 := Stream([r])];
            && |Rebuilt(files)| == 1
            && Read(files, Rebuilt(files)[0].offset) == Err(SegmentMissing)
  {
    hide Ascending, Scan, Stream, IndexOf, Pack;
    var files: Files := map[1 := Stream([r])];
    assert files.Keys == {1};
    SingleListing(1);
    assert |Stream([r])| == Start([r], 0) + FrameSize(r);
    ScanSegmentFile(0, [r]);
    assert Rebuilt(files) == RebuiltUpTo(files, [1], 0) + IndexOf(0, [r]);
    PackRoundTrip(0, 0);
  }
}
