/** Where a topic's files are: filepath.Join on topic names (pkg/queue/topic.go). */
module Directories {
  import opened Text

  /** A directory: the names on the way to it from the root of the file system. */
  type Path = seq<string>

  function SlashAt(path: string): (n: nat)
    ensures n <= |path| && '/' !in path[..n]
    ensures n < |path| ==> path[n] == '/'
  {
    if path == "" || path[0] == '/' then 0 else 1 + SlashAt(path[1..])
  }

  /** What stands between the slashes of a path. */
  function Parts(path: string): seq<string> {
    var n := SlashAt(path);
    if n == |path| then [path] else [path[..n]] + Parts(path[n + 1..])
  }

  /** One part of a path: "." and nothing stay, ".." goes up, any other name goes down. */
  function Enter(at: Path, part: string): Path {
    if part == "" || part == "." then at
    else if part != ".." then at + [part]
    else if at == [] then []
    else at[..|at| - 1]
  }

  function Walk(at: Path, parts: seq<string>): Path {
    if parts == [] then at else Enter(Walk(at, parts[..|parts| - 1]), parts[|parts| - 1])
  }

  /** The directory of the topic of this name, below the topics directory. */
  function DirectoryOf(root: Path, name: string): Path {
    Walk(root, Parts(name))
  }

  // ---------- filepath.Join ----------

  /** filepath.Clean on the parts of a relative path: each ".." takes back the name before it, if there is one. */
  function Clean(parts: seq<string>): seq<string> {
    if parts == [] then []
    else
      var done, part := Clean(parts[..|parts| - 1]), parts[|parts| - 1];
      if part == "" || part == "." then done
      else if part == ".." && done != [] && done[|done| - 1] != ".." then done[..|done| - 1]
      else done + [part]
  }

  lemma {:induction false} WalkOn(at: Path, a: seq<string>, b: seq<string>)
    ensures Walk(at, a + b) == Walk(Walk(at, a), b)
  {
    if b == [] {
      assert a + b == a;
    } else {
      var front := b[..|b| - 1];
      assert (a + b)[..|a + b| - 1] == a + front;
      WalkOn(at, a, front);
    }
  }

  lemma {:induction false} CleanHasNames(parts: seq<string>)
    ensures forall i | 0 <= i < |Clean(parts)| :: Clean(parts)[i] != "" && Clean(parts)[i] != "."
  {
    if parts != [] {
      CleanHasNames(parts[..|parts| - 1]);
    }
  }

  /** Cleaning a path does not change where it leads. */
  lemma {:induction false} CleanLeadsSameWay(at: Path, parts: seq<string>)
    ensures Walk(at, Clean(parts)) == Walk(at, parts)
  {
    if parts != [] {
      var front, part := parts[..|parts| - 1], parts[|parts| - 1];
      var done := Clean(front);
      CleanLeadsSameWay(at, front);
      CleanHasNames(front);
      assert (done + [part])[..|done|] == done;
    }
  }

  /** ".." leads back from a directory to the one it is in, and at the root of the file system it stays there. */
  lemma UpIsBack(at: Path, name: string)
    requires Plain(name)
    ensures Walk(at, [name, ".."]) == at && Walk([], [".."]) == []
  {
    OneStep(at, name);
    OneStep([], "..");
    assert [name, ".."][..1] == [name];
    assert Walk(at, [name, ".."]) == Enter(at + [name], "..");
    assert (at + [name])[..|at|] == at;
  }

  /** A cleaned path is in normal form: no empty part, no ".", and ".." only in front. */
  lemma {:induction false} CleanIsNormal(parts: seq<string>)
    ensures forall i | 0 <= i < |Clean(parts)| :: Clean(parts)[i] != "" && Clean(parts)[i] != "."
    ensures forall i, j | 0 <= i < j < |Clean(parts)| && Clean(parts)[j] == ".." :: Clean(parts)[i] == ".."
  {
    CleanHasNames(parts);
    if parts != [] {
      CleanIsNormal(parts[..|parts| - 1]);
    }
  }

  /** The joined and cleaned path of a topic leads to its directory, from wherever the process works. */
  lemma JoinLeadsToDirectory(cwd: Path, data: string, name: string)
    ensures Walk(cwd, Clean(Parts(data) + ["topics"] + Parts(name)))
         == DirectoryOf(Walk(cwd, Parts(data) + ["topics"]), name)
  {
    CleanLeadsSameWay(cwd, Parts(data) + ["topics"] + Parts(name));
    WalkOn(cwd, Parts(data) + ["topics"], Parts(name));
  }

  // ---------- Names that share a directory ----------

  /** A name that stands for itself in a path. */
  predicate Plain(name: string) {
    '/' !in name && name != "" && name != "." && name != ".."
  }

  lemma NoSlash(name: string)
    requires '/' !in name
    ensures Parts(name) == [name]
  {
    assert forall i | 0 <= i < |name| :: name[i] != '/';
  }

  /** A plain name is a directory of its own, directly below the topics directory. */
  lemma PlainDirectory(root: Path, name: string)
    requires Plain(name)
    ensures DirectoryOf(root, name) == root + [name]
  {
    NoSlash(name);
    assert Walk(root, []) == root;
  }

  /** Plain names never share a directory. */
  lemma PlainNamesAreApart(root: Path, a: string, b: string)
    requires Plain(a) && Plain(b)
    ensures DirectoryOf(root, a) == DirectoryOf(root, b) <==> a == b
  {
    PlainDirectory(root, a);
    PlainDirectory(root, b);
    assert (root + [a])[|root|] == a && (root + [b])[|root|] == b;
  }

  lemma {:induction false} SlashAfter(a: string, b: string)
    requires '/' !in a
    ensures SlashAt(a + "/" + b) == |a|
  {
    if a != "" {
      assert (a + "/" + b)[1..] == a[1..] + "/" + b;
      SlashAfter(a[1..], b);
    }
  }

  lemma FirstPart(head: string, rest: string)
    requires '/' !in head
    ensures Parts(head + "/" + rest) == [head] + Parts(rest)
  {
    SlashAfter(head, rest);
    var path := head + "/" + rest;
    assert path[..|head|] == head && path[|head| + 1..] == rest;
  }

  lemma {:induction false} PartsJoin(a: string, b: string)
    ensures Parts(a + "/" + b) == Parts(a) + Parts(b)
    decreases |a|
  {
    hide Parts;
    var n := SlashAt(a);
    if n == |a| {
      NoSlash(a);
      FirstPart(a, b);
    } else {
      var head, tail := a[..n], a[n + 1..];
      assert a == head + "/" + tail;
      FirstPart(head, tail);
      FirstPart(head, tail + "/" + b);
      assert a + "/" + b == head + "/" + (tail + "/" + b);
      PartsJoin(tail, b);
      assert [head] + Parts(tail) + Parts(b) == [head] + (Parts(tail) + Parts(b));
    }
  }

  lemma OneStep(at: Path, part: string)
    ensures Walk(at, [part]) == Enter(at, part)
  {
    assert [part][..0] == [];
  }

  lemma WalkJoin(at: Path, a: string, b: string)
    ensures Walk(at, Parts(a + "/" + b)) == Walk(Walk(at, Parts(a)), Parts(b))
  {
    PartsJoin(a, b);
    WalkOn(at, Parts(a), Parts(b));
  }

  /** Other spellings of a name lead to its directory: behind "./", before "/", after a step down and up again. */
  lemma OtherSpellings(root: Path, name: string, detour: string)
    requires Plain(detour)
    ensures DirectoryOf(root, "." + "/" + name) == DirectoryOf(root, name)
    ensures DirectoryOf(root, name + "/" + "") == DirectoryOf(root, name)
    ensures DirectoryOf(root, detour + "/" + (".." + "/" + name)) == DirectoryOf(root, name)
  {
    hide Walk, Parts;
    forall part | part in {".", "", "..", detour}
      ensures Parts(part) == [part]
    {
      NoSlash(part);
    }
    WalkJoin(root, ".", name);
    OneStep(root, ".");
    WalkJoin(root, name, "");
    OneStep(Walk(root, Parts(name)), "");
    WalkJoin(root, detour, ".." + "/" + name);
    OneStep(root, detour);
    WalkJoin(root + [detour], "..", name);
    OneStep(root + [detour], "..");
  }

  // ---------- The files of a topic's directory ----------

  function Padded(digits: string, width: nat): string
    decreases width - |digits|
  {
    if |digits| >= width then digits else Padded("0" + digits, width)
  }

  /** getSegmentPath: %018d.log. */
  function SegmentName(segment: nat): string {
    Padded(Digits(segment), 18) + ".log"
  }

  /** The files a topic makes when it is opened, its snapshot, and the file that becomes the snapshot. */
  const FIRST_SEGMENT := SegmentName(0)
  const INDEX_FILE := "index.idx"
  const CATALOG_FILE := "consumers.json"
  const CATALOG_TEMP := "consumers.json.tmp"

  /** The path is that of a file of the directory, or would lie below it. */
  predicate Inside(path: Path, dir: Path, file: string) {
    |dir| < |path| && path[..|dir|] == dir && path[|dir|] == file
  }

  /** The path takes the place of a file that a topic of the directory makes when it is opened or saved. */
  predicate Occupies(path: Path, dir: Path) {
    Inside(path, dir, FIRST_SEGMENT) || Inside(path, dir, INDEX_FILE) || Inside(path, dir, CATALOG_FILE)
  }

  /**
   * A topic on the other directory gets in the way of a topic on this one: it is the same directory, or
   * one of the two takes the place of a file of the other.
   */
  predicate Interferes(other: Path, dir: Path) {
    other == dir || Occupies(other, dir) || Inside(other, dir, CATALOG_TEMP) || Occupies(dir, other)
  }

  /** Two segments never share a name. */
  lemma SegmentNamesDiffer(a: nat, b: nat)
    ensures SegmentName(a) == SegmentName(b) <==> a == b
  {
    PaddedKeepsValue(Digits(a), 18);
    PaddedKeepsValue(Digits(b), 18);
    ValueOfDigits(a);
    ValueOfDigits(b);
    hide Digits, Value, Padded;
    SameStem(Padded(Digits(a), 18), Padded(Digits(b), 18), ".log");
  }

  lemma SameStem(a: string, b: string, extension: string)
    ensures a + extension == b + extension <==> a == b
  {
    assert (a + extension)[..|a + extension| - |extension|] == a;
    assert (b + extension)[..|b + extension| - |extension|] == b;
  }

  /** Below 10^18 a segment's name is eighteen digits and the extension. */
  lemma SegmentNameLength(n: nat)
    requires n < PowerOfTen(18)
    ensures |SegmentName(n)| == 22
  {
    hide Digits, PowerOfTen, Padded;
    DigitsAreFew(n, 18);
    PaddedKeepsValue(Digits(n), 18);
  }

  lemma {:induction false} PaddedKeepsValue(digits: string, width: nat)
    requires forall i | 0 <= i < |digits| :: IsDigit(digits[i])
    ensures var p := Padded(digits, width);
            && |p| == (if |digits| < width then width else |digits|)
            && (forall i | 0 <= i < |p| :: IsDigit(p[i]))
            && Value(p) == Value(digits)
    decreases width - |digits|
  {
    if |digits| < width {
      ZeroInFront(digits);
      PaddedKeepsValue("0" + digits, width);
    }
  }

  lemma {:induction false} ZeroInFront(digits: string)
    requires forall i | 0 <= i < |digits| :: IsDigit(digits[i])
    ensures Value("0" + digits) == Value(digits)
  {
    if digits != "" {
      var front := digits[..|digits| - 1];
      assert ("0" + digits)[..|digits|] == "0" + front;
      ZeroInFront(front);
    }
  }

  lemma SegmentNameOfZero()
    ensures FIRST_SEGMENT == "000000000000000000.log"
  {
    assert Digits(0) == "0";
    PaddedZeros("0", 18);
  }

  lemma {:induction false} PaddedZeros(zeros: string, width: nat)
    requires |zeros| <= width && forall i | 0 <= i < |zeros| :: zeros[i] == '0'
    ensures |Padded(zeros, width)| == width && forall i | 0 <= i < width :: Padded(zeros, width)[i] == '0'
    decreases width - |zeros|
  {
    if |zeros| < width {
      PaddedZeros("0" + zeros, width);
    }
  }

  /** The directories of plain names neither share nor take the place of anything of each other. */
  lemma PlainNamesDoNotInterfere(root: Path, a: string, b: string)
    requires Plain(a) && Plain(b)
    ensures Interferes(DirectoryOf(root, a), DirectoryOf(root, b)) <==> a == b
  {
    PlainDirectory(root, a);
    PlainDirectory(root, b);
    PlainNamesAreApart(root, a, b);
  }

  /** A name that leads to a file of another topic gets in its way. */
  lemma FileNamesInterfere(root: Path, name: string, file: string)
    requires file in {FIRST_SEGMENT, INDEX_FILE, CATALOG_FILE, CATALOG_TEMP}
    ensures DirectoryOf(root, name + "/" + file) == DirectoryOf(root, name) + [file]
    ensures Interferes(DirectoryOf(root, name + "/" + file), DirectoryOf(root, name))
  {
    SegmentNameOfZero();
    hide Walk, Parts, SegmentName, Digits;
    var home := DirectoryOf(root, name);
    WalkJoin(root, name, file);
    FileNameIsPlain(file);
    NoSlash(file);
    OneStep(home, file);
    assert (home + [file])[..|home|] == home && (home + [file])[|home|] == file;
  }

  lemma FileNameIsPlain(file: string)
    requires file in {FIRST_SEGMENT, INDEX_FILE, CATALOG_FILE, CATALOG_TEMP}
    ensures Plain(file)
  {
    SegmentNameOfZero();
    hide SegmentName;
  }
}
