/** Runs of a queue that is stopped, at any point, and opened again on what is on disk. */
module QueueRestarts {
  import opened Numbers
  import opened Results
  import opened Directories
  import opened Framing
  import opened SegmentLog
  import opened TopicStore
  import opened QueueStore
  import opened QueueRuns
  import QueueIsolation
  import TopicRuns
  import TopicRestarts

  // ---------- Opening the queue again ----------

  /** A directory that others lie below, or that is there, is there no more when it is made. */
  lemma MadeAlready(disks: map<Path, Disk>, at: Path, disk: Disk, path: Path)
    requires DirectoryThere(disks, at)
    ensures DirectoryThere(disks[at := disk], path) == DirectoryThere(disks, path)
  {
    var below :| below in disks.Keys && at <= below;
    if path <= at {
      assert path <= below;
    }
    if d :| d in disks.Keys && path <= d {
      assert d in disks[at := disk].Keys;
    }
  }

  lemma ChildIsThere(root: Path, disks: map<Path, Disk>, name: string)
    requires name in Children(root, disks.Keys)
    ensures DirectoryThere(disks, root + [name])
  {
    hide Plain;
    var d :| d in disks.Keys && |d| > |root| && d[..|root|] == root && d[|root|] == name;
    assert root + [name] <= d;
  }

  /** The listing has the plain names whose directories were made, for a topic there or further down. */
  lemma ListedExactly(root: Path, disks: map<Path, Disk>, name: string)
    ensures name in Children(root, disks.Keys) <==> Plain(name) && DirectoryThere(disks, root + [name])
  {
    hide Plain;
    if name in Children(root, disks.Keys) {
      ChildIsThere(root, disks, name);
    }
    if d :| d in disks.Keys && root + [name] <= d {
      assert d[..|root|] == root && d[|root|] == name;
    }
  }

  /** Opening a topic beside it, or trying to, makes a topic neither easier nor harder to open. */
  lemma OpensAsBefore(disks: map<Path, Disk>, root: Path, at: Path, disk: Disk, home: Path)
    requires DirectoryThere(disks, at) && |at| == |home|
    requires at == home ==> (NoLog(disks, home) ==> disk.files == map[])
    requires at == home ==> (NoLog(disks, home) || disk.files != map[])
    ensures CanOpen(disks[at := disk], home) == CanOpen(disks, home)
  {
    forall path
      ensures DirectoryThere(disks[at := disk], path) == DirectoryThere(disks, path)
    {
      MadeAlready(disks, at, disk, path);
    }
    hide DirectoryThere;
    forall dir | |dir| < |home| && dir <= home
      ensures dir in disks.Keys <==> dir in disks[at := disk].Keys
      ensures dir in disks.Keys ==> FileThere(disks, dir, home[|dir|]) == FileThere(disks[at := disk], dir, home[|dir|])
    {
      assert dir != at;
    }
    hide FileThere;
  }

  lemma SameChildren(root: Path, disks: map<Path, Disk>, name: string, disk: Disk)
    requires name in Children(root, disks.Keys)
    ensures Children(root, disks[root + [name] := disk].Keys) == Children(root, disks.Keys)
  {
    hide Plain;
  }

  /** Loading one topic opens it if it can be opened, and is not seen from the others. */
  lemma LoadOneSeen(config: Config, q: QueueState, name: string, topic: string)
    requires ValidQueue(config, q) && Plain(topic) && name in Children(config.root, q.disks.Keys)
    ensures var next := LoadOne(config, q, name);
            && ValidQueue(config, next) && next.closed == q.closed
            && CanOpen(next.disks, Home(config, topic)) == CanOpen(q.disks, Home(config, topic))
            && Children(config.root, next.disks.Keys) == Children(config.root, q.disks.Keys)
            && (topic in next.topics <==>
                  topic in q.topics || (topic == name && CanOpen(q.disks, Home(config, topic))))
            && View(config, next, topic) == View(config, q, topic)
  {
    var home, disk := Home(config, name), DiskAt(q, Home(config, name));
    ReadyIsValid(config, q, name);
    ChildIsPlain(config.root, q.disks.Keys, name);
    PlainHomesAreApart(config, name, topic);
    PlainDirectory(config.root, name);
    PlainDirectory(config.root, topic);
    ChildIsThere(config.root, q.disks, name);
    if name !in q.topics && !Blocked(q.disks, home) {
      OpenedTwice(disk);
      assert WithLog(disk).files != map[] by {
        OpenedIsValid(disk.files);
      }
      if CanOpen(q.disks, home) {
        hide Home, ValidQueue, Initialized, Children, Plain, DirectoryThere, Blocked, NoIndexOrCatalog;
        OpensAsBefore(q.disks, config.root, home, OnDisk(Initialized(disk)), Home(config, topic));
        SameChildren(config.root, q.disks, name, OnDisk(Initialized(disk)));
        if name == topic {
          PutHere(config, q, topic, Initialized(disk));
        } else {
          PutElsewhere(config, q, name, Initialized(disk), topic);
        }
      } else {
        hide Home, ValidQueue, Initialized, Children, Plain, DirectoryThere, Blocked, NoIndexOrCatalog;
        var left := if NoLog(q.disks, home) then disk else WithLog(disk);
        OpensAsBefore(q.disks, config.root, home, left, Home(config, topic));
        SameChildren(config.root, q.disks, name, left);
        if name != topic {
          DiskElsewhere(config, q, home, left, topic);
        }
      }
    } else {
      assert q.(disks := q.disks) == q;
    }
  }

  /** The same for Alone: loaded topics have plain names. */
  lemma LoadOneKeepsAlone(config: Config, q: QueueState, name: string, topic: string)
    requires ValidQueue(config, q) && Plain(topic) && Alone(config, q, topic)
    ensures Alone(config, LoadOne(config, q, name), topic)
  {
    assert Home(config, topic) == DirectoryOf(config.root, topic);
    assert Home(config, name) == DirectoryOf(config.root, name);
    hide Home, ValidQueue, Alone, Plain, Ready, Interferes, Children;
    if name in Children(config.root, q.disks.Keys) {
      ChildIsPlain(config.root, q.disks.Keys, name);
      PlainNamesDoNotInterfere(config.root, name, topic);
      if name == topic {
        ReadyHere(config, q, topic);
      } else {
        ReadyElsewhere(config, q, name, topic);
      }
    }
  }

  /** Loading opens the topics of the listing that can be opened, and does not change what is seen of a topic. */
  lemma {:induction false} LoadAllSeen(config: Config, q: QueueState, order: seq<string>, topic: string)
    requires ValidQueue(config, q) && Plain(topic)
    ensures var next := LoadAll(config, q, order);
            && ValidQueue(config, next) && next.closed == q.closed
            && (Alone(config, q, topic) ==> Alone(config, next, topic))
            && CanOpen(next.disks, Home(config, topic)) == CanOpen(q.disks, Home(config, topic))
            && Children(config.root, next.disks.Keys) == Children(config.root, q.disks.Keys)
            && (topic in next.topics <==>
                  || topic in q.topics
                  || (topic in order && topic in Children(config.root, q.disks.Keys)
                      && CanOpen(q.disks, Home(config, topic))))
            && View(config, next, topic) == View(config, q, topic)
  {
    hide Plain, Home, ValidQueue, Alone, View, Ready, Children, CanOpen;
    if order != [] {
      var front, name := order[..|order| - 1], order[|order| - 1];
      assert order == front + [name];
      LoadAllSeen(config, q, front, topic);
      var mid := LoadAll(config, q, front);
      if Alone(config, mid, topic) {
        LoadOneKeepsAlone(config, mid, name, topic);
      }
      if name in Children(config.root, mid.disks.Keys) {
        LoadOneSeen(config, mid, name, topic);
      }
    }
  }

  lemma ChildIsPlain(root: Path, at: set<Path>, name: string)
    requires name in Children(root, at)
    ensures Plain(name)
  {
    hide Plain;
  }

  lemma PlainHomesAreApart(config: Config, a: string, b: string)
    requires Plain(a) && Plain(b)
    ensures Home(config, a) == Home(config, b) <==> a == b
  {
    PlainNamesAreApart(config.root, a, b);
  }

  /** An open topic of a plain name has its directory where loading looks for it. */
  lemma DirectoryIsListed(config: Config, q: QueueState, topic: string)
    requires ValidQueue(config, q) && topic in q.topics && Plain(topic)
    ensures topic in Children(config.root, q.disks.Keys)
  {
    PlainDirectory(config.root, topic);
    hide Plain;
    var home := Home(config, topic);
    assert SegmentExists(TopicAt(config, q, topic).log);
    assert home in q.disks;
    assert home[..|config.root|] == config.root && home[|config.root|] == topic;
  }

  lemma NothingOpen(config: Config, disks: map<Path, Disk>, topic: string)
    ensures ValidQueue(config, Unopened(disks))
    ensures Alone(config, Unopened(disks), topic) <==> Clear(disks, Home(config, topic))
  {
    hide Clear;
  }

  lemma OpenedTwice(disk: Disk)
    ensures Initialized(OnDisk(Initialized(disk))) == Initialized(disk)
    ensures Initialized(WithLog(disk)) == Initialized(disk)
  {
    OpenedIsValid(disk.files);
    ReopenIsIdentity(Opened(disk.files));
  }

  /**
   * Stopping the queue, at whatever point, and opening it again is for each topic of a plain name that
   * topic's restart; and a topic that was open is open again, if loading comes to it, exactly when
   * nothing stands in the place of its files.
   */
  lemma ReopenedTopic(config: Config, q: QueueState, topic: string, order: seq<string>)
    requires ValidQueue(config, q) && Plain(topic)
    ensures ValidQueue(config, Unopened(q.disks))
    ensures var next := Reopened(config, q, order);
            && ValidQueue(config, next) && !next.closed
            && (Clear(q.disks, Home(config, topic)) ==> Alone(config, next, topic))
            && View(config, next, topic) == RestartStep(View(config, q, topic))
            && (topic in next.topics <==>
                  && topic in order && DirectoryThere(q.disks, Home(config, topic))
                  && CanOpen(q.disks, Home(config, topic)))
            && (topic in q.topics && topic in order ==>
                  (topic in next.topics <==> CanOpen(q.disks, Home(config, topic))))
  {
    NothingOpen(config, q.disks, topic);
    OpenedTwice(DiskAt(q, Home(config, topic)));
    if topic in q.topics {
      DirectoryIsListed(config, q, topic);
    }
    PlainDirectory(config.root, topic);
    ListedExactly(config.root, q.disks, topic);
    assert Home(config, topic) == config.root + [topic];
    hide Plain, Home, ValidQueue, Initialized, Children, Clear, Alone, CanOpen, DirectoryThere;
    LoadAllSeen(config, Unopened(q.disks), order, topic);
  }

  // ---------- Runs ----------

  datatype Act = Live(op: QueueOp) | Restart(order: seq<string>)

  function Step(config: Config, q: QueueState, act: Act): (r: (QueueState, Reply))
    requires ValidQueue(config, q)
    ensures ValidQueue(config, r.0)
  {
    match act
    case Live(op) => QueueRuns.Step(config, q, op)
    case Restart(order) =>
      NothingOpen(config, q.disks, "");
      LoadAllKeepsValid(config, Unopened(q.disks), order);
      (Reopened(config, q, order), Done)
  }

  function Run(config: Config, q: QueueState, acts: seq<Act>): (r: (QueueState, seq<Reply>))
    requires ValidQueue(config, q)
    ensures ValidQueue(config, r.0) && |r.1| == |acts|
  {
    if acts == [] then (q, [])
    else
      var (mid, replies) := Run(config, q, acts[..|acts| - 1]);
      var (next, reply) := Step(config, mid, acts[|acts| - 1]);
      (next, replies + [reply])
  }

  /** What an act does to one topic: a restart reaches every topic. */
  function Effect(q: QueueState, topic: string, act: Act): seq<TopicRuns.TopicOp> {
    match act
    case Live(op) => QueueRuns.Effect(q, topic, op)
    case Restart(_) => [TopicRuns.Restart]
  }

  function Reaching(config: Config, topic: string, acts: seq<Act>): seq<TopicRuns.TopicOp> {
    if acts == [] then []
    else
      var n := |acts| - 1;
      Reaching(config, topic, acts[..n]) + Effect(Run(config, EMPTY_QUEUE, acts[..n]).0, topic, acts[n])
  }

  function NewRecords(topic: string, act: Act, reply: Reply): seq<Record> {
    if act.Live? then QueueRuns.NewRecords(topic, act.op, reply) else []
  }

  function NewEntries(topic: string, consumer: string, act: Act, reply: Reply): seq<LogEntry> {
    if act.Live? then QueueRuns.NewEntries(topic, consumer, act.op, reply) else []
  }

  /** The records acknowledged to producers of a topic. */
  function Acknowledged(topic: string, acts: seq<Act>, replies: seq<Reply>): seq<Record>
    requires |acts| == |replies|
  {
    if acts == [] then []
    else
      var n := |acts| - 1;
      Acknowledged(topic, acts[..n], replies[..n]) + NewRecords(topic, acts[n], replies[n])
  }

  /** What a consumer of a topic was given, its batches joined in order. */
  function Delivered(topic: string, consumer: string, acts: seq<Act>, replies: seq<Reply>): seq<LogEntry>
    requires |acts| == |replies|
  {
    if acts == [] then []
    else
      var n := |acts| - 1;
      Delivered(topic, consumer, acts[..n], replies[..n]) + NewEntries(topic, consumer, acts[n], replies[n])
  }

  /** No act of the run opens a topic that gets in this one's way. */
  ghost predicate NoneIntrudes(config: Config, topic: string, acts: seq<Act>) {
    forall i | 0 <= i < |acts| :: acts[i].Live? ==> !Intrudes(config, topic, acts[i].op)
  }

  /** The consumer never moves its offset on the topic by hand. */
  ghost predicate NeverSeeks(topic: string, consumer: string, acts: seq<Act>) {
    forall i | 0 <= i < |acts| :: !SeeksOwn(topic, consumer, acts[i])
  }

  predicate SeeksOwn(topic: string, consumer: string, act: Act) {
    act.Live? && act.op.SetOffset? && act.op.topic == topic && act.op.consumer == consumer
  }

  /** One act moves the topic by its effect, and the replies agree. */
  lemma ActOnTopic(config: Config, q: QueueState, topic: string, consumer: string, act: Act)
    requires ValidQueue(config, q) && Alone(config, q, topic) && Plain(topic)
    requires act.Live? ==> !Intrudes(config, topic, act.op)
    requires ValidTopic(View(config, q, topic))
    ensures var (next, reply) := Step(config, q, act);
            && Alone(config, next, topic)
            && (Effect(q, topic, act) == [] ==>
                  && View(config, next, topic) == View(config, q, topic)
                  && NewRecords(topic, act, reply) == [] && NewEntries(topic, consumer, act, reply) == [])
            && (Effect(q, topic, act) != [] ==>
                  var done := Effect(q, topic, act)[0];
                  var (st, answer) := TopicRuns.Step(config, View(config, q, topic), done);
                  && Effect(q, topic, act) == [done]
                  && View(config, next, topic) == st
                  && NewRecords(topic, act, reply) == TopicRuns.NewRecords(done, answer)
                  && NewEntries(topic, consumer, act, reply) == TopicRuns.NewEntries(consumer, done, answer))
  {
    match act
    case Live(op) =>
      hide QueueRuns.Step, QueueRuns.Effect, TopicRuns.Step, View, Alone, Plain, ValidQueue, ValidTopic,
           QueueRuns.NewRecords, QueueRuns.NewEntries;
      StepOnTopic(config, q, topic, consumer, op);
    case Restart(order) =>
      hide View, Clear, Plain, ValidQueue, ValidTopic, Reopened, RestartStep, CanOpen, Children;
      ReopenedTopic(config, q, topic, order);
  }

  /** Seen on one topic, a run of the queue with restarts is the run of what reaches the topic. */
  lemma {:induction false} RunOnTopic(config: Config, topic: string, consumer: string, acts: seq<Act>)
    requires Plain(topic) && NoneIntrudes(config, topic, acts)
    ensures var (q, replies) := Run(config, EMPTY_QUEUE, acts);
            var reaching := Reaching(config, topic, acts);
            var (st, answers) := TopicRuns.Run(config, TopicRuns.Fresh(), reaching);
            && Alone(config, q, topic)
            && View(config, q, topic) == st
            && Acknowledged(topic, acts, replies) == TopicRuns.Acknowledged(reaching, answers)
            && Delivered(topic, consumer, acts, replies) == TopicRuns.Delivered(consumer, reaching, answers)
  {
    hide Step, TopicRuns.Step, Intrudes, View, Effect, NewRecords, NewEntries, Plain, Alone;
    EmptyQueueIsClear(config, topic);
    if acts == [] {
      NothingToView(config, topic);
    } else {
      hide TopicRuns.Fresh;
      var n := |acts| - 1;
      RunOnTopic(config, topic, consumer, acts[..n]);
      var (mid, before) := Run(config, EMPTY_QUEUE, acts[..n]);
      assert (before + [Step(config, mid, acts[n]).1])[..n] == before;
      ActOnTopic(config, mid, topic, consumer, acts[n]);
      var done, more := Reaching(config, topic, acts[..n]), Effect(mid, topic, acts[n]);
      if more == [] {
        assert done + more == done;
      } else {
        assert (done + more)[..|done|] == done;
        TopicRuns.RunOfOneMore(config, done + more, consumer);
      }
    }
  }

  ghost predicate NoneSeeks(consumer: string, ops: seq<TopicRuns.TopicOp>) {
    forall i | 0 <= i < |ops| :: !(ops[i].SetOffset? && ops[i].consumer == consumer)
  }

  lemma NoneSeekTogether(consumer: string, a: seq<TopicRuns.TopicOp>, b: seq<TopicRuns.TopicOp>)
    requires NoneSeeks(consumer, a) && NoneSeeks(consumer, b)
    ensures NoneSeeks(consumer, a + b)
  {
  }

  lemma EffectSeeksNot(q: QueueState, topic: string, consumer: string, act: Act)
    requires !SeeksOwn(topic, consumer, act)
    ensures NoneSeeks(consumer, Effect(q, topic, act))
  {
  }

  lemma {:induction false} ReachingSeeksNot(config: Config, topic: string, consumer: string, acts: seq<Act>)
    requires NeverSeeks(topic, consumer, acts)
    ensures NoneSeeks(consumer, Reaching(config, topic, acts))
  {
    hide Run, Effect, SeeksOwn;
    if acts != [] {
      var n := |acts| - 1;
      ReachingSeeksNot(config, topic, consumer, acts[..n]);
      var mid := Run(config, EMPTY_QUEUE, acts[..n]).0;
      EffectSeeksNot(mid, topic, consumer, acts[n]);
      NoneSeekTogether(consumer, Reaching(config, topic, acts[..n]), Effect(mid, topic, acts[n]));
    }
  }

  /**
   * At least once, for the whole queue: through any run with any number of topics and consumers,
   * stopped and opened again between any two operations, a topic of a plain name whose way none gets
   * in loses no acknowledged record, and each consumer that does not move its offset by hand has been given
   * exactly the first m of them, each after all earlier ones, with its offset and its snapshot at
   * record boundaries that are no later.
   */
  lemma QueueDeliversAtLeastOnce(config: Config, topic: string, consumer: string, acts: seq<Act>)
      returns (s: nat, k: nat, m: nat)
    requires Plain(topic) && NoneIntrudes(config, topic, acts) && NeverSeeks(topic, consumer, acts)
    ensures var (q, replies) := Run(config, EMPTY_QUEUE, acts);
            var rs := Acknowledged(topic, acts, replies);
            && TopicRuns.HoldsRecords(View(config, q, topic), rs)
            && TopicRestarts.Stands(View(config, q, topic), rs, consumer,
                                    Delivered(topic, consumer, acts, replies), s, k, m)
  {
    hide Run, View, TopicRuns.Run, TopicRuns.HoldsRecords, TopicRestarts.Stands, TopicRuns.Fresh, NoneIntrudes,
         Plain, Alone;
    RunOnTopic(config, topic, consumer, acts);
    ReachingSeeksNot(config, topic, consumer, acts);
    s, k, m := TopicRestarts.AtLeastOnce(config, Reaching(config, topic, acts), consumer);
  }

  // ---------- A topic that cannot be opened again ----------

  /**
   * After a record was enqueued to it and a topic was created in the place of its snapshot, a topic of
   * a plain name is not opened again: the record stays on disk, and its consumers are refused.
   */
  lemma ShutBehindItsSnapshot(config: Config, a: string, consumer: string, r: Record, order: seq<string>)
    requires Plain(a) && FrameSize(r) < TWO_32
    ensures ValidQueue(config, EMPTY_QUEUE)
    ensures var taken := a + "/" + CATALOG_FILE;
            var (q, replies) := Run(config, EMPTY_QUEUE, [Live(Enqueue(a, r)), Live(Create(taken)), Restart(order)]);
            && replies == [Accepted(0), Done, Done]
            && a !in q.topics && View(config, q, a).log.files == map[0 := Stream([r])]
            && Step(config, q, Live(Dequeue(a, consumer, 10))).1 == Rejected(NoSuchTopic)
  {
    var home, taken := Home(config, a), a + "/" + CATALOG_FILE;
    hide Home, ValidQueue, Plain, Stream, CanOpen, Clear, Children, View, FrameSize, Reopened, RestartStep;
    var q2 := SnapshotPathCreated(config, a, r);
    ReopenedTopic(config, q2, a, order);
    SnapshotTaken(q2.disks, home);
    RestartHolds(View(config, q2, a), r);
    hide QueueRuns.Step;
    ShortRun(config, Live(Enqueue(a, r)), Live(Create(taken)), Restart(order));
    NoTopic(config, Reopened(config, q2, order), a, consumer);
  }

  lemma NoTopic(config: Config, q: QueueState, topic: string, consumer: string)
    requires ValidQueue(config, q) && !q.closed && topic !in q.topics
    ensures QueueRuns.Step(config, q, Dequeue(topic, consumer, 10)).1 == Rejected(NoSuchTopic)
  {
    hide ValidQueue;
  }

  lemma SnapshotPathCreated(config: Config, a: string, r: Record) returns (q2: QueueState)
    requires Plain(a) && FrameSize(r) < TWO_32
    ensures ValidQueue(config, EMPTY_QUEUE)
    ensures var (q1, first) := QueueRuns.Step(config, EMPTY_QUEUE, Enqueue(a, r));
            && first == Accepted(0)
            && QueueRuns.Step(config, q1, Create(a + "/" + CATALOG_FILE)) == (q2, Done)
    ensures ValidQueue(config, q2) && Home(config, a) + [CATALOG_FILE] in q2.disks
    ensures View(config, q2, a).log.files == map[0 := Stream([r])]
  {
    var home, taken := Home(config, a), a + "/" + CATALOG_FILE;
    PathOfSnapshot(config, a);
    hide Home, ValidQueue, Plain, Stream, Initialized, CanOpen, View, FrameSize, QueueRuns.Step, TopicAt, Opened,
         DiskAt, Interferes;
    var q1 := QueueIsolation.OpenFirst(config, a, r);
    OnlySegmentZero(q1.disks, home, Stream([r]));
    QueueIsolation.CreateServed(config, q1, taken);
    q2 := QueueRuns.Step(config, q1, Create(taken)).0;
    StillHeld(config, q1, taken, a, r);
  }

  lemma PathOfSnapshot(config: Config, a: string)
    requires Plain(a)
    ensures var taken := a + "/" + CATALOG_FILE;
            Home(config, taken) == Home(config, a) + [CATALOG_FILE] && a != "" && taken != a && taken != ""
  {
    hide DirectoryOf, Interferes;
    FileNamesInterfere(config.root, a, CATALOG_FILE);
  }

  lemma OnlySegmentZero(disks: map<Path, Disk>, home: Path, bytes: seq<Byte>)
    requires disks.Keys == {home} && At(disks, home) == Disk(map[0 := bytes], [], None)
    ensures CanOpen(disks, home + [CATALOG_FILE]) && home + [CATALOG_FILE] !in disks
  {
    assert disks[home].files.Keys == {0};
    BesideSnapshot(disks, home);
  }

  lemma BesideSnapshot(disks: map<Path, Disk>, home: Path)
    requires disks.Keys == {home} && disks[home].files.Keys == {0} && disks[home].catalogFile == None
    ensures CanOpen(disks, home + [CATALOG_FILE])
  {
    SegmentNameOfZero();
    hide SegmentName;
  }

  lemma SnapshotTaken(disks: map<Path, Disk>, home: Path)
    requires home + [CATALOG_FILE] in disks
    ensures !CanOpen(disks, home)
  {
    assert DirectoryThere(disks, home + [CATALOG_FILE]);
  }

  lemma StillHeld(config: Config, q: QueueState, other: string, a: string, r: Record)
    requires a in q.topics && other != a && Home(config, other) != Home(config, a)
    requires TopicAt(config, q, a).log == LogState(map[0 := Stream([r])], 0, FrameSize(r))
    ensures View(config, Put(config, q, other, Initialized(EMPTY_DISK)), a).log
         == LogState(map[0 := Stream([r])], 0, FrameSize(r))
  {
    hide Home, Initialized, Stream;
  }

  lemma RestartHolds(st: TopicState, r: Record)
    requires st.log.files == map[0 := Stream([r])]
    ensures RestartStep(st).log.files == map[0 := Stream([r])]
  {
    hide Stream;
    OpenedIsValid(st.log.files);
  }

  lemma RunOneMore(config: Config, q: QueueState, acts: seq<Act>, act: Act)
    requires ValidQueue(config, q)
    ensures var (mid, replies) := Run(config, q, acts);
            Run(config, q, acts + [act]) == (Step(config, mid, act).0, replies + [Step(config, mid, act).1])
  {
    hide Step;
    assert (acts + [act])[..|acts|] == acts;
  }

  lemma ShortRun(config: Config, x: Act, y: Act, z: Act)
    requires ValidQueue(config, EMPTY_QUEUE)
    ensures var (q1, rx) := Step(config, EMPTY_QUEUE, x);
            var (q2, ry) := Step(config, q1, y);
            var (q3, rz) := Step(config, q2, z);
            Run(config, EMPTY_QUEUE, [x, y, z]) == (q3, [rx, ry, rz])
  {
    assert Run(config, EMPTY_QUEUE, []) == (EMPTY_QUEUE, []);
    hide Step, ValidQueue, Run;
    var (q1, rx) := Step(config, EMPTY_QUEUE, x);
    var (q2, ry) := Step(config, q1, y);
    RunOneMore(config, EMPTY_QUEUE, [], x);
    RunOneMore(config, EMPTY_QUEUE, [x], y);
    RunOneMore(config, EMPTY_QUEUE, [x, y], z);
    var none: seq<Reply> := [];
    assert [] + [x] == [x] && [x] + [y] == [x, y] && [x, y] + [z] == [x, y, z];
    assert none + [rx] == [rx];
    assert Run(config, EMPTY_QUEUE, [x]) == (q1, [rx]);
    assert Run(config, EMPTY_QUEUE, [x, y]) == (q2, [rx] + [ry]);
    assert [rx] + [ry] + [Step(config, q2, z).1] == [rx, ry, Step(config, q2, z).1];
  }

  // ---------- A topic that nobody made ----------

  /** Whatever was open before, the topics open after a reopening have plain names of the listing. */
  lemma {:induction false} OnlyListedOpen(config: Config, q: QueueState, order: seq<string>, name: string)
    requires name in LoadAll(config, q, order).topics
    ensures name in q.topics || (Plain(name) && name in order)
  {
    if order != [] {
      var front, last := order[..|order| - 1], order[|order| - 1];
      assert order == front + [last];
      hide Home, CanOpen, Initialized, AfterOpening, Plain;
      var mid := LoadAll(config, q, front);
      if name in mid.topics {
        OnlyListedOpen(config, q, front, name);
      } else {
        ChildIsPlain(config.root, mid.disks.Keys, last);
      }
    }
  }

  /**
   * After a record was enqueued to a/c, a restart opens a, which nobody created, as an empty topic, and
   * not a/c, whose record stays on disk.
   */
  lemma ParentIsLoaded(config: Config, a: string, c: string, r: Record, order: seq<string>)
    requires Plain(a) && Plain(c) && c !in {FIRST_SEGMENT, INDEX_FILE, CATALOG_FILE}
    requires a in order && FrameSize(r) < TWO_32
    ensures ValidQueue(config, EMPTY_QUEUE)
    ensures var nested := a + "/" + c;
            var (q, replies) := Run(config, EMPTY_QUEUE, [Live(Enqueue(nested, r)), Restart(order)]);
            && replies == [Accepted(0), Done]
            && a in q.topics && nested !in q.topics && !q.topics[a].closed && q.topics[a].consumers == map[]
            && TopicAt(config, q, a).log == LogState(map[0 := []], 0, 0)
  {
    var nested := a + "/" + c;
    NestedPath(config, a, c);
    hide Home, ValidQueue, Plain, Stream, CanOpen, Clear, Children, View, FrameSize, Reopened, DirectoryThere,
         QueueRuns.Step, TopicAt, DiskAt, Alone;
    var q1 := QueueIsolation.OpenFirst(config, nested, r);
    NestedIsBeside(q1.disks, Home(config, a), c);
    ReopenedTopic(config, q1, a, order);
    NothingLeftOpen(config, q1, order, nested);
    NotOpenYet(config, q1, Reopened(config, q1, order), a);
    TwoActs(config, Live(Enqueue(nested, r)), Restart(order));
  }

  lemma NestedPath(config: Config, a: string, c: string)
    requires Plain(a) && Plain(c)
    ensures var nested := a + "/" + c;
            && Home(config, nested) == Home(config, a) + [c] && nested != "" && nested != a && !Plain(nested)
  {
    hide Walk, Parts;
    NoSlash(c);
    WalkJoin(config.root, a, c);
    OneStep(Home(config, a), c);
    assert (a + "/" + c)[|a|] == '/';
  }

  lemma NestedIsBeside(disks: map<Path, Disk>, home: Path, c: string)
    requires disks.Keys == {home + [c]} && c !in {FIRST_SEGMENT, INDEX_FILE, CATALOG_FILE}
    ensures CanOpen(disks, home) && DirectoryThere(disks, home) && home !in disks
  {
    assert home <= home + [c];
    forall file | file in {FIRST_SEGMENT, INDEX_FILE, CATALOG_FILE}
      ensures !DirectoryThere(disks, home + [file])
    {
      assert (home + [file])[|home|] == file && (home + [c])[|home|] == c;
    }
  }

  lemma NothingLeftOpen(config: Config, q: QueueState, order: seq<string>, name: string)
    requires !Plain(name)
    ensures name !in Reopened(config, q, order).topics
  {
    hide Plain, LoadAll;
    if name in Reopened(config, q, order).topics {
      OnlyListedOpen(config, Unopened(q.disks), order, name);
    }
  }

  /** A topic that was not open, on no directory, is loaded as an empty one. */
  lemma NotOpenYet(config: Config, q: QueueState, next: QueueState, a: string)
    requires a !in q.topics && Home(config, a) !in q.disks && a in next.topics
    requires View(config, next, a) == RestartStep(View(config, q, a))
    ensures TopicAt(config, next, a).log == LogState(map[0 := []], 0, 0)
    ensures !next.topics[a].closed && next.topics[a].consumers == map[]
  {
    hide Home;
    OpenedTwice(EMPTY_DISK);
    assert View(config, q, a) == Initialized(EMPTY_DISK);
    assert TopicAt(config, next, a) == Initialized(EMPTY_DISK);
  }

  lemma TwoActs(config: Config, x: Act, y: Act)
    requires ValidQueue(config, EMPTY_QUEUE)
    ensures var (q1, rx) := Step(config, EMPTY_QUEUE, x);
            Run(config, EMPTY_QUEUE, [x, y]) == (Step(config, q1, y).0, [rx, Step(config, q1, y).1])
  {
    assert Run(config, EMPTY_QUEUE, []) == (EMPTY_QUEUE, []);
    hide Step, ValidQueue, Run;
    var (q1, rx) := Step(config, EMPTY_QUEUE, x);
    RunOneMore(config, EMPTY_QUEUE, [], x);
    RunOneMore(config, EMPTY_QUEUE, [x], y);
    var none: seq<Reply> := [];
    assert [] + [x] == [x] && [x] + [y] == [x, y];
    assert none + [rx] == [rx];
    assert Run(config, EMPTY_QUEUE, [x]) == (q1, [rx]);
    assert [rx] + [Step(config, q1, y).1] == [rx, Step(config, q1, y).1];
  }
}
