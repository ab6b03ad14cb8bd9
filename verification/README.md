# Verified model of the Yuclase message store

Yuclase keeps messages in append-only logs, one directory per topic, and remembers for every
consumer the offset it has read up to. This project models the store, the consumer-offset
machinery on top of it and the wire format in Dafny, and proves what a user relies on: messages
come out in the order they went in, without gaps or duplicates; restarts lose nothing; the index
agrees with the log; the client reads back what the server prints.

`dafny verify dfyconfig.toml` checks everything.

## How it is built

- `Numbers`, `Offsets`, `Framing`: int64 and big-endian bytes, packed offsets, the record format.
- `SegmentLog`, `SegmentReads`, `LogRuns`, `TornSegments`: the log as a class over its directory (a
  map from segment number to bytes), reading whole and cut segments, any sequence of appends,
  rotations and restarts, also behind an append that was cut short.
- `IndexEntries`, `SegmentScan`, `Rebuilding`, `IndexStore`: the sorted index, its file, the scan
  and the rebuild.
- `CatalogStore`: consumer offsets, their snapshot, the minimum and maximum loops.
- `TopicStore`, `TopicRuns`, `TopicRestarts`, `TopicIndex`: a topic and its runs.
- `Directories`: which directory a topic's name leads to, and when two get in each other's way.
- `QueueStore`, `QueueRuns`, `QueueReplies`, `QueueIsolation`, `QueueRestarts`: many topics over
  directories that names may share, what each operation answers, isolation, runs with restarts.
- `ConsumerStore`, `ConsumerRuns`, `ConsumerStreams`: the polling consumer with its bounded channel, and
  what the channel carries over any run, with commits and without, and across a hand-over.
- `Text`, `Utf8`, `Resp`, `RespFormat`, `Commands`: lines, decimals and fields, bytes of runes, replies
  as this repository's client and as any RESP2 client reads them, commands.

What the code updates in place is a class; each of its methods is tied to a step function on
values, and the theorems are about every run of those steps. A mutex-protected operation is one
atomic step. A file is its bytes, and a write is complete when the operation returns. A crash is
a `Restart`: memory is lost and the topic is loaded from its directory; `TornSegments` takes the crash
that cuts an append short.

No topic name is checked, and the path built from it is cleaned, so "a", "./a", "a/" and "x/../a"
are four topics on one directory, and "a/index.idx" makes a directory where the index of "a" would
be. Topics therefore refer to shared directory objects, the queue's state keeps files by directory
and memory by name, opening a topic is refused where a file or a directory stands in the way, and so
is writing its snapshot. The theorems about one topic of a queue say when it is alone
(`QueueRuns.Alone`, `QueueRuns.NoneIntrudes`); `QueueIsolation.AliasIsSeen`,
`QueueIsolation.FileNamesAreNotIsolated` and `QueueRestarts.ShutBehindItsSnapshot` are runs that go
wrong, and `QueueIsolation.IsolatedExactly` is the exact condition.

Where the code and its documentation differ, the code is modelled. The documentation speaks of
log files segmented by size; in the code a rotation reopens the file it has just closed, so a
topic that starts on an empty directory keeps one segment (`SegmentLog.Log.RotateSegment`,
`LogRuns.MaxSizeDoesNotBound`). Claims that are false of the code appear with their exact
condition: `Rebuilding.RebuildIsExact`, `CatalogStore.MinScanIsMinimum`,
`CatalogStore.MaxScanIsMaximum`, `Framing.ReadInvertsFrameExactly`, `SegmentReads.ReadNeedsRoom`,
`TopicRuns.RefusedExactly`, `SegmentLog.AppendOffsetIsRight`, `QueueIsolation.IsolatedExactly`,
`QueueRestarts.ReopenedTopic`, `ConsumerStreams.StreamExactly`, `ConsumerStreams.UncommittedStream`,
`ConsumerStreams.HandOverExactly`, `ConsumerStreams.SeekToEndSkipsNext`, `TornSegments.CrashIsHarmlessExactly`,
`TopicStore.MessageCountIsExact`, `Commands.EnqueueArrivesUnchanged`,
`TopicIndex.PositionsAgreeInFirstSegment`, `Resp.BulkNeedsOneLine`.

## Model

| member | source | states |
|---|---|---|
| TopicRuns.InOrderDelivery | pkg/queue/topic.go:122-180 | In every interleaving of Enqueue, Dequeue, Sync and Close by any producers and consumers on a fresh topic, whatever the segment size and however large the log grows, what a consumer was given is exactly a prefix of what was acknowledged (same timestamps, data and offsets; no gap, duplicate or reordering), and its catalog offset is the byte where that prefix ends. Other consumers may even move their own offsets by hand. |
| TopicRuns.LogIsAcknowledged | pkg/queue/topic.go:122-146 | Through every run, restarts and manual seeks included, the one segment holds exactly the acknowledged records in order: none is lost. |
| TopicRuns.RefusedExactly | pkg/queue/topic.go:149-180 | After any run in which a consumer moves by Dequeue only, its next Dequeue is refused if and only if the topic is closed or its log has reached 2^32 bytes; a refusal changes nothing. |
| TopicRuns.RefusedWhileShut | pkg/queue/topic.go:252-293 | In every run: from a Close until a restart each Enqueue, Dequeue, offset update and Sync is refused and changes nothing; otherwise Enqueue, offset update and Sync are never refused. |
| TopicRuns.DequeueAt | pkg/queue/topic.go:149-180 | A Dequeue by a consumer that stands at record k returns records k up to the limit and moves that consumer, and nothing else, to the boundary after them. |
| TopicRuns.DequeueFrame | pkg/queue/topic.go:149-180 | Whatever its outcome, a Dequeue leaves log, index, snapshot and all other consumers' offsets alone; on a closed topic it changes nothing. |
| TopicRestarts.AtLeastOnce | pkg/queue/topic.go:149-180 | Runs with crashes between operations, at any log size: every acknowledged record survives; a consumer's snapshot is at a record boundary no later than its memory offset; the records delivered so far are exactly the first m, with m not below either; and whenever a record is delivered all earlier ones were delivered before it. Records may repeat, none is skipped. |
| TopicStore.CloseThenRestartLosesNothing | pkg/queue/topic.go:252-293 | Closing and loading again restores every record, every index entry and every consumer's offset. |
| TopicStore.FailedSyncIsMadeGood | pkg/storage/catalog.go:270-290 | A snapshot that could not be written leaves the offsets as they are and is written by the next Sync that can, as if none had failed. |
| QueueRuns.QueueDeliversInOrder | pkg/queue/queue.go:61-97 | In any run of a queue with any number of topics and consumers, in which no topic is opened whose directory gets in this one's way, what a consumer got of a topic is a prefix of what was enqueued to that topic, and its offset is where the prefix ends. |
| QueueRestarts.QueueDeliversAtLeastOnce | pkg/queue/queue.go:312-341 | The whole queue, stopped at any point and opened again any number of times: a topic of a plain name, none that gets in its way being opened, loses no acknowledged record, and each consumer that does not move its offset by hand has been given exactly the first m records, each after all earlier ones, its offset and snapshot at record boundaries no later. |
| QueueRestarts.ReopenedTopic | pkg/queue/queue.go:312-341 | From any state, stopping the queue and loading what is on disk is, for each topic of a plain name, that topic's restart; it is open afterwards if and only if the listing has it, a directory of that name or below it was made, and nothing stands in the place of its files, so a topic that was open is open again exactly then. |
| QueueRestarts.ShutBehindItsSnapshot | pkg/queue/topic.go:110-116 | The failing run: after an enqueue to a and the creation of a/consumers.json, a restart does not open a again, and its consumers are refused although the record is on disk. |
| QueueRestarts.ParentIsLoaded | pkg/queue/queue.go:326-338 | After an enqueue to a/c a restart opens a, which nobody created, as an empty topic, and not a/c, whose record stays on disk. |
| QueueRestarts.ListedExactly | pkg/queue/queue.go:321-331 | The listing has exactly the plain names at or below which a directory was made. |
| QueueRestarts.RunOnTopic | pkg/queue/queue.go:312-341 | Seen on one topic of a plain name in whose way none is opened, a queue run with restarts is exactly the topic run of what reaches it. |
| QueueRuns.RunOnTopic | pkg/queue/queue.go:61-97 | While no topic is opened that gets in its way, a queue run seen on one topic is exactly the topic run of the operations that reach it: same state, same acknowledged records, same deliveries. |
| QueueIsolation.ProjectionKeepsReplies | pkg/queue/queue.go:61-114 | Isolation: while nothing open or opened gets in the topic's way, every reply a consumer of the topic sees is the one it would see in the run with all operations on other topics and all Dequeues and offset updates by other consumers removed, from any state of the queue. |
| QueueIsolation.IsolatedExactly | pkg/queue/topic.go:42-116 | One topic name is isolated from another in every run if and only if the other's directory is not the same, does not stand at or below the first segment, index, snapshot or temporary snapshot of the first, and the first's does not stand at or below the first segment, index or snapshot of the other. |
| QueueIsolation.AliasIsSeen | pkg/queue/topic.go:43-60 | The failing run: with two names of one directory, the consumers of the first are given what was enqueued under the second, and a further Enqueue under the first returns an offset at which a read finds the second's record. |
| QueueIsolation.FileNamesAreNotIsolated | pkg/queue/topic.go:42-116 | A name that leads to one of its four files, such as a/index.idx beside a, is not isolated from the topic. |
| QueueRuns.PlainNamesDoNotIntrude | pkg/queue/topic.go:43 | Runs that only open names without a slash, other than "." and "..", never open one that gets in another's way. |
| QueueReplies.ClosedQueueRefuses | pkg/queue/queue.go:61-149 | A closed queue refuses every operation of every run with the closed error, a further Close excepted, and stays as it is. |
| QueueReplies.SetOffsetReply | pkg/queue/queue.go:100-114 | From any state: refused for a closed queue, an unknown topic, a closed topic, in this order, and then nothing changes; otherwise that consumer's offset and the catalog's dirty mark change and nothing else, on disk or in memory. |
| QueueReplies.DequeueReply | pkg/queue/queue.go:83-97 | From any state: the same refusals, the error of the read, or the first entries the directory's files give from the catalog's offset on; only a batch with something in it moves the consumer, to behind its last entry. |
| QueueReplies.EnqueueReply | pkg/queue/queue.go:61-75 | From any state: accepted if and only if the queue is open and the topic is open, or is not yet and can be opened; which error otherwise, and that nothing changes unless an opening was tried. |
| QueueReplies.CreateReply | pkg/queue/queue.go:130-149 | From any state: which of the four errors Create gives, and that it enters exactly that topic when it gives none. |
| QueueReplies.RefusedOpeningLeaves | pkg/queue/topic.go:37-119 | A refused opening enters no topic and touches no other directory; it leaves the topic's directory, unless a file is in the way, and in it an empty first segment, unless a directory stands there. |
| QueueReplies.MadeIsNotBlocked | pkg/queue/topic.go:44 | Where a directory was made, also one further down, no file blocks the way. |
| QueueReplies.SweepReplies | pkg/queue/queue.go:238-293 | Sync of an open queue succeeds if and only if every topic is open and its snapshot is clean or can be written, and otherwise names exactly the topics for which that fails, in any order of the topics and however they share directories; Close the same, passing over closed topics. |
| QueueReplies.SweepsReachAll | pkg/queue/queue.go:238-293 | After Sync or Close each topic's index is clean and so is its catalog unless its snapshot cannot be written; after Close each topic is closed. |
| QueueReplies.CloseClosesAll | pkg/queue/queue.go:261-293 | After Close the queue and all its topics are closed. |
| QueueReplies.HealthyQueueIsSaved | pkg/queue/queue.go:238-293 | Sync and Close succeed when every topic is open and alone on its directory. |
| Directories.FileNamesInterfere | pkg/queue/topic.go:43 | A name followed by a slash and one of a topic's file names leads to that file's place in the topic's directory. |
| Directories.JoinLeadsToDirectory | pkg/queue/topic.go:43 | The path that filepath.Join builds and cleans leads, from any working directory, to the directory of the topic: cleaning changes no path's target. |
| Directories.OtherSpellings | pkg/queue/topic.go:43 | A name behind "./", before "/", or behind a step down and up again leads to the name's own directory. |
| Directories.PlainNamesAreApart | pkg/queue/topic.go:43 | Plain names lead to the same directory if and only if they are equal. |
| Directories.CleanIsNormal | pkg/queue/topic.go:43 | The cleaned path has no empty part, no "." and ".." only in front. |
| Directories.UpIsBack | pkg/queue/topic.go:43 | ".." leads back to the directory one came from, and nowhere at the root of the file system. |
| Directories.SegmentNamesDiffer | pkg/storage/log.go:282-286 | Two segments never share a file name. |
| Directories.SegmentNameLength | pkg/storage/log.go:282-286 | Below 10^18 a segment's name is eighteen digits and the extension. |
| ConsumerRuns.ChannelAscends | pkg/queue/consumer.go:209-243 | At most once: between seeks the offsets sent on the channel strictly increase over the whole run and exceed the starting offset, for any queue contents, any other users (also of the same consumer name) and any fullness of the channel; c.offset is always the last one sent. |
| ConsumerRuns.StartingMessageIsSkipped | pkg/queue/consumer.go:223-225 | The message at the offset a consumer starts from is never sent to it. |
| ConsumerRuns.SeekMoves | pkg/queue/consumer.go:135-143 | From any state a seek moves the consumer's own offset and nothing else of it; the catalog's offset follows if and only if queue and topic are open, and otherwise the seek is refused and the queue unchanged. |
| ConsumerRuns.PollFailsExactly | pkg/queue/consumer.go:209-219 | A poll fails if and only if the Dequeue of ten it makes is refused, with that error, and then moves nothing. |
| ConsumerRuns.ReceivedInOrder | pkg/queue/consumer.go:112-114 | Through every run, seeks included: what receivers took from the channel followed by what is in it is what was in it at first followed by what was sent since, and it never holds more than 100 messages. |
| ConsumerRuns.ShortOnlyWhenFull | pkg/queue/consumer.go:227-239 | A poll that leaves new messages of its batch unsent leaves exactly 100 in the channel. |
| ConsumerStreams.CommittedStream | pkg/queue/consumer.go:122-132 | With a commit after every poll, the channel is sent exactly a prefix of the records after the starting record, in order and without a gap, even when a full channel drops part of a batch, others enqueue, dequeue and seek in between, the log outgrows what can be read, and the queue is closed. |
| ConsumerStreams.StreamAfterSeek | pkg/queue/consumer.go:135-143 | After any run, with any seeks, a seek to record k starts the stream anew at k: from then on the channel carries the records after k in order and without a gap under the same exact condition, and always with a commit after every poll. |
| ConsumerStreams.SeekTrails | pkg/queue/consumer.go:135-143 | From wherever the consumer stood, a seek to record k of an open topic puts it and its catalog at k, and leaves what was sent and buffered. |
| ConsumerStreams.SeekRedelivers | pkg/queue/consumer.go:246-248 | After a seek to record k, such as Reset, the next poll sends records k+1 to at most k+9 again, as far as the channel has room. |
| ConsumerStreams.SeekToEndSkipsNext | pkg/queue/consumer.go:251-260 | After SeekToEnd the first record enqueued to the topic is never sent: it begins at the starting offset. |
| ConsumerStreams.StreamExactly | pkg/queue/consumer.go:186-243 | For every run of polls, receives and commits in any order beside any other users: the channel carries the records after the starting one in order and without a gap if and only if no poll sends anything while an earlier poll, not made good by a commit, had run out of room. A gap is never filled. |
| ConsumerStreams.UncommittedStream | pkg/queue/consumer.go:186-243 | The consumer's own loop, which never commits: every record it reads is sent if and only if each poll had room for its new messages, and while that is so the stream has no gap. |
| ConsumerStreams.RoomForTen | pkg/queue/consumer.go:209-243 | With ten free places in the channel a poll always has room. |
| ConsumerStreams.RunTrails | pkg/queue/consumer.go:186-243 | Through every run without a seek the consumer stands at the last record it was sent and its catalog at a record boundary that is no earlier, at the same place after a commit. |
| ConsumerStreams.HandOver | pkg/queue/consumer.go:34-62 | A new consumer of the same name that starts where a committing consumer stopped continues its stream: the two channels together carry one stretch of the log without gap or duplicate. |
| ConsumerStreams.HandOverExactly | pkg/queue/consumer.go:34-62 | After any run of polls and commits, a new consumer of the same name continues the stream if and only if the catalog stands where the old consumer does. |
| ConsumerStreams.HandOverAcrossRestart | pkg/queue/consumer.go:34-62 | The same across a restart of the queue that was written out or closed first: seamless if and only if the catalog stood where the old consumer did. |
| ConsumerStreams.HandOverSkips | pkg/queue/consumer.go:223-225 | Otherwise a hand-over loses a record for good: the one at the catalog's offset is behind everything the old consumer was sent, however many polls it left uncommitted, and before everything the new one ever will be. |
| ConsumerStreams.PollFrom | pkg/queue/consumer.go:209-243 | A poll of a consumer last sent record p whose catalog stands before record e, at or behind p, sends exactly as many of the records from e on (from p + 1 on if e is p) as it read and the channel has room for, and leaves the catalog where the batch ended. |
| ConsumerStreams.AboveStart | pkg/queue/consumer.go:223-225 | The records after the starting record are exactly the messages whose offset is greater than the starting offset. |
| ConsumerStreams.UncommittedPollLoses | pkg/queue/consumer.go:227-239 | A record that a poll read but found no room for is never sent while nothing is committed, however often the consumer polls afterwards and wherever its catalog stood before. |
| ConsumerStreams.LagCountsLastDelivered | pkg/queue/consumer.go:276-292 | The lag counts the last delivered record too: it is the bytes from that record on, and zero only when there is no such record yet. |
| ConsumerRuns.LagIsDistance | pkg/queue/consumer.go:286-291 | The lag is the topic's size less the offset while that is positive and fits 63 bits, and zero otherwise. |
| ConsumerStore.DeliverSendsNewer | pkg/queue/consumer.go:221-240 | What the loop of a poll sends in closed form: the messages of the batch above the floor, cut where the channel is full; the offset follows the last one sent. |
| ConsumerStore.Consumer.NewConsumer | pkg/queue/consumer.go:34-62 | Empty names and unknown topics are refused in the code's order; otherwise the consumer starts at the catalog's offset, 0 if it is unknown. |
| ConsumerStore.Consumer.PollMessages | pkg/queue/consumer.go:209-243 | Refines the poll step: one Dequeue of at most 10, then the sending loop; the channel is always the tail of what was sent. |
| ConsumerStore.Consumer.SendNew | pkg/queue/consumer.go:221-240 | The sending loop refines its recursive specification, early return on a full channel included. |
| ConsumerStore.Consumer.CommitOffset | pkg/queue/consumer.go:122-132 | Writes the last delivered offset to the catalog and leaves the consumer alone. |
| ConsumerStore.Consumer.GetLag | pkg/queue/consumer.go:276-292 | The topic's packed size less the consumer's offset, never negative; an unknown topic is refused. |
| ConsumerStore.Consumer.SetOffset | pkg/queue/consumer.go:135-143 | Refines the seek step (ConsumerRuns.SeekMoves): the own offset moves also when the queue refuses the update. |
| ConsumerStore.Consumer.SeekToEnd | pkg/queue/consumer.go:251-260 | A seek to the topic's packed size; for an unknown topic nothing moves, not even the own offset. |
| ConsumerStore.Consumer.Reset | pkg/queue/consumer.go:246-248 | A seek to 0. |
| SegmentReads.ReadFromBoundary | pkg/storage/log.go:140-159 | ReadFrom at any record boundary of a segment below 2^32 bytes returns exactly the records from there on, with timestamps, data and the offsets Append returned; other segments do not matter. |
| SegmentReads.ReadCutSegment | pkg/storage/log.go:117-158 | A segment cut at any byte, read from its start: success if and only if the cut is on a boundary, and then exactly the records before the cut. |
| SegmentReads.ReadTornRecord | pkg/storage/log.go:119-130 | A record the cut goes through gives the header's error when fewer than 12 of its bytes are left and else the data's, never a wrong or shortened record, as long as nothing was appended behind it. |
| TornSegments.CrashIsHarmlessExactly | pkg/storage/log.go:209-232 | A crash that leaves any prefix of the segment, then any restarts, rotations and appends: read from its start the segment gives exactly the records before the cut and those enqueued after, each at the offset its Append returned, if and only if the cut fell between two records; in every other case there is an error or an entry at an offset that no Append returned. |
| TornSegments.TornRecordIsCompleted | pkg/storage/log.go:117-136 | When the torn record's header survived, the read in its place takes the missing bytes from the frames behind it, and is an error only if those do not reach. |
| TornSegments.LaterRecordsAreSwallowed | pkg/storage/log.go:140-159 | When the missing bytes are those of the first j later frames, reading the segment gives the records before the cut, one that nobody enqueued, and the later records from the j-th on. |
| TornSegments.ReadBehindAll | pkg/storage/log.go:140-159 | Read from an offset that a later Append returned, the records from there on come back as enqueued, whatever stands before them. |
| SegmentReads.ReadNeedsRoom | pkg/storage/log.go:155 | A one-segment log of any size can be read on from a record if and only if it is below 2^32 bytes. |
| SegmentReads.FullLogFails | pkg/storage/log.go:140-159 | Once the only segment has reached 2^32 bytes, reading fails from every offset whatever, whatever bytes it holds. |
| SegmentReads.MissingSegmentFails | pkg/storage/log.go:103-109 | An offset below zero, or in a segment that is not on disk, is an error. |
| SegmentLog.Log.ReadFrom | pkg/storage/log.go:140-159 | The loop terminates on every directory and offset and refines the recursive reading; the end of a segment ends the list, every other error is returned. |
| SegmentLog.ReadMakesProgress | pkg/storage/log.go:144-156 | The measure: an entry read brings the offset nearer the end of the directory's address range, or wraps it below zero. |
| SegmentLog.Log.Append | pkg/storage/log.go:58-96 | The open segment grows by exactly one frame, whether or not the append rotates; when currentSize is in step with the file, the returned offset is where the frame begins. |
| SegmentLog.AppendOffsetIsRight | pkg/storage/log.go:58-96 | For a log whose directory another log may have appended to, the frame goes to the end of the file in any case, and the returned offset is right if and only if currentSize was in step or the append reopened the segment. |
| SegmentLog.Log.RotateSegment | pkg/storage/log.go:235-251 | Rotation reopens the highest file on disk, which is the one just closed: the increment is lost, and a log in step with its files is unchanged. |
| SegmentLog.Log.OpenCurrentSegment | pkg/storage/log.go:209-232 | The highest segment is opened, created if the directory is empty, and currentSize is its length. |
| SegmentLog.Log.FindLatestSegment | pkg/storage/log.go:254-279 | The running maximum is the highest segment number, 0 for an empty directory. |
| SegmentLog.Log.constructor | pkg/storage/log.go:38-55 | A new log is its directory opened, and consistent. |
| SegmentLog.AppendIgnoresMaxSize | pkg/storage/log.go:62-68 | No maxSize changes where a record goes or which offset it gets. |
| LogRuns.RunExtends | pkg/storage/log.go:58-96 | Through any sequence of appends, rotations and reopens on any directory, the highest segment is its old bytes followed by the new frames, every other file is untouched, currentSize is its length, and the i-th offset is where the i-th frame begins. |
| LogRuns.EveryOffsetReadsItsRecord | pkg/storage/log.go:99-137 | An offset an append returned addresses its own record if and only if that record began below 2^32 bytes, and then reading there gives the record back if and only if its data is below 2^32 bytes, whatever the directory held before and however large the log has become. |
| LogRuns.MaxSizeDoesNotBound | pkg/storage/log.go:64-68 | After a run the segment is within maxSize if and only if everything put in it fits anyway: rotation enforces nothing. |
| Framing.ReadInvertsFrame | pkg/storage/log.go:117-136 | Reading inverts framing, whatever surrounds the frame. |
| Framing.ReadInvertsFrameExactly | pkg/storage/log.go:77 | A framed record is read back if and only if its data is below 2^32 bytes; a longer one comes back shortened by the four-byte size. |
| Framing.FrameLayout | pkg/storage/log.go:74-88 | The bytes on disk: the timestamp modulo 2^64 in eight bytes and the length modulo 2^32 in four, most significant first, then the data. |
| Framing.CutFrameIsAnError | pkg/storage/log.go:119-130 | A frame the end of the file cuts short is reported as torn, in the header within its first 12 bytes and in the data behind them. |
| Offsets.PackRoundTrip | pkg/storage/log.go:289-298 | Parsing undoes packing if and only if the segment is below 2^31 and the position below 2^32. |
| Offsets.PackPreservesOrder | pkg/storage/log.go:289-291 | Packed offsets are ordered as (segment, position) pairs, lexicographically. |
| Offsets.AdvanceWithinSegment | pkg/storage/log.go:155 | Adding a record's size to an offset stays in the segment if and only if the position stays below 2^32. |
| Offsets.PackIsSum | pkg/storage/log.go:290 | The bitwise or of a shifted segment and a position below 2^32 is their sum. |
| Numbers.GetAfterPut | pkg/storage/log.go:76-77 | Big-endian bytes decode to the number they were made of. |
| Numbers.PutAfterGet | pkg/storage/log.go:123-124 | Every byte string is the encoding of the number it spells. |
| Numbers.BigEndianByte | pkg/storage/log.go:76-77 | Byte i of the form is a digit to the base 256, the most significant first. |
| Numbers.WrapIsModular | pkg/queue/topic.go:172 | What an int64 keeps of a sum is the sum modulo 2^64. |
| Rebuilding.RebuildAddressesLog | pkg/storage/index.go:270-339 | For segments 0..n-1, each well framed and below 2^32 bytes, Rebuild gives exactly one entry per record, strictly ascending across segments, and Read at each entry's offset returns that record. |
| Rebuilding.RebuildIsExact | pkg/storage/index.go:284-288 | For any well-framed directory Rebuild is right if and only if each segment that holds a record stands in the listing at the place of its own number. |
| Rebuilding.RebuildMisnumbers | pkg/storage/index.go:284-288 | The failing case: with only segment 1 on disk, the rebuilt entry's offset points into a missing file. |
| SegmentScan.ScanPrefix | pkg/storage/index.go:295-339 | A scan of any prefix of a well-framed segment records exactly the records whose 12-byte header survived: all whole records and at most one torn one after them. |
| SegmentScan.SizeOfRecord | pkg/storage/index.go:335 | The scanner's uint32 sum of header and size does not wrap and leads to the next record. |
| SegmentScan.StepIsSize | pkg/storage/index.go:335 | The uint32 sum is the record's size if and only if that is below 2^32, and wraps at it. |
| IndexStore.Index.ScanSegment | pkg/storage/index.go:295-339 | The scanning loop appends exactly the specified entries. |
| IndexStore.Index.Rebuild | pkg/storage/index.go:270-293 | Old entries are dropped, all listed segments are scanned in order, and the result is what the file then holds. |
| IndexStore.Index.AddEntry | pkg/storage/index.go:50-76 | On any array the entry is placed where the binary search ends; on a sorted one that is insertion, keeps it strictly sorted, and is map update. |
| IndexEntries.InsertedIsUpsert | pkg/storage/index.go:60-73 | Placing an entry where the binary search ends is sorted insertion. |
| IndexStore.Index.GetPosition | pkg/storage/index.go:79-94 | On any array the entry where the binary search ends is tested; on a sorted one that is map look-up, a missing offset an error. |
| IndexStore.Index.GetClosestPosition | pkg/storage/index.go:97-119 | On any array the entry before the end of the binary search, or the first; on a sorted one the last entry not above the target, or the first; an empty index is an error. |
| IndexStore.Index.GetRange | pkg/storage/index.go:122-138 | The loop filters up to the first entry above the range; on a sorted array its early break loses nothing. |
| IndexStore.Search | pkg/storage/index.go:60-62 | Refines halving on any array; for a monotone predicate it is the first index at which the predicate holds. |
| IndexEntries.ProbeFindsFirst | pkg/storage/index.go:60-62 | Halving finds the first index at which a monotone predicate holds. |
| IndexStore.Index.Persist | pkg/storage/index.go:230-268 | The file becomes the encoding of all entries and the index is clean. |
| IndexStore.Index.constructor | pkg/storage/index.go:191-228 | Loading reads as many whole entries as the file holds. |
| IndexStore.SaveThenLoad | pkg/storage/index.go:140-150 | A saved index is loaded back unchanged. |
| IndexEntries.UpsertIsMapUpdate | pkg/storage/index.go:59-73 | Insertion into a sorted array is update of the map it stands for. |
| IndexEntries.UpsertKeepsSorted | pkg/storage/index.go:59-73 | Insertion keeps the offsets strictly ascending and adds nothing but the entry. |
| IndexEntries.SortedIsCanonical | pkg/storage/index.go:17-23 | A sorted array is determined by its map. |
| IndexEntries.ClosestIsFloor | pkg/storage/index.go:97-118 | The closest entry is the floor in the map, or its least key when there is no floor. |
| IndexEntries.WithinKeepsRange | pkg/storage/index.go:127-134 | A range keeps exactly the entries in it and stays sorted. |
| IndexEntries.LoadAfterPersist | pkg/storage/index.go:191-267 | Decoding restores the exact entry list for all int64 values, with or without a trailing fragment below 16 bytes. |
| IndexEntries.EntryLayout | pkg/storage/index.go:250-253 | The bytes of an entry: eight of its offset, then eight of its position. |
| TopicIndex.IndexAgreesWithRebuild | pkg/queue/topic.go:136-142 | After any run without a restart the index is exactly the record starts the interval divides, ascending, position equal to offset, at any size below 2^63 bytes; below 2^32 bytes it is what a rebuild gives, thinned to the multiples of the interval. |
| TopicIndex.SeekRefinesScan | pkg/storage/index.go:97-118 | For any record the closest indexed position is the last indexed record not after it, and reading from there is the skipped records followed by what reading at the record gives. |
| TopicIndex.IndexNeverLies | pkg/queue/topic.go:136-142 | Through any run whatever below 2^63 bytes, crashes with an unsaved index included, every entry in memory and on disk is the start of an acknowledged record. |
| TopicIndex.PositionsAgreeInFirstSegment | pkg/queue/topic.go:138 | The position Enqueue records is the one a scan records if and only if the segment is 0. |
| TopicStore.Topic.constructor | pkg/queue/topic.go:37-119 | Opening a topic on a directory that others may use: log reopened, index and catalog loaded from whatever their files hold. |
| TopicStore.Topic.Enqueue | pkg/queue/topic.go:122-146 | Appends, indexes offsets the interval divides, refuses when closed; log, index and catalog are stated in full. |
| TopicStore.Topic.Dequeue | pkg/queue/topic.go:149-180 | Reads from the consumer's offset, limits the batch, advances the consumer past a non-empty batch; errors change nothing. |
| TopicStore.Topic.ReadFromOffset | pkg/queue/topic.go:375-388 | All entries from the offset on, cut at the limit. |
| TopicStore.Topic.UpdateConsumerOffset | pkg/queue/topic.go:183-192 | Sets one consumer's offset; refused when closed. |
| TopicStore.Topic.Sync | pkg/queue/topic.go:226-249 | Index and catalog are written out if dirty; a snapshot that cannot be written stays dirty and is reported; refused when closed. |
| TopicStore.Topic.Close | pkg/queue/topic.go:252-293 | As Sync, and the topic is closed whatever happened; closing twice changes nothing. |
| TopicStore.MessageCountIsExact | pkg/queue/topic.go:391-401 | The estimate from the packed size is the number of records in the open segment if and only if the size less their headers lies between n and n + 12; in segment 0 that difference is the bytes of data, and above segment 0 the segment's number is counted as bytes and the estimate is always too high. |
| QueueStore.Queue.Enqueue | pkg/queue/queue.go:61-75 | Opens the topic on first use; refuses the empty name, a topic that cannot be opened and a closed queue; changes that topic's memory and its directory's files and nothing else. |
| QueueStore.Queue.GetOrCreateTopic | pkg/queue/queue.go:296-309 | The existing topic, or a new one on whatever its name's directory holds, which another name may have put there; refused for the empty name and where AddTopic is. |
| QueueStore.Queue.AddTopic | pkg/queue/topic.go:37-119 | Refused exactly where a file stands on the way to the directory or a directory in the place of the first segment, the index or the snapshot; the directory and segment it made before failing stay. |
| QueueStore.Queue.DequeueWithLimit | pkg/queue/queue.go:83-97 | The topic's Dequeue on its own memory and its directory's files; an unknown topic and a closed queue are refused. |
| QueueStore.Queue.UpdateConsumerOffset | pkg/queue/queue.go:100-114 | The topic's offset update at that name only, with the same refusals. |
| QueueStore.Queue.CreateTopic | pkg/queue/queue.go:130-149 | A new topic on whatever its name's directory holds; an existing or empty name, a topic that cannot be opened and a closed queue are refused. |
| QueueStore.Queue.LoadExistingTopics | pkg/queue/queue.go:312-341 | Every directory right below the topics directory becomes an open topic of that name, loaded from its files, except those that cannot be opened, which are passed over. |
| QueueStore.Queue.GetConsumerOffset | pkg/queue/queue.go:117-127 | The offset in the topic's catalog, 0 for an unknown consumer; an unknown topic is refused. |
| QueueStore.Queue.Sync | pkg/queue/queue.go:238-258 | Every topic is written out once, in whatever order the map gives them, and those whose snapshot cannot be written are named in the error; topics that share a directory overwrite each other in that order. |
| QueueStore.Queue.Close | pkg/queue/queue.go:261-293 | Every topic is written out and closed once, in whatever order, and so is the queue, also when a snapshot cannot be written, which the error names. |
| CatalogStore.Catalog.UpdateOffset | pkg/storage/catalog.go:46-66 | One consumer's offset is set or created and the catalog is dirty. |
| CatalogStore.Catalog.GetOffset | pkg/storage/catalog.go:69-78 | The stored offset, 0 for an unknown consumer. |
| CatalogStore.Catalog.Sync | pkg/storage/catalog.go:180-189 | The snapshot becomes the map if the catalog is dirty and the file can be written; otherwise it stays dirty. |
| CatalogStore.Catalog.constructor | pkg/storage/catalog.go:245-267 | The map is the snapshot, empty when there is no file. |
| CatalogStore.Catalog.GetMinOffset | pkg/storage/catalog.go:211-227 | The loop computes the sentinel scan for the order in which the map's entries come. |
| CatalogStore.MinScanIsMinimum | pkg/storage/catalog.go:219-226 | The scan is the minimum if and only if the minimum is not -1, the value it takes for "none yet", or a -1 comes last. |
| CatalogStore.Catalog.GetMaxOffset | pkg/storage/catalog.go:230-242 | The loop computes the running maximum from 0. |
| CatalogStore.MaxScanIsMaximum | pkg/storage/catalog.go:234-241 | The scan is the maximum if and only if some offset is not negative. |
| Resp.RepliesRoundTrip | internal/network/client.go:93-174 | For any sequence of replies whose texts hold no newline and fit the scanner's 64 KiB, the client takes exactly one reply per read, recovers each, and leaves what follows (Bulk Strings and Arrays of the RESP2 specification). |
| Resp.ReplyRoundTrip | internal/network/client.go:93-114 | One reply of any kind is read whole and shown as printed. |
| Resp.ElementsRoundTrip | internal/network/client.go:152-173 | The element loop builds the numbered listing of all elements in order and stops after the last. |
| Resp.TextReplies | internal/network/client.go:100-107 | A line is shown behind "+" and ":", and reported as the server's error behind "-". |
| Resp.NilReplies | internal/network/client.go:123-147 | Length -1 is shown as (nil), an empty array as such. |
| Resp.OtherLines | internal/network/client.go:110-112 | A line with another first character is shown whole, alone or as a numbered element. |
| Resp.EmptyReplies | internal/network/client.go:94-100 | An empty line is an index out of range, and the end of the input a failed read. |
| Resp.BadHeaders | internal/network/client.go:117-141 | A header that is no number makes the read fail. |
| Resp.ShortReplies | internal/network/client.go:127-151 | A bulk string without content makes the read fail; an array of a negative length other than -1 is shown as nothing. |
| Resp.MissingElement | internal/network/client.go:152-157 | Among the elements an empty line is an index out of range, and the end of the input makes the whole read fail. |
| Resp.BrokenElement | internal/network/client.go:158-163 | So does an element whose header is no number, whatever was read before it. |
| Resp.NilElement | internal/network/client.go:158-163 | A nil element is listed as (nil) behind its number. |
| RespFormat.ReplyDecodes | internal/network/server.go:263-346 | Any client that reads by type byte and stated lengths, as the RESP2 specification has it, takes every reply for what it is and nothing of what follows, whatever bytes a Bulk String holds. |
| Resp.BulkNeedsOneLine | internal/network/server.go:405 | A Bulk String comes back as sent if and only if it holds no newline and, with its carriage return, is below 65536 bytes. |
| Resp.ListingKeepsTexts | internal/network/client.go:165-169 | The listing can be taken apart again, each line behind its own number: no element is lost, merged, reordered or misnumbered. |
| Resp.ListingLine | internal/network/client.go:165 | Behind exactly k newlines the listing has the number k + 1, a parenthesis, a blank and text k. |
| Resp.ListenReply | internal/network/server.go:263-272 | The LISTEN reply is the Array of the messages as Bulk Strings, the empty reply included. |
| Resp.BulkArray | internal/network/server.go:311-316 | The loop of TOPICS, CONSUMERS and LISTEN prints the Array of its texts. |
| Resp.QueueStatsReply | internal/network/server.go:328-333 | The literal lengths in the queue's STATS reply are right: it prints the six-element Array of its names and numbers. |
| Resp.QueueStatsShown | internal/network/server.go:328-331 | The client shows the queue's STATS as six numbered lines: topic_count, total_messages and total_size, each before its own number. |
| Resp.TopicStatsReply | internal/network/server.go:342-348 | The same for the eight elements of a topic's STATS reply. |
| Resp.TopicStatsShown | internal/network/server.go:342-346 | The client shows a topic's STATS as eight numbered lines: name and the name, message_count, size and consumers, each before its own number. |
| Resp.Client.ReadResponse | internal/network/client.go:93-114 | Refines the reading function over the remaining input, the index out of range on an empty line included. |
| Resp.Client.ReadBulkString | internal/network/client.go:117-134 | Header, nil, missing content and content. |
| Resp.Client.ReadArrayReply | internal/network/client.go:137-174 | The counted loop refines the recursive reading of elements. |
| Text.LineRoundTrip | internal/network/client.go:94-98 | A newline-free line is scanned back whole, also when it ends in a carriage return of its own, if it is below the scanner's 64 KiB; otherwise nothing is read. |
| Text.LastLine | internal/network/client.go:94-98 | The last line of the input needs no newline. |
| Text.DecimalRoundTrip | internal/network/client.go:120-122 | What %d prints is what %d scans. |
| Text.ScanIsLenient | internal/network/client.go:120-122 | Blanks and a plus sign before a number and anything but a digit after it do not disturb %d. |
| Utf8.StringRoundTrip | internal/network/server.go:269 | The number of bytes of a string is that of its UTF-8 form (section 3 of RFC 3629), from which the string is decoded again. |
| Text.JoinOfFields | internal/network/server.go:232 | Splitting at Unicode white space and joining with blanks gives the text back if and only if it is single-spaced. |
| Commands.EnqueueArrivesUnchanged | internal/network/server.go:226-240 | What Client.Enqueue sends reaches the queue unchanged if and only if the topic is one word, the message single-spaced, and the command line with its carriage return below 65536 bytes. |
| Commands.CommandArrivesExactly | internal/network/server.go:183-240 | A line of a verb, a topic and a message is enqueued unchanged if and only if the verb spells ENQUEUE in any mixture of cases, the topic is one word, the message single-spaced, and the line with its carriage return below 65536 bytes. |
| Commands.ReceivedExactly | internal/network/server.go:183-240 | For every input: what is enqueued is the second field of the first line and the others joined by blanks if there are at least three and the first spells the verb, and nothing else ever is. |
| Commands.MessageArrivesJoined | internal/network/server.go:226-234 | Of any message on one line its fields arrive joined by single blanks. |
| Commands.WhiteSpaceArrivesAsBlank | internal/network/server.go:184 | Rune by rune: exactly the white space of unicode.IsSpace, the newline excepted, arrives as a blank, and any other rune as itself. |
| Commands.UpperSpells | internal/network/server.go:190 | The upper case of a word is a verb if and only if each of its letters is the verb's in one of the cases, the dotless i and the long s included. |
| Commands.FieldsOfCommand | internal/network/client.go:212-215 | A command line of verb, topic and message splits into the verb, the topic and the message's fields. |
| Commands.ReceivedIsSingleSpaced | internal/network/server.go:183-193 | Whatever the server takes for a message is single-spaced and newline-free, and its topic is one word. |
| Commands.ReceivedMessagesAreListed | internal/network/server.go:257-272 | Messages that came in as commands are listed whole by LISTEN: the client can take the reply apart into exactly them. |

## Left out

- TopicStore.Topic.Dequeue: takes a limit that is not negative; the code would panic on a negative one, and its callers pass 10.
- TopicRuns.InOrderDelivery: does not speak of a consumer whose offset was moved by hand, which need not be a record boundary.
- QueueIsolation.IsolatedExactly: runs without restarts; replies to Sync and Close are compared as far as they concern the topic; a directory is its cleaned path from the root of the file system, so symbolic links, file systems that fold case, and names the file system refuses are not modelled, nor is what stands outside the topics directory, where a name with ".." may lead.
- QueueIsolation.ProjectionKeepsReplies: which error a read of a missing segment gives; with a directory at that segment's name the code's message is another one.
- QueueRestarts.QueueDeliversAtLeastOnce: topics of plain names; a topic of a nested name is not loaded again by a restart until it is next used, while the directory above it is loaded as a topic.
- ConsumerStreams.CommittedStream: each poll is one step; the code releases its lock between reading c.offset and sending.
- Text.ScanDecimal: numbers are unbounded; Go's %d refuses what does not fit an int.
- Text.NextLine: the input is valid UTF-8; Go reads an invalid byte as a rune of its own, and after a line over the limit its next Scan returns the buffered 64 KiB as a line.
- Resp.Client.ReadResponse: after a line over the scanner's limit nothing more is read here; in Go the next Scan returns the buffered 64 KiB as a line.
- Resp.Client.ReadBulkString: the same after an over-long line.
- Resp.Client.ReadArrayReply: the same after an over-long line.
- Commands.ReceivedMessagesAreListed: fewer than 2^63 messages, the range of an array's length; the server lists at most 10.
- Overflow of file sizes past 2^63 bytes in `currentSize + messageSize`.
- Real file I/O, fsync and buffering; operating-system errors other than a file or directory of the queue's own standing in the way: other writes are taken to succeed.
- Sockets, goroutines, tickers, context cancellation, channel closing and the error channel.
- Directory entries other than segment files; the zero-padded names, eighteen digits below 10^18, are represented by their numbers.
- Segment clean-up by file time, topic deletion and queue reset: clean-up is a clock decision followed by Rebuild, and deletion calls Close under a lock that Close takes again.
- Removal of consumers from the catalog, its import and export, and its JSON encoding; the file is a snapshot of the map.
- Wall-clock fields and topic metadata; record timestamps are inputs.
- Sums over topics in the queue's statistics, and listing order of topics and consumers.
- The handlers of OFFSET, CREATE, DELETE, PING, HELP and QUIT, and the connection loop: one-line replies, one more list of texts, and QUIT's second reply.
- Configuration, the command-line interface, the TypeScript and JavaScript clients.
