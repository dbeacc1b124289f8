# msgsrvd: a verified model

msgsrvd is a replicated write-ahead-log server. This project models the five parts that carry its promises and proves
them in Dafny:

- **The log on disk.** `Crc32c`, `Record` and `Segment` are the checksum, the record codec and one segment file with its
  block-wise recovery scan, `KnownAnswer` the checksum's generator and a value that RFC 3720 gives. `SegTable` is the table of segment names. `Store` is the log as a value (segments as byte
  images, what is flushed, what is unlinked), `Recovery` what opening a directory comes to and what a crash may leave,
  `Wal` the class that refines both, `Cursor` the read cursor over it, `Dirty` when a dropped tail shows and a run in
  which it does, `Leftover` which dropped records come back, `Stray` when a read hands one on, `HandedOn` a run in which
  it does, and `Short` files shorter than their segment.
- **Sessions and deduplication.** `Sessions` is the fixed session table with its stamps, `SessionLog` what a walk of the
  log makes of it, `Dedup` a cluster of nodes taking writes through passes, crashes, restarts and promotions,
  `Following` what a replica can follow and take, and what a restart can bring back, without storing a write twice,
  `Diverged`, `Recalled` and `Misread` a run of each kind in which one is stored twice, `Changeover` what a replica's
  mark is worth when leaders are replaced, `Requests` what a write asks for, what is stored of it and who reads that, and
  `Handlers` the two handlers that touch the table, on the log and the slots themselves.
- **Key index and readers.** `KeyIndex` is the bounded index, `Readers` the push of records as frames, `Delivery` what
  whole reads and subscriptions tell, `Passes` when they end and how far they get, `Subscriber` the handlers and the
  per-pass push, `Frames` what the client's parser makes of what is sent, `EarlyEnds` runs of them that are answered or ended too early.
- **Group commit, replication, acknowledgements, retention.** `Acks` holds the acknowledgement and replica slots,
  `Answers` an account of what each slot stands for and which answer it ends in, `Cumulative` what an acknowledgement says of the client's own numbering, `Replication` the leader, its replicas and
  their connections as a transition system, `Durability` and `Retention` what every run of it keeps by number, `Mirror`
  which runs keep replicas copies of their leader, `FalseCopy` a run that does not, `Redial` a run in which retention
  deletes too much, `LeaderLoop` and `Stream` the leader's and the replica's own routines.
- **Framing.** `Msg` is the wire header, `Conn` the in-place parser and the parser of a whole stream it refines.

`Bytes` and `Wrappers` hold fixed-width integers, byte images, and result types.

How the pieces fit: a class works on arrays and fields as the program does and each of its methods is proved against a
function of values; the promises are then lemmas about those functions, over every input or every run. A crash keeps
everything a completed flush covers and replaces the rest of the active segment with arbitrary bytes, or cuts a short
file anywhere after it. In the clusters a restart keeps any part of the log that contains what had been flushed, and may
bring back records that were left on the disk behind it. Unlinks may be undone by a crash, newest first. Sequences are
unbounded numbers below 2^64 and record fields have their widths.

## Where the code and its comments part

- **Segment names** (`src/wal/wal.c:22`). The parser accumulates twenty digits in 64 bits, and its check does not catch
  every overflow: the names of 2^64+1 to 2^64+3 are taken for segments 1 to 3 (`SegTable.WrappedNames`). Exactly the
  names whose number is below 2^64 are read correctly (`SegTable.ParseAcceptsOnlyNames`).
- **Dirty tails** (`src/wal/segment.h:101-105`). A dropped tail is not erased. After a rollover the log opens again if
  and only if the finished segment ends in unwritten space (`Recovery.RolledOpensIffClean`, `Dirty.OpensIffClean`), and
  `Cursor.SegRead` and `Dirty.RefusedIff` say exactly when a reader is refused over it. Both happen: a torn write, a
  smaller one over it, and the reader is told its history is gone (`Dirty.TornThenRefused`); the next rollover, and the
  directory never opens again (`Dirty.TornThenClosed`). From clean tails, which every operation keeps, neither does.
- **Left-over records** (`src/wal/segment.h:96-105`). A record left behind the log is said to be kept out by its
  sequence, which cannot be the one due. It can: a crash may lose a record and keep the one after it, the log then opens
  without either and without complaint, and once the lost one's place is filled the scan takes the one behind it for the
  next. If its write was resent into that place, one node, with no replica, has stored it twice
  (`Leftover.LostAndKept`, `Leftover.LeftoverComesBack`; as a run of a node, `Recalled.StoredAgain`). What a restart
  brings back is exact: the log, and what the scan finds at the write offset (`Leftover.ComesBack`,
  `Leftover.CrashIsRestart`). It leaves sessions' sequences increasing if and only if they increase in what comes back
  and each session's first record there is past all the log has of it (`Following.ResumesIff`). From clean tails
  nothing comes back that was not appended, when no half-written record passes its own checks
  (`Leftover.NothingComesBack`).
- **Records handed on** (`src/wal/segment.h:96-105`, `src/wal/wal.c:583-618`). A read checks no checksum and looks to the
  segment table only when it took nothing. When the lost record's place has been filled and the next write rolls over,
  the one kept behind it stands at the end of a finished segment under the number of the record that follows, and a
  stream sends it for that (`HandedOn.KeptIsSent`; on the program's own parts, replica included, `HandedOn.KeptIsStored`).
  A client is then told of a second copy that does not exist (`FalseCopy.NoSecondCopy`), and a resend of the kept write
  is stored twice by the replica (`Misread.StoredFromBehind`). Reads keep to the log's own records if and only if no
  finished segment has a whole record behind it numbered as the next (`Stray.ReadsWithinIff`), so always from clean
  tails; `Stray.ReplicaTakes` says what a replica takes of any read. Replicas are copies of their leader at every moment
  of a run if and only if each frame sent to them is the leader's own records (`Mirror.SameIff`), as it is while
  rollovers leave nothing behind (`Mirror.TidyOwn`).
- **Short files** (`src/wal/segment.c:43-56`). A crash between a segment's name and its allocation leaves an empty file
  that opens (`Short.RolledShort`) and is from then on only as long as what is written to it. When the next crash cuts
  it, the directory is refused for want of room, however much scratch there is, if and only if a header is left and not
  all of its record; any other cut opens with every record that is whole (`Short.ShortCrash`, `Short.CutOpens`).
- **At most once** (`src/server/loop.c:533-539`). The mark keeps a resend from being stored twice at one node. A replica
  takes records from where its own log ends and looks only at their sequence and checksum (`src/server/loop.c:1036-1045`),
  so a former leader with a flushed write of its own can take the same write again from the leader that replaced it:
  `Diverged.StoredTwice` is a run in which it does. `Following.FollowIff` and `Following.FollowForeverIff` say exactly
  which logs are safe to follow. `Following.SuitsIff` is the exact condition of each step of a cluster, and
  `Following.StoredOnce` proves the promise for every run of such steps: those that follow only such logs, take only
  records that suit, and restart only over left-over records that resume their log.
- **Copies after a changeover** (`src/server/loop.c:915-925`). A replica that attaches is held to have as many records
  as it asks to continue from. They are its new leader's records if and only if its log is a prefix of what the leader
  has flushed (`Changeover.MarkVouchedIff`); `Changeover.NotVouched` reaches an attachment that counts as a copy of a
  record the replica does not have. In runs whose attachments are by prefix and whose streams hand over the leaders' own
  records every such promise holds, through any later changes of leader (`Changeover.PromisedAcross`).
- **READ that never ends** (`src/server/loop.h:36-49`). The replica buffers were made larger than a client's so that the
  largest record a client can send would not stall a stream; a client's own send buffer was not. A WRITE of 8160 bytes
  is taken, and no READ of its key or of all keys gets past it (`Passes.StuckRead`). `Passes.ReadExact` and
  `Passes.SubscriptionReaches` give the exact condition.
- **Cumulative acknowledgements** (`src/proto/msg.h:224-232`). An acknowledgement is said to cover every record of the
  session up to the client sequence it names. A resend that comes before the flush is put in its slot with the sequence
  flushed so far (`src/server/loop.c:533-539`), so one that asks for two copies can be told it has them when it has not
  (`Cumulative.UnflushedResend`); `Cumulative.ResendHonestIff` says exactly when.
- **Retention floor** (`src/server/loop.c:408-425`). Requiring the whole set of replicas to be attached is said to be
  enough without names. It is enough when each replica holds a slot (`Retention.FloorBackedIff`); a replica that redials
  before its old connection has been noticed holds two, and `Redial.TwoSlotsLose` is a run, from nothing, that ends with
  a record deleted that another replica never had.
- **Lost CLOSE** (`src/proto/conn.c:79-98`). `Conn.CloseLost` says exactly when the receive loop is never told to close.
- **READ barrier** (`src/server/loop.c:715-726`). A READ that waits for a sequence not yet flushed is answered at once if
  and only if it asks for one key, no key was ever turned away from the index, and the log has no record of that key
  (`Subscriber.Subscriber.HandleRead`); `EarlyEnds.BarrierSkipped` is an empty log answering a READ that waits for 5.
- **Released reads** (`src/server/loop.c:780-783`). A read that waited is said to see the log as it is when it is
  released. The limit of a pass is lowered by the reads before it (`src/server/loop.c:814-815`), and a read released under
  it ends there (`Subscriber.SubsPush`). It ends at what is flushed if and only if no connection before it in the pass is
  reading towards an end below that (`Subscriber.LimitIff`); `EarlyEnds.ReleasedEarly` is a READ that is to stop one
  record short. `Passes.WaitedRead` says what it then delivers.
- **`once` is sticky** (`src/server/loop.c:694`). SUBSCRIBE leaves it, and the end, as a READ before it set them
  (`Subscriber.Subscriber.HandleSubscribe`), and a turn ends the stream if and only if `once` is set and the cursor is
  past that end (`Subscriber.Subscriber.Push`). `EarlyEnds.SubscriptionEnded` is a READ and a SUBSCRIBE after which the
  subscription is told LAST at its first turn.

## Model

| member | source | states |
|---|---|---|
| Crc32c.CrcChains | src/core/crc32c.c:31-57 | The checksum of a continued buffer is the checksum of the whole, whatever the split. |
| Crc32c.WordStepIsBytes | src/core/crc32c.c:37-48 | One eight-byte step of the fast loop is eight one-byte steps. |
| Crc32c.BurstDetected | src/core/crc32c.c:31-57 | Strings of any one length that differ only within four consecutive bytes never share a checksum. |
| KnownAnswer.PolyIs | src/core/crc32c.h:7-7 | The generator is the one of section 12.1 of RFC 3720, power by power. |
| KnownAnswer.ZerosSum | src/core/crc32c.c:31-57 | Thirty-two zero bytes have the checksum that appendix B.4 of RFC 3720 gives, stored as the four bytes it gives. |
| Crc32c.Checksum | src/core/crc32c.c:31-57 | The two loops, eight bytes then one at a time, compute the bit-serial definition for every starting value and buffer. |
| Record.EncodeDecodes | src/wal/record.c:19-72 | Decoding inverts encoding for every record and payload length; the image is in the encoder's form and verifies. |
| Record.ReencodeIdentical | src/wal/record.c:19-63 | Re-encoding a decoded record gives the identical bytes if and only if the record has nothing outside its named fields. |
| Record.ParseUnique | src/wal/record.c:8-17 | A concatenation of whole records has exactly one parse. |
| Record.BurstRejected | src/wal/record.c:79-93 | Of two same-size records differing only within four consecutive checksummed bytes, at most one verifies. |
| Record.EncodeInto | src/wal/record.c:19-63 | The encoder writes exactly the image into the buffer, or nothing when it does not fit, and reports the size. |
| Record.VerifyRecord | src/wal/record.c:79-93 | Verification accepts exactly the bytes whose checksum is the header's, for every buffer length. |
| Segment.ProbeFound | src/wal/segment.c:146-187 | What a scan takes at an offset is the whole, intact record that was due there. |
| Segment.ScanIsLongest | src/wal/segment.c:111-219 | Every run of dense, checksum-good records in range is a prefix of what the scan takes: it takes the longest. |
| Segment.ScanExact | src/wal/segment.c:111-219 | A run that ends in unwritten space is recovered exactly, with no torn flag. |
| Segment.ScanNeverShort | src/wal/segment.c:111-219 | Of a file of any length, with scratch for the largest record: the scan fails for room if and only if a record it comes to is cut short by the end of the file, never on a file of full length; more scratch changes nothing; and the torn flag is set exactly when what follows is not unwritten space. |
| Segment.ScanBlock | src/wal/segment.c:146-198 | The walk over one block takes just the records a record-at-a-time scan takes, and says whether to refill or stop; a refill always consumed something. |
| Segment.Segment.Recover | src/wal/segment.c:111-219 | The nested refill loops compute the record-at-a-time scan: same records, end, flag and callbacks, for every scratch size; fields are set from it, and an error leaves them alone. |
| Segment.Segment.Append | src/wal/segment.c:230-265 | One record under the next sequence, written at the append point; exactly when it is refused, and then nothing changes. A file no longer than its records stays so. |
| Segment.Segment.Sync | src/wal/segment.c:267-283 | A flush makes everything appended durable and changes nothing else. |
| Segment.NothingOutstanding | src/wal/segment.c:267-283 | Bytes are outstanding exactly when records are. |
| SegTable.NameOrder | src/wal/segment.c:5-18 | Names sort as strings exactly as their sequences sort as numbers, for all 64-bit sequences. |
| SegTable.ParseName | src/wal/wal.c:11-39 | Parsing inverts naming for every nonzero 64-bit sequence. |
| SegTable.ParseAcceptsOnlyNames | src/wal/wal.c:11-39 | A file name that parses is one the log writes if and only if its number is below 2^64. |
| SegTable.WrappedNames | src/wal/wal.c:22-36 | Three names the log never writes are taken for segments 1, 2 and 3. |
| SegTable.WriteName | src/wal/segment.c:5-18 | The digit loop writes exactly the decimal name. |
| SegTable.ParseArea | src/wal/wal.c:11-39 | The digit loop, with its overflow test, computes the 64-bit parse of every name area. |
| SegTable.Table.Insert | src/wal/wal.c:41-63 | The sorted insert keeps bases strictly ascending and adds exactly the new one, or refuses a full table. |
| SegTable.Table.Load | src/wal/wal.c:65-111 | A listing in any order, with foreign files mixed in, gives exactly the bases it names, ascending; it fails exactly when it meets a segment's name with the table full. |
| SegTable.LoadsIff | src/wal/wal.c:41-111 | A directory, which lists each name once, loads if and only if it names no more segments than the table holds; other files do not count. |
| SegTable.FullRefusesRepeat | src/wal/wal.c:41-48 | With the table full even a name it already has is refused. |
| SegTable.LoadOrderFree | src/wal/wal.c:65-111 | Two listings of the same names, in whatever order, load the same table. |
| Store.AppendKeeps | src/wal/wal.c:273-327 | An append keeps the segment invariant, numbers densely across a rollover, adds one record at the end or none, succeeds exactly when the record fits and there is room, and calls it too large exactly when no segment could hold it. |
| Store.NothingOutstanding | src/wal/segment.c:221-283 | Of the whole log: everything written is flushed exactly when the durable sequence is the last. |
| Store.RollPlaced | src/wal/wal.c:291-321 | A rollover of a segment that is not empty keeps every record and the next sequence, and is sound exactly when the finished segment ends in unwritten space. |
| Store.FlatDense | src/wal/wal.c:207-270 | Segment by segment the log is one dense numbering of verified records. |
| Store.RetainSound | src/wal/wal.c:372-427 | Retention removes a prefix of segments wholly below the bound, as many as there are unless an unlink fails, and touches no record. |
| Store.RetainKeeps | src/wal/wal.c:359-427 | Given the retain mark, retention never leaves fewer than the wanted segments. |
| Store.MarkKeepsNewest | src/wal/wal.c:359-370 | The retain mark is the base of a linked segment that exactly k of them begin at or after, and 0, below every base, when k is none or all of them. |
| Recovery.CrashRecovers | src/wal/wal.c:139-270 | However a crash scrambles what was not flushed, the directory opens and what it recovers begins with every flushed record, unchanged and in order. |
| Recovery.RollCrashRecovers | src/wal/wal.c:291-321 | The same for a crash inside a rollover, which loses nothing at all. |
| Recovery.RolledOpensIffClean | src/wal/wal.c:246-258 | After a rollover the log opens again if and only if the finished segment ends in unwritten space. |
| Dirty.OpensIffClean | src/wal/wal.c:207-270 | The segments of any log open again if and only if every finished one ends in unwritten space; otherwise the storage error is answered. |
| Dirty.TornThenClosed | src/wal/wal.c:207-321 | A crash, a reopening, a smaller append and a rollover after which the directory no longer opens. |
| Short.RefusedIff | src/wal/segment.c:146-187 | Whatever the last file holds and however long it is: after clean segments opening is refused if and only if its scan comes to a record cut short by the end of the file, and then for want of room. |
| Short.CutOpens | src/wal/segment.c:146-198 | A dense run cut after any number of bytes is refused for want of room if and only if the cut leaves a header without all of its record; otherwise it opens, undamaged, with the records that are whole. |
| Short.RolledShort | src/wal/segment.c:34-84 | The empty file that a crash inside a rollover leaves opens, into a log with every record and a last file no longer than what is in it. |
| Short.ShortCrash | src/wal/segment.c:34-265 | From there: any run that stays in the segment, then a crash that cuts the file anywhere past what was flushed. What opening answers, exactly; and whatever opens has every flushed record. |
| Short.FirstCut | src/wal/segment.c:34-265 | An empty file, one append, and each length a crash may cut it to: refused from its header on until it is whole. |
| Recovery.ReopenGood | src/wal/wal.c:139-270 | Whatever directory opens, the log it opens into meets the invariant, with everything read back durable. |
| Recovery.RunThenCrash | src/wal/wal.c:139-332 | From clean tails, any run of appends, flushes, rollovers and retention, then a crash: the directory opens with every flushed record and no hole. |
| Recovery.RunThenRollCrash | src/wal/wal.c:291-321 | The same with the crash inside the rollover itself. |
| Leftover.CrashIsRestart | src/wal/segment.c:111-219 | What a crash leaves opens as the records still on disk as they were written, flushed or not, and behind them exactly what the scan goes on to find. |
| Leftover.ComesBack | src/wal/segment.h:96-105 | With nothing lost, a reopening gives the log and, past it, what the scan finds from the write offset: nothing if and only if no record that verifies and carries the next sequence stands there, so nothing from a clean tail. |
| Leftover.NothingComesBack | src/wal/segment.h:96-105 | From clean tails, any run, then a crash that loses any unflushed bytes and half-writes nothing that passes for whole: what is recovered begins with every flushed record and is a beginning of what was appended. |
| Leftover.WholesTell | src/wal/segment.c:179-187 | A crash that keeps or loses records whole is of that kind. |
| Leftover.LostAndKept | src/wal/segment.c:230-283 | Three appends, the first flushed, and a crash that may follow: it loses the second and keeps the third. |
| Leftover.LeftoverComesBack | src/wal/segment.c:179-187 | That directory opens with the first record and no damage; the third write, sent again, is flushed in the second's place; and the next opening takes the old copy behind it for the record after it. |
| Stray.ReadsWithinIff | src/wal/wal.c:583-618 | Every read of the log, from any place, under any limit it has reached and into any room, keeps to its segment's own records if and only if no finished segment that the log has gone past has a whole record behind its own numbered as the next; with unwritten space behind finished segments none has. |
| Stray.WithinIs | src/wal/wal.c:583-618 | A read that keeps to its segment takes exactly the log's records from its place on; any other takes all the segment has from there, and then more. |
| Stray.ReplicaTakes | src/server/loop.c:1027-1049 | Of what a read takes, whatever is in the file, a replica takes the segment's records from there on, as many as were read, and once they are all there a front part of the verified, numbered-on records behind them. |
| Stray.CleanLeaves | src/wal/segment.h:96-105 | Unwritten space behind a segment's records leaves nothing a replica would take. |
| HandedOn.MidFills | src/wal/wal.c:273-327 | After the crash and the opening, a write fills the lost record's place. |
| HandedOn.LargeRolls | src/wal/wal.c:273-327 | The next write does not fit and begins a segment of its own, with the kept record behind the one before. |
| HandedOn.KeptIsSent | src/wal/wal.c:583-618 | A read of that log from the second record on gives the second and then the kept record for the third; a replica takes both, and the third is another. |
| HandedOn.KeptIsStored | src/server/loop.c:935-1064 | The same on the program's own parts, from the directory the crash leaves: the leader's log and what its replica has of it after one frame. |
| Wal.Wal.Append | src/wal/wal.c:273-327 | The append with its rollover refines the value model: same log, same answer, in place. |
| Wal.Wal.AppendAt | src/wal/wal.c:645-677 | A record that carries its sequence is stored as exactly its encoding when it is the next one, and otherwise changes nothing. |
| Wal.Wal.Sync | src/wal/wal.c:329-332 | The flush refines the value model. |
| Wal.Wal.Retain | src/wal/wal.c:372-427 | The unlink loop, stopped by a failed unlink or not, leaves the table equal to the directory and the log as retention describes. |
| Wal.Wal.RetainMark | src/wal/wal.c:359-370 | The mark is the base of a linked segment and exactly k linked segments begin at or after it; asked for none or for all, it is below every base. |
| Wal.Wal.Open | src/wal/wal.c:139-270 | Opening a listing in any order, of files of any length, comes to the base-ordered scan: what opens, into what, which records are handed back, and each refusal, the full table included. |
| Cursor.Cursor.Seek | src/wal/wal.c:486-546 | The cursor is placed at a sequence exactly when the log holds it or is about to, and otherwise does not move. |
| Cursor.Walk | src/wal/wal.c:589-617 | Over any block at all the walk takes exactly the headers that carry the numbering on, whole and within the limit, and fails exactly where one does not. |
| Cursor.SeesWhole | src/wal/wal.c:589-617 | What a walk takes is the front of the block, whole records one after another, numbered from where it started and none past the limit. |
| Cursor.SegRead | src/wal/wal.c:583-618 | Of any segment: a read is refused exactly when it reaches a header past the last record that is neither unwritten space nor the next sequence, goes astray exactly when that header carries the next sequence and is all there, and otherwise gives the records that are due and fit. |
| Dirty.RefusedIff | src/wal/wal.c:583-618 | With finished segments clean and a limit the log has reached, a read is refused if and only if it gets to a whole header at the write offset that is neither unwritten space nor the sequence due. |
| Dirty.TornThenRefused | src/wal/wal.c:593-600 | A torn write, dropped on reopening, and a smaller one over it: from then on a read of that flushed record is refused. |
| Cursor.Cursor.Read | src/wal/wal.c:548-643 | From any log, clean or not: which segment a read is made from, exactly when it fails, and that otherwise it gives the whole records that come next, none past the limit, and nothing only when nothing is due or the next one does not fit; past retention it refuses. |
| Cursor.StandsStable | src/wal/wal.c:548-643 | A cursor keeps its place through any append, flush, rollover or retention. |
| Cursor.ReaderSeesAll | src/wal/wal.c:486-643 | Over any interleaving of reads with appends, flushes, rollovers and retention, a reader that is not refused has been given exactly the records from its start to where it stands, each once, in order. |
| KeyIndex.Index.Add | src/wal/index.c:20-46 | Adding keeps the table truthful about every key it holds and complete until it is full. |
| KeyIndex.Index.Range | src/wal/index.c:48-74 | A known key's range is its first record, or the starting point when that is later, and its last. |
| KeyIndex.Between | src/wal/index.c:48-74 | Every record of a key lies between its first and its last, and both are records of it. |
| KeyIndex.CompleteKnows | src/wal/index.c:76-79 | A key missing from a table that never turned one away has no record. |
| Readers.NoticesFit | src/server/loop.c:749-757 | Records as frames never take more room than the same records on disk. |
| Readers.Outgoing.PushBlock | src/server/loop.c:844-857 | Every record of a block that was asked for becomes a frame, in order, and none is dropped although the result is ignored. |
| Readers.Outgoing.ReplyRecord | src/server/loop.c:197-216 | A record's frame is staged whole, or nothing when there is no room; Frames.NoticeIs says what the frame says. |
| Frames.NoticeIs | src/server/loop.c:197-216 | A record's frame decodes to NOTIFY without flags, under the record's own type, length, key and sequence, and carries its payload. |
| Frames.LastIs | src/server/loop.c:807-811 | The closing frame decodes to NOTIFY with LAST, the sequence the read went to, no key and no payload. |
| Frames.ReplyIs | src/server/loop.c:169-189 | Any other answer decodes to its op, flags, sequence and payload; nothing is staged when it does not fit. |
| Frames.ErrorIs | src/server/loop.c:252-273 | The body of a refusal is its code, and zeros. |
| Frames.ReadParses | src/server/loop.c:844-859 | Records as frames and a closing one, through any parser with room for each: one frame a record, in order, that names it and carries its payload, then the closing frame, and nothing left over. |
| Delivery.PlanLosesNothing | src/server/loop.c:691-747 | Narrowing a read by the index, in each of its three answers, leaves out no record of the answer, stale ranges included. |
| Delivery.PlanIs | src/server/loop.c:691-735 | Where a read starts and ends: at the key's first record or the first sequence held, and at its last record or what is flushed, with every record of the key in between; over everything when the index cannot say. |
| Delivery.PlanSubscribeIs | src/server/loop.c:621-637 | A subscription starts where it asks, or at the key's first record if and only if that comes later. |
| Delivery.ReadPlaced | src/server/loop.c:706-735 | A read is never refused for history, wherever the index points it. |
| Delivery.ReadTold | src/server/loop.c:691-747 | A read whose cursor has passed its end has been told exactly what was asked for of the log from its first record to what was durable at the request, whatever the log did meanwhile. |
| Passes.ReadExact | src/server/loop.c:759-859 | Over any run of passes and log operations, with enough passes, a read ends if and only if each record it walks over fits one pass; when it ends it has put on the wire exactly the frames of its answer and then the closing frame, which names the end it was given. |
| Frames.ReadArrives | src/server/loop.c:759-859 | What such a read has put on the wire parses, at any client with room for each record, into one frame for each record of its answer, naming and carrying it, in order, and then the closing frame. |
| Passes.WaitedRead | src/server/loop.c:738-784 | A READ held for its barrier: released after any run of the log in a pass that reads up to d, it ends if and only if each record it walks over fits one pass, and has then put on the wire exactly the frames of what was asked for from the first sequence held when it came up to d, and the closing frame. |
| Passes.EntrySize | src/wal/record.c:8-17 | What a record of the log needs of a pass: 56 bytes and its payload, rounded up to eight. |
| Passes.ReadStuck | src/server/loop.c:798-803 | A record larger than one pass can read is never got past, however many passes come. |
| Passes.StuckRead | src/server/loop.h:36-49 | A WRITE of 8160 bytes is legal on a client's connection, and no read of its key or of all keys, whatever the index truthfully says, is ever sent anything. |
| Passes.SubscriptionReaches | src/server/loop.c:759-859 | A subscription gets past a flushed sequence, with enough passes, if and only if each record up to it fits one pass. |
| Delivery.SubscriptionExact | src/server/loop.c:759-859 | What a subscriber has been sent at any moment is exactly the key-filter of the log from its place to the cursor, and all of it was durable. |
| Subscriber.Subscriber.HandleRead | src/server/loop.c:671-747 | A short payload ends the connection; otherwise where a read is placed, where it ends, whether it waits. One whose barrier is past what is flushed starts at once if and only if it asks for one key, the index never turned a key away, and the log has no record of that key. |
| Subscriber.Subscriber.HandleSubscribe | src/server/loop.c:599-667 | A short payload ends the connection; otherwise where a subscription starts, when it waits, exactly when it is refused, and that an earlier read's end and `once` stay. |
| Subscriber.Subscriber.Push | src/server/loop.c:759-859 | One connection's turn of a pass, clean tails or not: nothing while bytes of the last pass wait to be sent or there is no room for a header; the closing frame, if and only if `once` is set and the cursor is past the end; or the records that come next within limit and room as frames; or the error frame and the end of the stream, and exactly when. |
| Subscriber.Subscriber.PassOfRead | src/server/loop.c:795-859 | With its output sent, a read's turn is the move of it that the account of whole reads goes by. |
| Subscriber.Subscriber.PushWaiting | src/server/loop.c:776-793 | A held stream starts once the node reaches its barrier and is refused when time is up. |
| Subscriber.SubsPush | src/server/loop.c:759-859 | A whole pass over the connections: each has its turn under what those before it left of the limit, and a read held for its barrier is released by that limit and ends there. |
| Subscriber.LimitIff | src/server/loop.c:814-815 | What is left of the limit is what is flushed if and only if none of the connections before ends below that; otherwise it is the lowest of their ends. |
| Subscriber.TableKnows | src/wal/index.c:48-79 | A key in the table is in the log; while none was turned away, a key in the log is in the table. |
| EarlyEnds.BarrierSkipped | src/server/loop.c:715-726 | A log with nothing in it answers a READ that waits for sequence 5 at once. |
| EarlyEnds.SubscriptionEnded | src/server/loop.c:694-811 | A READ, then a SUBSCRIBE to everything from now on: the subscription's first turn sends LAST and ends it. |
| EarlyEnds.ReleasedEarly | src/server/loop.c:776-815 | Two READs, two records and a pass, from an empty log: the held READ is released to end at the first record though two are flushed. |
| Sessions.Table.Lookup | src/server/session.c:11-23 | The scan finds exactly the entry with the id. |
| Sessions.Table.OldestIndex | src/server/session.c:33-43 | The scan finds the least recently seen entry. |
| Sessions.Table.SlotForNew | src/server/session.c:54-69 | A new arrival takes a free cell, or the oldest one's; order by age is kept. |
| Sessions.Table.Create | src/server/session.c:71-99 | A session is issued under the first usable draw of eight, or refused when there is none. |
| Sessions.Table.Observe | src/server/session.c:101-123 | Array, stamps and eviction together behave as a list in order of recency. |
| Sessions.DrawnIs | src/server/session.c:80-95 | An id is issued if and only if one of the draws is nonzero and not held, and it is the first such. |
| Sessions.ArrivalSame | src/server/session.c:71-123 | Opening a session, and writing in one, move the table as meeting its record in the log does. |
| Sessions.ArrivalIs | src/server/session.c:101-123 | A session that is met is then the newest, under the higher of the two sequences; the others stay as they were, in order, but for the oldest when the table is full of others. |
| SessionLog.FoldIs | src/server/session.c:101-134 | After a walk of a log with increasing client sequences the table is exactly the most recently written distinct sessions, each with its highest sequence, evicted and met again or not. |
| SessionLog.Rebuild | src/wal/wal.c:125-132 | The table the recovery callbacks build is that fold. |
| Following.StoredOnce | src/server/loop.c:486-575 | In every run of the cluster whose steps suit (replicas attach only to logs that fit, streams hand over only records that are in place and leave the rest in theirs, restarts bring back only left-over records that resume the log), each session's sequences strictly increase along every node's log, no write is stored twice, and the table agrees with the log. |
| Following.SuitsIff | src/server/loop.c:1019-1064 | The exact condition of a step: where every node's log increases, its table agrees and what it follows fits, that is still so after the step if and only if the step suits. |
| Following.ExactIff | src/server/loop.c:2611-2706 | And of a run: it is so at every moment if and only if every step suits. |
| Following.TakeFits | src/server/loop.c:1019-1064 | Taking the leader's own next record always suits. |
| Following.TidyTakesOwn | src/wal/segment.h:96-105 | While rollovers leave nothing behind, streams hand over nothing but their leaders' own records. |
| Following.ResumesIff | src/wal/segment.c:179-187 | Over a log whose sequences increase, a restart that brings left-over records back keeps them increasing if and only if they increase there and each session's first left-over record is past all the log has of it. |
| Following.FollowIff | src/server/loop.c:1019-1064 | Following a log as it stands keeps every session's sequences increasing at every step if and only if each session's first record still to be taken is past what the session has here. |
| Following.FollowForeverIff | src/server/loop.c:1019-1064 | A log fits, a condition on the two logs at the moment of attaching, if and only if following it keeps the sequences increasing however soundly it grows. |
| Following.PrefixesFit | src/server/loop.c:1019-1064 | A run that attaches only to logs one's own is a prefix of, takes only its leaders' own records and brings nothing back at restarts suits at every step. |
| Diverged.StoredTwice | src/server/loop.c:1019-1064 | A run from nothing stored in which a former leader follows its successor and stores one write twice. |
| Recalled.StoredAgain | src/wal/segment.c:179-187 | A run of one node, from nothing stored, in which a restart brings a left-over record back behind its own resend: one write stored twice. |
| Misread.StoredFromBehind | src/server/loop.c:1019-1064 | A run of a leader and a replica, from nothing stored: the restart brings nothing back and the replica attaches with nothing, and it ends with one write stored twice, by one record handed on from behind a finished segment. |
| Changeover.BehindIff | src/server/loop.c:1019-1064 | Over runs with crashes, left-over records and changes of leader, a replica's log is at every moment a prefix of what its leader has flushed if and only if it is at every attachment and each record taken is the one the leader has logged there. |
| Changeover.MarkVouchedIff | src/server/loop.c:922 | The number of records a start holds a replica to names the same flushed records on both nodes if and only if the replica's log is a prefix of what the leader has flushed. |
| Changeover.VouchedForever | src/server/loop.c:2611-2706 | Records two nodes have both flushed they keep, through any run at all. |
| Changeover.PromisedAcross | src/server/loop.c:2453-2503 | A promise of c records made while a replica is attached, in a run whose attachments are by prefix and whose streams hand over the leaders' own records: leader and replica have the same c records flushed, then and after whatever leaders come later. |
| Changeover.NotVouched | src/server/loop.c:922 | A run to an attachment that is not by prefix: the slot holds a former leader to two records, of which it lacks the second. |
| Dedup.ToldIsStored | src/server/loop.c:2650-2676 | In every run at all, whatever comes back at restarts, what a client was told is stored is stored and flushed on that node, then and ever after. |
| Following.ResendNotStored | src/server/loop.c:533-539 | A write the log already holds is never appended again, whoever sends it and whatever was evicted. |
| Following.ToldIsFlushed | src/server/loop.c:2650-2676 | In runs whose steps suit what a client was told is cumulative: every record of its session up to the sequence named is flushed, at the moment it leaves and ever after. |
| Following.KnowsRebuilt | src/server/session.c:101-134 | A table rebuilt from what retention has left says of each session it holds what the whole log says. |
| Dedup.StepOk | src/server/loop.c:2611-2706 | Every step, restarts and streams that bring left-over records included, keeps what is staged and sent backed by the log: passes start with everything flushed and restore that before acknowledging. |
| Dedup.SendingMoves | src/server/loop.c:1290-1300 | Replies leave in the order they were staged, each once, in their connection's session. |
| Handlers.Node.HandleHello | src/server/loop.c:295-331 | On the node's own table the handler is the HELLO step; the answer, and exactly when the connection ends, malformed openings included. |
| Handlers.HelloIs | src/server/loop.c:295-331 | An opening that is answered names a session now in the table, puts the connection in it and stages exactly that session's mark; one that is refused changes neither, and which refusal it is says why. |
| Handlers.HelloTells | src/server/loop.c:330-330 | Where the table agrees with the log, an opening is told the highest sequence its session has in the log. |
| Handlers.Node.HandleWrite | src/server/loop.c:481-579 | On the node's own log, replica slots and acknowledgement slots the handler is the write step: refused, answered as a resend, or appended, in the order of its tests, with the slot it is owed in and the error it is answered with. What is appended is one record under the next sequence with the request's own key, type, flags, client sequence and payload, and the connection's session. |
| Handlers.WriteReplyIs | src/server/loop.c:481-569 | Each of the five refusals of a write, exactly when it is given; silence exactly when none is. |
| Handlers.RefusesIff | src/server/loop.c:512-526 | A write is not turned away for want of a replica if and only if the replicated log's own step would take it. |
| Handlers.OwingIs | src/server/loop.c:571-579 | What is owed for a write is what the replicated log's own step owes, so what every run keeps of promises is about this handler. |
| Handlers.DurableView | src/server/loop.c:536-538 | The sequence a resend is made to wait for is the last one the cluster's log has flushed. |
| Handlers.EmitView | src/server/loop.c:2453-2503 | What a pass answers from a connection's slots is the cluster's step of answering. |
| Handlers.FlushView | src/server/loop.c:2650-2676 | A flush of the log is the cluster's flush. |
| Handlers.RetainView | src/wal/wal.c:372-411 | Letting segments go is the cluster's step: the first sequence held rises to no more than what is flushed, and nothing else moves. |
| Handlers.ApplyView | src/server/loop.c:1027-1063 | What a frame's records leave of the log and the session table is the cluster's steps of taking, one after the other. |
| Requests.AskIs | src/proto/msg.h:150-153 | The four lowest bits of the flags, from the lowest up, are ACK_REQ, SYNC, REPLICATED and ALLOW_DEGRADED. |
| Requests.TakesIs | src/server/loop.c:541-569 | The record appended for a write decodes to the request: key, type, flags, session, client sequence, payload, under the sequence given. |
| Requests.AnswersIff | src/server/loop.c:691-747 | A record of the log is in the answer to a read if and only if it is held, flushed and of what is asked for. |
| Requests.WriteIsRead | src/server/loop.c:541-569 | Whatever the log does after a write was taken, what it carries stays under its number, and is in the answer to a read of its own key, from its flush until retention passes it, and in that of no other key. |
| Handlers.AppendView | src/server/loop.c:541-569 | An append to the log is, seen by session and client sequence, the cluster's append: one entry at the end or none, flushed so far or to where a rollover flushed it. |
| Handlers.RestartView | src/wal/wal.c:139-270 | A crash of the log and its reopening are, seen by session and client sequence, the cluster's restart: what survived in place, the left-over records behind it, and held from the first segment listed, unlinked before or not. |
| Handlers.AppendLeft | src/wal/wal.c:291-321 | An append adds to what stands behind finished segments exactly what its rollover, if it has one, leaves. |
| Handlers.NothingLeft | src/wal/segment.h:96-105 | While finished segments end in unwritten space nothing stands behind any. |
| Handlers.TakeView | src/server/loop.c:1027-1063 | Each record a replica takes of a read is the one the log has in that place, or one that stands there behind a finished segment: the cluster's step of taking. |
| Acks.Conns.Stage | src/server/loop.c:359-374 | A slot remembers the highest sequences, the first deadline and every flag asked for. |
| Acks.Conns.AckWrite | src/server/loop.c:458-479 | What is owed goes to the slot that can satisfy it. |
| Acks.Conns.EmitAll | src/server/loop.c:2453-2503 | Each connection's slots are answered by what this pass has made true, all against the same flush and the same replicas; Answers.AnsweredAsOwed says with what. |
| Answers.RunKept | src/server/loop.c:355-374 | After any run of writes owed and passes a slot stands for exactly the writes not yet answered: the highest of their sequences, every flag one of them asked for, and the deadline of the first. |
| Answers.AnsweredAsOwed | src/server/loop.c:2453-2503 | After any run, what a pass answers: the flushed ones at once, DEGRADED exactly if one of them wanted a copy; those that wait for a replica when all are flushed and confirmed; until then not before nobody is attached or the first has waited its time, and then DEGRADED if one of them allowed it and NO_REPLICAS if none did. |
| Acks.Replicas.ReplBest | src/server/loop.c:395-405 | The highest sequence any live replica has confirmed. |
| Acks.Replicas.ReplLive | src/server/loop.c:377-386 | Whether any replica is live. |
| Acks.Replicas.RetainFloorUpdate | src/server/loop.c:426-447 | The floor rises to what every expected replica has confirmed, and only rises. |
| Acks.EmittedIsConfirmed | src/server/loop.c:2478-2486 | An acknowledgement carrying REPLICATED without DEGRADED names a sequence flushed here and confirmed by a live replica. |
| Cumulative.HonestIff | src/proto/msg.h:224-232 | Whatever is confirmed and flushed later, the acknowledgement a slot ends in is true of every record of the session up to the client sequence it names if and only if the sequence the slot waits for covers them. |
| Cumulative.PromptHonest | src/server/loop.c:359-374 | In every run of writes, resends, flushes and answers, with whatever is written elsewhere, in which resends come only for records that are flushed or waited for already, a slot that owes something is honest. |
| Cumulative.ResendHonestIff | src/server/loop.c:533-539 | A slot a resend is put in is honest if and only if the session's last record is flushed, or is one the slot was waiting for. |
| Cumulative.UnflushedResend | src/server/loop.c:533-539 | A resend that overtakes the flush is told it has a second copy when only what came before has one. |
| Acks.LowestIs | src/server/loop.c:430-442 | The lowest mark is below every live replica's and is one of them. |
| Acks.FloorIs | src/server/loop.c:426-447 | The floor stays unless every expected replica is live; then it is the lowest of the live marks, if that is higher. |
| Durability.StepOk | src/server/loop.c:2611-2706 | Every leader, replica, channel, crash and redial step keeps the invariant by number; a crash may bring back any left-over records the scan would take, and a stream may hand on any that a rollover left. |
| Durability.ReplicasCount | src/server/loop.c:1019-1064 | In every run at all a replica has no more records than the leader has flushed, numbered as its are, and a slot never claims more than its replica has flushed. |
| Durability.PromisesCounted | src/server/loop.c:2453-2503 | Every acknowledgement ever sent that promised a second copy of W: the leader and some replica have both flushed as many records, in every run at all. |
| Mirror.SameIff | src/server/loop.c:935-973 | In a run with crashes and redials of anyone, replicas hold, on disk and in flight, only the leader's own records at every moment if and only if each frame sent to a replica still on its connection is the leader's own records. |
| Mirror.StreamSameIff | src/server/loop.c:935-973 | The exact condition of one frame. |
| Mirror.ReplicasFollow | src/server/loop.c:1019-1064 | In every such run a replica's log is record for record a prefix of the leader's durable log. |
| Mirror.PromisesKept | src/server/loop.c:2453-2503 | And every acknowledgement ever sent that promised a second copy of W is kept: the leader and some replica have the same records up to W flushed, whatever crashes since. |
| Mirror.TidyOwn | src/wal/segment.h:96-105 | While no rollover leaves a record behind its segment, every frame is the leader's own records. |
| FalseCopy.NoSecondCopy | src/server/loop.c:935-973 | A run from a fresh start, with one crash that brings nothing back, that ends with a client told of a second copy of a record no other node has. |
| Durability.FrameFits | src/server/loop.c:1027-1063 | What is in flight to a replica is always numbered as what it expects next, so it takes all of it and never finds it has drifted. |
| Durability.TakeItemsIs | src/server/loop.c:1027-1049 | A replica takes what is numbered on from its log, up to the first record that is not, and drifts exactly if there is one. |
| Durability.EmitStepOk | src/server/loop.c:2453-2503 | Acknowledging keeps the invariant: every promise made is backed. |
| Retention.StepRetains | src/server/loop.c:426-447 | While live slots are distinct replicas, neither the floor nor the oldest segment passes what any replica has flushed. |
| Retention.HistoryHeld | src/server/loop.c:2375-2424 | Over whole runs the first sequence the leader holds is at most any replica's flushed sequence plus one. |
| Retention.NeverNoHistory | src/server/loop.c:871-915 | A returning replica's opening frame takes the free slot from exactly where it asked; it is never refused for history. |
| Retention.FloorBackedIff | src/server/loop.c:426-447 | With every expected slot live, the raised floor is sure to have been flushed by each replica if and only if each holds a slot or the floor does not move; with as many replicas as slots, if and only if the slots are distinct. |
| Retention.FloorFollows | src/server/loop.c:426-447 | After an attachment or a confirmation with every expected replica attached, some replica has confirmed no more than the floor: only the one furthest behind holds retention back. |
| Retention.NothingAfterRestart | src/server/loop.c:2375-2424 | After a restart nothing is let go until replicas have raised the floor again. |
| Retention.ReleaseFrees | src/server/loop.c:109-127 | A connection that goes gives up its replica's slot and nobody else's. |
| Redial.ReachesTwoSlots | src/server/loop.c:871-915 | The events, from a fresh start, by which a replica comes to open a second connection while its first is still served. |
| Redial.TwoSlotsLose | src/server/loop.c:408-447 | Four events later the leader has deleted a record that its other replica never had. |
| LeaderLoop.Leader.HandleReplStart | src/server/loop.c:871-915 | A start is refused for each reason, with the slots left as they were, or takes the first free slot: the cursor where the replica asked, its mark one before that, on its connection. In every system this leader is part of, the slots and floor it leaves are those of the system's own step, which Durability, Retention and Changeover are about. |
| LeaderLoop.StartIsAttach | src/server/loop.c:871-925 | A slot taken so, or left so, is the replicated log's own step of attaching. |
| LeaderLoop.Leader.HandleReplAck | src/server/loop.c:1141-1152 | A confirmation moves that slot's mark and nothing else, and the floor follows, as in the system's own step. |
| LeaderLoop.Leader.ReplicaRelease | src/server/loop.c:109-127 | Its slot is free, its cursor closed, the floor where it was, as in the system's own step; an index out of range changes nothing. |
| LeaderLoop.Leader.ReplStream | src/server/loop.c:935-973 | The next durable records for a replica, as many as its buffer takes, and no more than are flushed; what is sent when the read goes past a finished segment's records, and exactly when it does; exactly when the read is refused and the stream ends. |
| LeaderLoop.Leader.RetainPass | src/server/loop.c:2375-2424 | When retention is tried, what it keeps from, and how a failure holds it back. |
| Durability.RetainedOk | src/server/loop.c:2375-2424 | Retention keeps the oldest segment at or below what must stay, and lets go all it may, or all up to the unlink that fails. |
| Stream.ReplApply | src/server/loop.c:1019-1064 | Every whole, intact, next record of a frame is appended and accounted for, up to the first that is not or that the log has no room for; then the stream ends. |
| Stream.TakenDense | src/server/loop.c:1027-1049 | Whatever bytes a frame holds, the records taken from it are whole, verified and numbered on from the next one due. |
| Stream.TakenLongest | src/server/loop.c:1027-1049 | What is taken of any bytes is the longest run of records numbered on from the next one due, and all of them are taken if and only if nothing is left. |
| Stream.FrameTaken | src/server/loop.c:1027-1049 | A frame of records in order from the next one due is taken whole. |
| Stream.StoredAsSent | src/server/loop.c:1051-1058 | What an encoder made is stored byte for byte as it was sent. |
| Msg.EncodeDecodes | src/proto/msg.h:312-338 | Decoding inverts encoding for every header, whatever follows it. |
| Msg.DecodeEncodes | src/proto/msg.h:312-338 | Any thirty-two bytes are the encoding of what they decode to. |
| Msg.HelloExact | src/proto/msg.h:487-502 | An opening is taken for the session it was sent with exactly when what follows the fixed part is as long as it says. |
| Conn.ParseSplit | src/proto/conn.c:100-213 | Parsing a stream is parsing a first part of it and going on from what is left. |
| Conn.ParseLater | src/proto/conn.c:100-213 | Taking a few actions and going on later comes to the same, but for a CLOSE that found no slot. |
| Conn.ChunksDoNotMatter | src/proto/conn.c:30-213 | For any cut of the stream into receives and any slots per feed, the frames and errors emitted are those of the whole stream parsed at once. |
| Conn.WireParses | src/proto/conn.c:100-213 | Encoded legal frame lists parse back to themselves with nothing left over. |
| Conn.LookIs | src/proto/conn.c:119-185 | A look at a header: each of the five errors exactly when its rule is the first one broken, under the sequence the header carries; a frame only when none is. |
| Conn.OnlyLegal | src/proto/conn.c:100-213 | For every stream, the frames taken are legal and are exactly the bytes they took up; what is left breaks no rule and is no whole frame, or the error answered is that of the first rule its header breaks. |
| Conn.OpensOnce | src/proto/conn.c:172-183 | On a client's connection the first frame opens it, and no later one does. |
| Conn.EmittedLegal | src/proto/conn.c:100-213 | Whatever arrives, however it is cut and however few slots a feed has, what has been emitted is a legal list of frames and then at most an error and a CLOSE. |
| Conn.CloseLost | src/proto/conn.c:79-98 | CLOSE is lost if and only if the frames before a violation leave one slot of the last feed. |
| Conn.SevenThenBad | src/server/loop.c:1236-1261 | An opening frame, six writes and a bad header with the eight slots the loop gives: the error goes out and nobody is told to close. |
| Conn.BadMagicLost | src/proto/conn.c:79-132 | For any legal frames before a bad magic, and any number of slots: what is parsed, and exactly when CLOSE is lost. |
| Conn.Connection.Compact | src/proto/conn.c:16-28 | Compacting keeps the unparsed bytes. |
| Conn.Connection.ReceiveAppend | src/proto/conn.c:30-47 | As many bytes as there is room for go behind what is unparsed; a closed connection takes none. |
| Conn.Connection.ReceiveCommit | src/proto/conn.c:59-72 | Bytes put straight into the free room are accounted for, and no more than fit. |
| Conn.Connection.Inspect | src/proto/conn.c:119-185 | The checks, in the order that decides which error is answered; Conn.LookIs says what each outcome means. |
| Conn.Connection.Feed | src/proto/conn.c:100-213 | The in-place loop refines the stream parser, which takes legal frames and only those (Conn.OnlyLegal); payload positions hold the payloads and no byte moves. |
| Conn.Connection.Drain | src/server/loop.c:1236-1261 | Feeding until nothing comes gives the drained stream, and an open connection then always has room for more. |

## Left out

- Injected I/O failures other than a failed unlink: a write, flush or directory sync that fails ends the node's run.
- Wal.Wal.Open: an opened log with a file that is not as long as its capacity is given as its records and answers, without the class invariant that the later methods ask for; what becomes of a short last file is said of the log as a value. Directory entries are given as their name areas, not as raw directory bytes.
- Cursor.Cursor.Read: once a read has gone astray over left-over bytes that pass for the next record, what comes of it is said by the walk over those bytes, and the cursor's place is no longer one in the log.
- Passes.ReadExact: asks that retention does not overtake the read and that its output is sent between passes, and counts only passes that no earlier connection's read held back.
- Passes.WaitedRead: asks the same from its release on.
- Retention.HistoryHeld: assumes live slots belong to different replicas at every moment of the run; Redial.TwoSlotsLose shows why.
- Following.StoredOnce: assumes a drawn id is not already in the node's log, and that every step suits, which the program does not look at; Diverged.StoredTwice, Recalled.StoredAgain and Misread.StoredFromBehind show why.
- Mirror.PromisesKept: is about runs whose frames are the leader's own records, which the program does not look at; FalseCopy.NoSecondCopy shows why. By number alone Durability.PromisesCounted promises it of every run.
- Misread.StoredFromBehind: a cluster's node may take a record from behind any finished segment of its source that stands in the place due, in whatever segment the stream itself is.
- Leftover.NothingComesBack: takes an unflushed byte to be on disk as written or as it was before, and no half-written record to pass its own checks.
- Short.ShortCrash: a crash leaves of a short file a front part, of any length past what was flushed; for other contents Short.RefusedIff says what opening answers.
- Following.ToldIsFlushed: says which client sequences are named, not that an answer always reaches the client; answers are dropped when a send buffer is full.
- Handlers.Node.HandleHello: an answer is counted as staged whatever room there is for it.
- Replication: one leader throughout; Changeover has the runs in which it is replaced. What survives a crash beyond the flushed part is a prefix of what had been appended and, behind it, any left-over records numbered on from there, on a replica ones it had been sent; which bytes those are is the subject of Recovery and Leftover. What a rollover leaves behind is any list of records numbered on, and one that fails its checksum counts as the end of the stream; Stray has the bytes. A leader restarts, and a stream that has gone past a segment goes on, in places where the program may refuse to. Terms, and records carrying a forged checksum, are not modelled; replicas report their own flushed sequence honestly.
- Fairness among subscribers: one read's end lowers the limit of the connections after it in the same pass, which Subscriber.Subscriber.Push states; how often a connection is held back so is not bounded.
- Wrap-around of 64-bit sequences and of the 32-bit tick; random ids are an arbitrary sequence of draws.
- Accepting, polling, timers, signals, descriptors and the order of events within a pass, which are arbitrary here.
- Payload layouts other than the header and the error body, the metrics endpoint, argument parsing, text formatting, the arena and the error stack: easy claims.
- NULL payload pointers for empty payloads: a payload is a value, and an empty one is empty.
