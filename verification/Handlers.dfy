/**
 The two handlers that touch the session table, as the loop runs them on a
 node's own parts: the session table, the log, the replica slots and the
 acknowledgement slots. Each is proved to be the cluster's step of the same name.
 */
module Handlers {
  import opened Bytes
  import opened Record
  import opened Wrappers
  import opened Sessions
  import opened SessionLog
  import opened Requests
  import opened Dedup
  import opened Store
  import opened Cursor
  import Acks
  import Delivery
  import Following
  import Leftover
  import Msg
  import Recovery
  import Replication
  import Segment
  import Stray
  import Stream
  import Wal

  /** What the records of a log say of sessions, in order. */
  function Sents(imgs: seq<seq<byte>>): (s: seq<Sent>)
    ensures |s| == |imgs|
  {
    seq(|imgs|, i requires 0 <= i < |imgs| => Stream.SentOf(imgs[i]))
  }

  /** A connection but for its acknowledgement slots; `staged` is what its unsent replies name. */
  datatype Link = Link(greeted: bool, session: nat, staged: seq<nat>, wantOut: bool, closing: bool)

  /** A slot that owes nothing holds nothing. */
  predicate Quiet(a: Acks.Slot) {
    !a.due ==> a == Acks.CLEAR
  }

  predicate QuietAll(c: seq<Acks.Client>) {
    forall i :: 0 <= i < |c| ==> Quiet(c[i].local) && Quiet(c[i].repl)
  }

  function Waits(a: Acks.Slot): Option<nat> {
    if a.due then Some(a.clientSeq) else None
  }

  function ConnOf(l: Link, c: Acks.Client): Conn {
    Conn(l.greeted, l.session, Waits(c.local), Waits(c.repl), l.staged, l.wantOut)
  }

  function ConnsOf(l: seq<Link>, c: seq<Acks.Client>): (s: seq<Conn>)
    requires |l| == |c|
    ensures |s| == |l|
  {
    seq(|l|, i requires 0 <= i < |l| => ConnOf(l[i], c[i]))
  }

  /** Staging in a slot is staging its client sequence. */
  lemma OweIsOwed(l: Link, c: Acks.Client, live: bool, tick: nat, ask: Acks.Ask, clientSeq: nat, walSeq: nat)
    requires Quiet(c.local) && Quiet(c.repl)
    ensures var d := Acks.Owe(c, live, tick, ask, clientSeq, walSeq);
      && Quiet(d.local) && Quiet(d.repl)
      && ConnOf(l, d) == Owed(ConnOf(l, c), ask.flags.replicated && live, clientSeq)
  {}

  lemma OneOwed(l: seq<Link>, c: seq<Acks.Client>, i: nat, live: bool, tick: nat, ask: Acks.Ask, clientSeq: nat,
                walSeq: nat)
    requires |l| == |c| && i < |l| && QuietAll(c)
    ensures var d := c[i := Acks.Owe(c[i], live, tick, ask, clientSeq, walSeq)];
      && QuietAll(d)
      && ConnsOf(l, d) == ConnsOf(l, c)[i := Owed(ConnsOf(l, c)[i], ask.flags.replicated && live, clientSeq)]
  {
    hide Acks.Owe, Owed, Quiet, ConnOf;
    assert ConnsOf(l, c)[i] == ConnOf(l[i], c[i]);
    OweIsOwed(l[i], c[i], live, tick, ask, clientSeq, walSeq);
  }

  // ---- what a pass answers ----

  /** The client sequences these answers acknowledge. */
  function AckSeqs(out: seq<Acks.Reply>): seq<nat> {
    if out == [] then []
    else (if out[0].Ack? then [out[0].clientSeq] else []) + AckSeqs(out[1..])
  }

  lemma {:induction false} AckSeqsJoin(a: seq<Acks.Reply>, b: seq<Acks.Reply>)
    ensures AckSeqs(a + b) == AckSeqs(a) + AckSeqs(b)
  {
    hide AckSeqs;
    if a == [] {
      assert a + b == b && [] + AckSeqs(b) == AckSeqs(b);
      AckSeqsShort(a);
    } else {
      AckSeqsJoin(a[1..], b);
      AckSeqsFirst(a);
      AckSeqsFirst(a + b);
      assert (a + b)[1..] == a[1..] + b && (a + b)[0] == a[0];
    }
  }

  lemma AckSeqsFirst(out: seq<Acks.Reply>)
    requires out != []
    ensures AckSeqs(out) == (if out[0].Ack? then [out[0].clientSeq] else []) + AckSeqs(out[1..])
  {}

  lemma AckSeqsShort(out: seq<Acks.Reply>)
    requires |out| <= 1
    ensures AckSeqs(out) == if out != [] && out[0].Ack? then [out[0].clientSeq] else []
  {}

  /** How a pass answers what waits for a replica. */
  function AnswerOf(a: Option<Acks.Reply>): Answer {
    match a
    case None => Wait
    case Some(Ack(_, _, _)) => Confirmed
    case Some(NoReplicas(_)) => Refused
  }

  /** What the acknowledgement slots answer in a pass is the cluster's step of answering. */
  lemma EmitView(l: Link, c: Acks.Client, best: nat, live: bool, durable: nat, tick: nat)
    requires Quiet(c.local) && Quiet(c.repl)
    ensures var (d, out) := Acks.Emitted(c, best, live, durable, tick);
      && Quiet(d.local) && Quiet(d.repl)
      && ConnOf(l.(staged := l.staged + AckSeqs(out)), d)
         == Emitted(ConnOf(l, c), AnswerOf(Acks.EmitRepl(c, best, live, durable, tick)))
  {
    hide Acks.EmitRepl, AckSeqs;
    EmitReplIs(c, best, live, durable, tick);
    var a := Acks.EmitRepl(c, best, live, durable, tick);
    var here := if c.local.due then [c.local.clientSeq] else [];
    var copied := if a.Some? && a.value.Ack? then [c.repl.clientSeq] else [];
    AckSeqsJoin(Acks.EmitLocal(c), if a.Some? then [a.value] else []);
    AckSeqsShort(Acks.EmitLocal(c));
    AckSeqsShort(if a.Some? then [a.value] else []);
    assert l.staged + (here + copied) == l.staged + here + copied;
  }

  lemma EmitReplIs(c: Acks.Client, best: nat, live: bool, durable: nat, tick: nat)
    ensures var a := Acks.EmitRepl(c, best, live, durable, tick);
      a.Some? ==> c.repl.due && a.value.clientSeq == c.repl.clientSeq
  {}

  // ---- what an append does to the view of the log ----

  /** A record carries what the writer's session and sequence were. */
  lemma SentEncoded(r: Rec, payload: seq<byte>)
    requires |payload| == r.len <= MAX_PAYLOAD
    ensures Stream.SentOf(Encode(r, payload)) == Sent(r.session, r.clientSeq)
  {
    EncodeDecodes(r, payload);
    hide Encode, Decode, Verify;
  }

  /** v's segments begin where w's did, and it is flushed to where a rollover would have flushed it. */
  ghost predicate Marks(w: Log, v: Log) {
    && w.segs != [] && |w.segs| <= |v.segs| && v.gone == w.gone < |w.segs|
    && Origin(v) == Origin(w) && FirstSeq(v) == FirstSeq(w)
    && v.durable == if |v.segs| > |w.segs| then Next(w) - 1 else w.durable
  }

  lemma RollMarks(w: Log, size: nat)
    requires w.segs != [] && w.gone < |w.segs|
    ensures Marks(w, w) && Marks(w, RollIfFull(w, size))
    ensures w.writeOff <= |Last(w).file| ==> RollIfFull(w, size).writeOff <= |Last(RollIfFull(w, size)).file|
  {}

  lemma WriteMarks(w: Log, v: Log, img: seq<byte>)
    requires Marks(w, v) && v.writeOff <= |Last(v).file|
    ensures Marks(w, Store.Write(v, img))
  {
    hide WriteAt;
    assert forall i :: 0 <= i < |v.segs| ==> Store.Write(v, img).segs[i].base == v.segs[i].base;
  }

  lemma AppendMarks(w: Log, r: Rec, payload: seq<byte>, scratch: nat)
    requires w.segs != [] && w.writeOff <= |Last(w).file| && Next(w) < U64_LIMIT && w.gone < |w.segs|
    requires SizeOf(r) != 0 ==> |payload| == r.len
    ensures Marks(w, Append(w, r, payload, scratch).0)
  {
    hide Encode, Store.Write, SizeOf, Marks, RollIfFull;
    var size := SizeOf(r);
    RollMarks(w, size);
    SizeInRange(r);
    if Append(w, r, payload, scratch).1.Ok? {
      WriteMarks(w, RollIfFull(w, size), Encode(r.(seqno := Next(w)), payload));
    }
  }

  /** The log as the cluster sees it: records, where the held ones begin, how many are flushed. */
  ghost function LogView(w: Log): (seq<Sent>, nat, nat)
    requires Placed(w)
  {
    Delivery.Bounds(w);
    (Sents(Flat(w.segs)), FirstSeq(w) - Origin(w), w.durable + 1 - Origin(w))
  }

  lemma AppendView(w: Log, r: Rec, payload: seq<byte>, scratch: nat, v: Log, res: Result<nat>)
    requires Placed(w) && Appends(w, r, payload, scratch, v, res)
    ensures Placed(v)
    ensures var (log, first, durable) := LogView(w);
      LogView(v) == (if res.Ok? then log + [Sent(r.session, r.clientSeq)] else log,
                     first, if |v.segs| > |w.segs| then |log| else durable)
    ensures res.Ok? ==> res.value == Next(w) && SizeOf(r) != 0
  {
    hide Chain, Encode, Append, Flat, SizeOf, Concat;
    AppendKeeps(w, r, payload, scratch);
    Delivery.Bounds(w);
    Delivery.Bounds(v);
    AppendMarks(w, r, payload, scratch);
    if res.Ok? {
      SizeInRange(r);
      SentEncoded(r.(seqno := Next(w)), payload);
      assert Sents(Flat(v.segs)) == Sents(Flat(w.segs)) + [Sent(r.session, r.clientSeq)];
    }
  }

  /** What stands behind the finished segments, each record with the number of records before its place. */
  ghost function LeftView(segs: seq<Seg>): set<(nat, Sent)>
    decreases |segs|
  {
    if |segs| <= 1 then {}
    else
      var n := |segs| - 1;
      LeftView(segs[..n]) + LeftBehind(|Flat(segs[..n])|, Sents(Stray.Leaves(segs[n - 1])))
  }

  /** What a rollover leaves, if there was one. */
  ghost function RolledOver(w: Log, v: Log): Option<seq<Sent>> {
    if w.segs != [] && |v.segs| > |w.segs| then Some(Sents(Stray.Leaves(Last(w)))) else None
  }

  lemma NotRolled(w: Log)
    ensures RolledOver(w, w) == None
  {}

  lemma LeftSame(segs: seq<Seg>, s: Seg)
    requires segs != []
    ensures LeftView(segs[..|segs| - 1] + [s]) == LeftView(segs)
  {
    hide Stray.Leaves;
    var n := |segs| - 1;
    var t := segs[..n] + [s];
    assert t[..n] == segs[..n];
    if n > 0 { assert t[n - 1] == segs[n - 1]; }
  }

  lemma LeftPush(segs: seq<Seg>, s: Seg)
    requires segs != []
    ensures LeftView(segs + [s]) == LeftView(segs) + LeftBehind(|Flat(segs)|, Sents(Stray.Leaves(segs[|segs| - 1])))
  {
    hide Stray.Leaves;
    assert (segs + [s])[..|segs|] == segs;
  }

  lemma RollLeft(w: Log, v: Log)
    requires w.segs != [] && (v == w || v == Roll(w))
    ensures v.segs != []
    ensures LeftView(v.segs) == match RolledOver(w, v)
                                case None => LeftView(w.segs)
                                case Some(leaves) => LeftView(w.segs) + LeftBehind(|Flat(w.segs)|, leaves)
  {
    hide Stray.Leaves, LeftView;
    LeftPush(w.segs, Seg(Next(w), [], Zeros(w.cap)));
  }

  lemma WriteLeft(v: Log, img: seq<byte>)
    requires v.segs != [] && v.writeOff <= |Last(v).file|
    ensures LeftView(Store.Write(v, img).segs) == LeftView(v.segs) && |Store.Write(v, img).segs| == |v.segs|
  {
    hide WriteAt, LeftView;
    LeftSame(v.segs, Last(Store.Write(v, img)));
  }

  /** An append adds to what is left behind exactly what its rollover leaves. */
  lemma AppendLeft(w: Log, r: Rec, payload: seq<byte>, scratch: nat, v: Log, res: Result<nat>)
    requires Appends(w, r, payload, scratch, v, res)
    ensures LeftView(v.segs) == match RolledOver(w, v)
                                case None => LeftView(w.segs)
                                case Some(leaves) => LeftView(w.segs) + LeftBehind(|Flat(w.segs)|, leaves)
  {
    hide Encode, LeftView, Store.Write, LeftBehind, Flat, Stray.Leaves, Sents;
    var size := SizeOf(r);
    var u := RollIfFull(w, size);
    RollLeft(w, w);
    RollLeft(w, u);
    RollRoom(w, size);
    SizeInRange(r);
    if res.Ok? { WriteLeft(u, Encode(r.(seqno := Next(w)), payload)); }
  }

  lemma RollRoom(w: Log, size: nat)
    requires w.segs != [] && w.writeOff <= |Last(w).file|
    ensures var u := RollIfFull(w, size); u.segs != [] && u.writeOff <= |Last(u).file| && (u == w || u == Roll(w))
  {}

  lemma {:induction false} LeftHas(segs: seq<Seg>, j: nat, i: nat)
    requires j + 1 < |segs| && i < |Stray.Leaves(segs[j])|
    ensures (|Flat(segs[..j + 1])| + i, Sents(Stray.Leaves(segs[j]))[i]) in LeftView(segs)
    decreases |segs|
  {
    hide Stray.Leaves, Flat;
    var n := |segs| - 1;
    if j == n - 1 {
      var leaves := Sents(Stray.Leaves(segs[j]));
      assert (|Flat(segs[..n])| + i, leaves[i]) in LeftBehind(|Flat(segs[..n])|, leaves);
    } else {
      LeftHas(segs[..n], j, i);
      assert segs[..n][..j + 1] == segs[..j + 1];
    }
  }

  /** While finished segments end in unwritten space nothing stands behind any. */
  lemma {:induction false} NothingLeft(segs: seq<Seg>, cap: nat)
    requires Chain(segs, cap) && AllEndClean(segs, cap)
    ensures LeftView(segs) == {}
    decreases |segs|
  {
    hide SegOk, EndsClean, Stray.Leaves, Flat;
    if |segs| > 1 {
      var n := |segs| - 1;
      Leftover.ChainInit(segs, cap);
      NothingLeft(segs[..n], cap);
      Stray.CleanLeaves(segs[n - 1], cap);
      assert LeftBehind(|Flat(segs[..n])|, []) == {};
    }
  }

  lemma PlaceOf(w: Log, j: nat, k: nat)
    requires Placed(w) && j < |w.segs| && k < |w.segs[j].images|
    ensures var at := |Flat(w.segs[..j])| + k;
      && w.segs[j].base + k - Origin(w) == at < |LogView(w).0|
      && LogView(w).0[at] == Stream.SentOf(w.segs[j].images[k])
  {
    hide Chain, Concat, Flat, Stream.SentOf, IsRecordAt;
    FlatRecord(w.segs, w.cap, j, k);
  }

  lemma EndOfSeg(w: Log, j: nat)
    requires Placed(w) && j < |w.segs|
    ensures w.segs[j].base + |w.segs[j].images| - Origin(w) == |Flat(w.segs[..j + 1])|
    ensures w.segs[j].base - Origin(w) == |Flat(w.segs[..j])|
  {
    hide Chain, Concat, Flat;
    BaseCounts(w.segs, w.cap, j);
    assert w.segs[..j + 1] == w.segs[..j] + [w.segs[j]];
    FlatConcat(w.segs[..j], [w.segs[j]]);
    FlatOne(w.segs[j]);
  }

  /**
   What a replica takes of a read is the cluster's step of taking: each record
   is the one the log has in that place, or one that stands there behind a
   finished segment.
   */
  lemma TakeView(w: Log, j: nat, k: nat, limit: nat, room: nat, i: nat)
    requires Placed(w) && Stray.Reads(w, j, k, limit)
    requires i < |Stream.Taken(Concat(Stray.TakenAt(w, j, k, limit, room)), w.segs[j].base + k).0|
    ensures var got := Stream.Taken(Concat(Stray.TakenAt(w, j, k, limit, room)), w.segs[j].base + k).0;
      var at := w.segs[j].base + k - Origin(w) + i;
      && 0 <= at
      && ((at < |LogView(w).0| && Sents(got)[i] == LogView(w).0[at]) || (at, Sents(got)[i]) in LeftView(w.segs))
  {
    hide Placed, Concat, Flat, Stream.Taken, Stray.Leaves, Stray.TakenAt, Stray.Within, LogView, LeftView,
      Stream.SentOf;
    var s, got := w.segs[j], Stream.Taken(Concat(Stray.TakenAt(w, j, k, limit, room)), w.segs[j].base + k).0;
    Stray.ReplicaTakes(w, j, k, limit, room);
    EndOfSeg(w, j);
    var own := |s.images| - k;
    if i < own {
      PlaceOf(w, j, k + i);
      assert got[i] == s.images[k..][i];
    } else {
      LastWithin(w, j, k, limit, room);
      assert got[i] == got[own..][i - own] == Stray.Leaves(s)[i - own];
      LeftHas(w.segs, j, i - own);
    }
  }

  /** A read of the active segment keeps to its records, under any limit the log has reached. */
  lemma LastWithin(w: Log, j: nat, k: nat, limit: nat, room: nat)
    requires Placed(w) && Stray.Reads(w, j, k, limit)
    ensures j == |w.segs| - 1 ==> Stray.Within(w, j, k, limit, room)
  {
    hide Placed, Concat, Stray.Within, Stray.Strays;
    Stray.WithinIs(w, j, k, limit, room);
    Stray.StaleStrays(w.segs[j], k, limit, room);
  }

  lemma SentsJoin(a: seq<seq<byte>>, b: seq<seq<byte>>)
    ensures Sents(a + b) == Sents(a) + Sents(b)
  {}

  /**
   A crash is the cluster's restart: seen by session and client sequence, what
   the directory opens into is the log up to where the disk still holds it as
   it was written, and then whatever the scan finds behind that, from the first
   segment listed on.
   */
  lemma RestartView(w: Log, from: nat, dir: seq<Recovery.File>, scratch: nat, k: nat)
    requires Good(w) && Recovery.CrashLeaves(w, from, dir) && scratch >= MAX_SIZE && k <= |Last(w).images|
    requires var off := |Concat(Last(w).images[..k])|;
      off <= |dir[|dir| - 1].bytes| && off <= |Last(w).file| && dir[|dir| - 1].bytes[..off] == Last(w).file[..off]
    ensures var r, off := Recovery.OpenFrom(dir, w.cap, scratch, w.segs[from].base), |Concat(Last(w).images[..k])|;
      && r.Ok? && off <= Segment.Limit(dir[|dir| - 1].bytes, w.cap)
      && var extra := Segment.ScanFrom(dir[|dir| - 1].bytes, w.cap, scratch, off, Last(w).base + k).images;
         var kept, first := Last(w).base - Origin(w) + k, w.segs[from].base - Origin(w);
         && 0 <= first <= kept <= |LogView(w).0|
         && Sents(Recovery.Flatten(r.value.images)) == (LogView(w).0[..kept] + Sents(extra))[first..]
  {
    hide Chain, AllEndClean, Recovery.OpenFrom, Segment.ScanFrom, Concat, Flat, Recovery.Flatten, Recovery.Scrambled,
      Recovery.Files;
    Leftover.CrashIsRestart(w, from, dir, scratch, k);
    RecordsView(w, from, k);
    var off := |Concat(Last(w).images[..k])|;
    var extra := Segment.ScanFrom(dir[|dir| - 1].bytes, w.cap, scratch, off, Last(w).base + k).images;
    SentsJoin(Leftover.UpTo(w, from, k), extra);
    var kept, first := Last(w).base - Origin(w) + k, w.segs[from].base - Origin(w);
    assert (LogView(w).0[..kept] + Sents(extra))[first..] == LogView(w).0[first..kept] + Sents(extra);
  }

  lemma RecordsView(w: Log, from: nat, k: nat)
    requires Placed(w) && from < |w.segs| && k <= |Last(w).images|
    ensures var kept, first := Last(w).base - Origin(w) + k, w.segs[from].base - Origin(w);
      && 0 <= first <= kept <= |LogView(w).0|
      && Sents(Leftover.UpTo(w, from, k)) == LogView(w).0[first..kept]
  {
    hide Chain, Concat, Flat;
    var n := |w.segs| - 1;
    var all, before, mid := Flat(w.segs), Flat(w.segs[..from]), Flat(w.segs[from..n]);
    BaseCounts(w.segs, w.cap, from);
    BaseCounts(w.segs, w.cap, n);
    FlatSetLast(w.segs, Last(w));
    assert w.segs[..n] == w.segs[..from] + w.segs[from..n];
    FlatConcat(w.segs[..from], w.segs[from..n]);
    assert all == before + mid + Last(w).images;
    var kept, first := |before| + |mid| + k, |before|;
    assert all[first..kept] == mid + Last(w).images[..k];
    assert Sents(all)[first..kept] == Sents(all[first..kept]);
  }

  lemma ViewLength(w: Log)
    requires Placed(w)
    ensures |LogView(w).0| == |Flat(w.segs)|
  {
    hide Placed;
  }

  /** A flush is the cluster's: everything appended is flushed, and nothing else moves. */
  lemma FlushView(w: Log)
    requires Placed(w)
    ensures Placed(Sync(w))
    ensures var (log, first, durable) := LogView(w); LogView(Sync(w)) == (log, first, |log|)
    ensures LeftView(Sync(w).segs) == LeftView(w.segs)
  {
    hide Chain, Concat, Flat;
    SyncPlaced(w);
    Delivery.Bounds(w);
    Delivery.Bounds(Sync(w));
  }

  lemma RetainBounds(w: Log, keep: nat, fails: nat)
    requires Placed(w)
    ensures var v := Retain(w, keep, fails);
      && Placed(v) && w.segs != [] && v == w.(gone := v.gone) && w.gone <= v.gone < |w.segs|
      && Origin(v) == Origin(w) <= FirstSeq(w) <= FirstSeq(v) <= w.durable + 1
  {
    hide Chain, Concat, Flat, Retain, End;
    RetainSound(w, keep, fails);
    var v := Retain(w, keep, fails);
    Delivery.Bounds(w);
    Delivery.Bounds(v);
    if w.gone < v.gone {
      BasesAscend(w.segs, w.cap, w.gone, v.gone);
    }
  }

  /** Retention is the cluster's: the first sequence held rises, to no more than what is flushed. */
  lemma RetainView(w: Log, keep: nat, fails: nat)
    requires Placed(w)
    ensures Placed(Retain(w, keep, fails))
    ensures var v, (log, first, durable) := Retain(w, keep, fails), LogView(w);
      && LogView(v) == (log, LogView(v).1, durable) && first <= LogView(v).1 <= durable
      && LeftView(v.segs) == LeftView(w.segs)
  {
    hide Placed, Flat, Retain, Sents, LeftView, End, LogView;
    RetainBounds(w, keep, fails);
    ViewIs(w);
    ViewIs(Retain(w, keep, fails));
  }

  lemma ViewIs(w: Log)
    requires Placed(w)
    ensures w.segs != [] && w.gone < |w.segs|
    ensures FirstSeq(w) >= Origin(w) && w.durable + 1 >= Origin(w)
    ensures LogView(w) == (Sents(Flat(w.segs)), FirstSeq(w) - Origin(w), w.durable + 1 - Origin(w))
  {
    hide Chain, Flat, Concat, Sents;
    Delivery.Bounds(w);
  }

  // ---- what a replica takes ----

  /** The cluster's steps of taking these records, one after the other. */
  function TakenAll(s: Server, rs: seq<Sent>, rolls: seq<Option<seq<Sent>>>): Server
    requires |rs| == |rolls|
  {
    if rs == [] then s
    else Taken(TakenAll(s, rs[..|rs| - 1], rolls[..|rs| - 1]), rs[|rs| - 1], rolls[|rs| - 1])
  }

  /** What a frame's records leave of the log and the table is what taking them one by one does. */
  lemma {:induction false} ApplyView(s: Server, imgs: seq<seq<byte>>, rolls: seq<Option<seq<Sent>>>)
    requires |rolls| == |imgs|
    ensures var u := TakenAll(s, Sents(imgs), rolls);
      && u.log == s.log + Sents(Stream.RestoredAll(imgs)) && u.table == Stream.Seen(s.table, imgs)
      && u.first == s.first && u.conns == s.conns && u.sent == s.sent
  {
    hide Observed, LeftBehind, Stream.SentOf, Stream.Restored;
    if imgs == [] {
      assert s.log + [] == s.log;
    } else {
      var n := |imgs| - 1;
      ApplyView(s, imgs[..n], rolls[..n]);
      assert Sents(imgs)[..n] == Sents(imgs[..n]);
      SentRestored(imgs[n]);
      assert Sents(Stream.RestoredAll(imgs)) == Sents(Stream.RestoredAll(imgs[..n])) + [Stream.SentOf(imgs[n])];
    }
  }

  lemma SentRestored(img: seq<byte>)
    ensures Stream.SentOf(Stream.Restored(img)) == Stream.SentOf(img)
  {
    hide Encode, Decode, Verify;
    if IsRecord(img) {
      RecordFits(img);
      SentEncoded(Decode(img), Payload(img));
    }
  }

  lemma RecordFits(img: seq<byte>)
    requires IsRecord(img)
    ensures Decode(img).len <= MAX_PAYLOAD && |img| >= HEADER
  {
    hide Decode, Verify;
    SizeInRange(Decode(img));
  }

  // ---- the node ----

  datatype Reply = Acked(session: nat, clientSeq: nat) | Error(code: u16) | Silence

  /** A cell of the table, where the list has it. */
  lemma CellIs(t: Table, k: nat)
    requires t.Valid() && k < t.count
    ensures k < t.entries.Length && k < |t.rank| && t.rank[k] < |t.List()|
    ensures t.List()[t.rank[k]] == Sess(t.entries[k].id, t.entries[k].last)
  {
    CellInList(t.Cells(), t.order, t.rank, t.nextSeen, k);
  }

  /** Session ids are sixty-four bits wide. */
  predicate Wide(l: seq<Link>) {
    forall i :: 0 <= i < |l| ==> l[i].session < U64_LIMIT
  }

  lemma OneLink(l: seq<Link>, c: seq<Acks.Client>, i: nat, m: Link)
    requires |l| == |c| && i < |l|
    ensures ConnsOf(l[i := m], c) == ConnsOf(l, c)[i := ConnOf(m, c[i])] && ConnsOf(l, c)[i] == ConnOf(l[i], c[i])
  {
    hide ConnOf;
  }

  lemma DrawnOne(t: seq<Sess>, draws: seq<nat>, n: nat)
    requires n <= |draws| && Drawn(t, draws, n).Some?
    ensures Drawn(t, draws, n).value in draws
  {}

  /** What an opening makes of the node; one that does not parse only counts as received. */
  function Hailed(v: Server, i: nat, payload: seq<byte>, draws: seq<nat>): Server
    requires i < |v.conns| && |draws| == DRAWS
  {
    match Msg.HelloSession(payload)
    case None => v.(conns := v.conns[i := v.conns[i].(greeted := true)])
    case Some(id) => Greeted(v, i, id, draws)
  }

  function HelloReply(t: seq<Sess>, payload: seq<byte>, draws: seq<nat>): Reply
    requires |draws| == DRAWS
  {
    match Msg.HelloSession(payload)
    case None => Error(Msg.ERR_PAYLOAD_TOO_BIG)
    case Some(id) =>
      var d, k := Drawn(t, draws, DRAWS), Find(t, id);
      if id == 0 && d.Some? then Acked(d.value, 0)
      else if id != 0 && k < |t| then Acked(id, t[k].mark)
      else Error(Msg.ERR_SESSION_UNKNOWN)
  }

  /** A session that is gone leaves the connection open; a bad opening, or no session to be had, ends it. */
  predicate HelloCloses(t: seq<Sess>, payload: seq<byte>, draws: seq<nat>)
    requires |draws| == DRAWS
  {
    match Msg.HelloSession(payload)
    case None => true
    case Some(id) => id == 0 && Drawn(t, draws, DRAWS).None?
  }

  /**
   What an opening is told is what the node holds: the answer names a session
   now in the table, the connection is in that session, and the one reply added
   names that session's own mark. An opening that is refused adds no session and
   leaves the connection in the one it had.
   */
  lemma HelloIs(v: Server, i: nat, payload: seq<byte>, draws: seq<nat>)
    requires i < |v.conns| && |draws| == DRAWS
    ensures var u, reply, asked := Hailed(v, i, payload, draws), HelloReply(v.table, payload, draws),
                                   Msg.HelloSession(payload);
      && u == v.(table := u.table, conns := v.conns[i := u.conns[i]]) && u.conns[i].greeted
      && (reply.Acked? ==>
            && asked.Some? && reply.session != 0 && (asked.value != 0 ==> reply.session == asked.value)
            && u.conns[i] == v.conns[i].(greeted := true, session := reply.session,
                                         staged := v.conns[i].staged + [reply.clientSeq])
            && Sess(reply.session, reply.clientSeq) in u.table && MarkIn(u.table, reply.session) == reply.clientSeq
            && (Sess(reply.session, reply.clientSeq) !in v.table ==>
                  asked.value == 0 && reply.clientSeq == 0 && Find(v.table, reply.session) == |v.table|))
      && (!reply.Acked? ==>
            && u.table == v.table && u.conns[i] == v.conns[i].(greeted := true)
            && (reply == Error(Msg.ERR_PAYLOAD_TOO_BIG) || reply == Error(Msg.ERR_SESSION_UNKNOWN))
            && (reply == Error(Msg.ERR_PAYLOAD_TOO_BIG) <==> asked.None?)
            && (asked.Some? && asked.value != 0 ==> Find(v.table, asked.value) == |v.table|)
            && (asked == Some(0) ==> Drawn(v.table, draws, DRAWS).None?))
      && (HelloCloses(v.table, payload, draws) <==> !reply.Acked? && (asked.None? || asked.value == 0))
  {
    hide Msg.HelloSession;
    var asked := Msg.HelloSession(payload);
    if asked == Some(0) && Drawn(v.table, draws, DRAWS).Some? {
      DrawnIs(v.table, draws, DRAWS);
      FindOpened(v.table, Drawn(v.table, draws, DRAWS).value);
    }
  }

  lemma FindOpened(t: seq<Sess>, id: nat)
    requires Find(t, id) == |t|
    ensures Find(Opened(t, id), id) == |Opened(t, id)| - 1 && Sess(id, 0) in Opened(t, id)
  {
    var u := Opened(t, id);
    assert u[|u| - 1] == Sess(id, 0);
  }

  /** Where the table agrees with the log, an opening is told the highest sequence its session has there. */
  lemma HelloTells(v: Server, i: nat, payload: seq<byte>, draws: seq<nat>)
    requires i < |v.conns| && |draws| == DRAWS && Following.Exact(v)
    requires var d := Drawn(v.table, draws, DRAWS);
      Msg.HelloSession(payload) == Some(0) && d.Some? ==> Unused(v.log, d.value)
    ensures var reply := HelloReply(v.table, payload, draws);
      reply.Acked? ==> reply.clientSeq == Highest(v.log, reply.session)
  {
    hide Msg.HelloSession, Drawn, Find;
    var d := Drawn(v.table, draws, DRAWS);
    if d.Some? && Msg.HelloSession(payload) == Some(0) {
      Following.UnusedHighest(v.log, d.value);
    }
  }

  function Owing(c: seq<Acks.Client>, i: nat, live: bool, tick: nat, ask: Acks.Ask, clientSeq: nat, walSeq: nat):
      seq<Acks.Client>
    requires i < |c|
  {
    if ask.flags.ackReq then c[i := Acks.Owe(c[i], live, tick, ask, clientSeq, walSeq)] else c
  }

  /** What is owed for a write is what the replicated log's own step owes for it. */
  lemma OwingIs(l: Replication.Leader, i: nat, ask: Acks.Ask, clientSeq: nat, walSeq: nat)
    requires i < |l.clients|
    ensures Replication.OweIfAsked(l, i, ask, clientSeq, walSeq)
      == l.(clients := Owing(l.clients, i, Acks.Live(l.peers), l.tick, ask, clientSeq, walSeq))
  {
    hide Acks.Owe, Acks.Live;
  }

  /** The sequence a resend waits for is the last one the cluster's log has flushed. */
  lemma DurableView(w: Log)
    requires Placed(w)
    ensures Durable(w) + 1 == Origin(w) + LogView(w).2
  {
    hide Chain, Concat, Flat;
    Delivery.Bounds(w);
    Delivery.OriginPositive(w);
  }

  function Durable(w: Log): nat {
    if w.durable < 0 then 0 else w.durable
  }

  function MarkIn(t: seq<Sess>, session: nat): nat {
    if Find(t, session) < |t| then t[Find(t, session)].mark else 0
  }

  lemma WalPlaced(w: Wal.Wal)
    requires w.Valid()
    ensures Placed(w.log)
  {
    hide Placed;
  }

  lemma WalDurable(w: Wal.Wal)
    requires w.Valid()
    ensures 0 <= w.log.durable == w.active.durableSeq
  {
    hide Placed;
  }

  /** A copy asked for, and none to be had. */
  predicate Refuses(q: Request, live: bool) {
    q.Ask().flags.replicated && !live && !q.Ask().degradable
  }

  /** A write is not turned away for want of a replica if and only if the replicated log would take it. */
  lemma RefusesIff(q: Request, s: Replication.System, i: nat, body: seq<byte>)
    requires s.leader.phase.Draining? && i < |s.leader.clients|
    ensures !Refuses(q, Acks.Live(s.leader.peers)) <==>
      Replication.Enabled(s, Replication.LAppend(i, q.Ask(), q.sequence, body, None))
    ensures !Refuses(q, Acks.Live(s.leader.peers)) <==>
      Replication.Enabled(s, Replication.LResend(i, q.Ask(), q.sequence))
  {
    hide Acks.Live;
  }

  /** What is said at once: only refusals are. */
  function WriteReply(v: Server, session: nat, refused: bool, res: Option<Result<nat>>): Reply {
    if session == 0 || Find(v.table, session) == |v.table| then Error(Msg.ERR_NO_SESSION)
    else if v.follower then Error(Msg.ERR_NOT_LEADER)
    else if refused then Error(Msg.ERR_NO_REPLICAS)
    else if res == Some(Err(Invalid)) then Error(Msg.ERR_PAYLOAD_TOO_BIG)
    else if res.Some? && res.value.Err? then Error(Msg.ERR_STORAGE)
    else Silence
  }

  predicate Held(t: seq<Sess>, id: nat) {
    exists k :: 0 <= k < |t| && t[k].id == id
  }

  /** Each refusal of a write says what kept it from being taken, and silence that nothing did. */
  lemma WriteReplyIs(v: Server, session: nat, refused: bool, res: Option<Result<nat>>)
    ensures var reply, mine := WriteReply(v, session, refused, res), session != 0 && Held(v.table, session);
      && (reply == Error(Msg.ERR_NO_SESSION) <==> !mine)
      && (reply == Error(Msg.ERR_NOT_LEADER) <==> mine && v.follower)
      && (reply == Error(Msg.ERR_NO_REPLICAS) <==> mine && !v.follower && refused)
      && (reply == Error(Msg.ERR_PAYLOAD_TOO_BIG) <==>
            mine && !v.follower && !refused && res == Some(Err(Invalid)))
      && (reply == Error(Msg.ERR_STORAGE) <==>
            mine && !v.follower && !refused && res.Some? && res.value.Err? && res.value.error != Invalid)
      && (reply == Silence <==>
            mine && !v.follower && !refused && (res.None? || res.value.Ok?))
  {
    var k := Find(v.table, session);
    if k < |v.table| {
      assert v.table[k].id == session;
    }
  }

  /** Whether a write gets as far as the log. */
  predicate Appending(v: Server, session: nat, clientSeq: nat, refused: bool) {
    && session != 0 && Find(v.table, session) < |v.table| && !v.follower && !refused
    && clientSeq > v.table[Find(v.table, session)].mark
  }

  /** A write that is refused at once changes nothing. */
  lemma RefusedIs(v: Server, i: nat, clientSeq: nat, ackReq: bool, replicated: bool, refused: bool, fails: bool,
                  rolls: Option<seq<Sent>>)
    requires i < |v.conns| && WriteReply(v, v.conns[i].session, refused, None) != Silence
    ensures Written(v, i, clientSeq, ackReq, replicated, refused, fails, rolls) == v
    ensures !Appending(v, v.conns[i].session, clientSeq, refused)
  {
    hide Find;
  }

  /** A resend is answered with the session's mark. */
  lemma ResentIs(v: Server, i: nat, clientSeq: nat, ackReq: bool, replicated: bool, refused: bool, fails: bool,
                 rolls: Option<seq<Sent>>)
    requires i < |v.conns| && WriteReply(v, v.conns[i].session, refused, None) == Silence
    requires clientSeq <= MarkIn(v.table, v.conns[i].session)
    ensures Written(v, i, clientSeq, ackReq, replicated, refused, fails, rolls)
         == v.(conns := if ackReq then
                 v.conns[i := Owed(v.conns[i], replicated, MarkIn(v.table, v.conns[i].session))]
               else v.conns)
    ensures !Appending(v, v.conns[i].session, clientSeq, refused)
  {
    hide Find, Owed;
  }

  /** Any other write goes to the log. */
  lemma AppendedIs(v: Server, i: nat, clientSeq: nat, ackReq: bool, replicated: bool, refused: bool, fails: bool,
                   rolls: Option<seq<Sent>>)
    requires i < |v.conns| && WriteReply(v, v.conns[i].session, refused, None) == Silence
    requires clientSeq > MarkIn(v.table, v.conns[i].session)
    ensures Appending(v, v.conns[i].session, clientSeq, refused)
    ensures var c, t := v.conns[i], Rolled(v, rolls);
      Written(v, i, clientSeq, ackReq, replicated, refused, fails, rolls)
      == if fails then t
         else t.(log := v.log + [Sent(c.session, clientSeq)], dirty := true,
                 table := Raised(v.table, Find(v.table, c.session), clientSeq),
                 conns := if ackReq then v.conns[i := Owed(c, replicated, clientSeq)] else v.conns)
  {
    hide Find, Owed, Raised, LeftBehind;
  }

  lemma NoMark(v: Server, session: nat, last: nat)
    requires Find(v.table, session) < |v.table| && last == v.table[Find(v.table, session)].mark
    ensures MarkIn(v.table, session) == last
  {
    hide Find;
  }

  /** What is said of an append. */
  lemma ReplyIs(v: Server, session: nat, refused: bool, got: Result<nat>)
    requires WriteReply(v, session, refused, None) == Silence
    ensures WriteReply(v, session, refused, Some(got))
         == if got.Ok? then Silence
            else if got.error == Invalid then Error(Msg.ERR_PAYLOAD_TOO_BIG) else Error(Msg.ERR_STORAGE)
  {
    hide Find;
  }

  lemma RolledKeeps(v: Server, rolls: Option<seq<Sent>>)
    ensures var t := Rolled(v, rolls);
      t.log == v.log && t.conns == v.conns && t.table == v.table && t.follower == v.follower
  {
    hide LeftBehind;
  }

  class Node {
    const sessions: Table
    const wal: Wal.Wal
    const replicas: Acks.Replicas
    const acks: Acks.Conns
    var links: seq<Link>
    var follower: bool
    var source: Option<nat>
    var dirty: bool
    var phase: Phase
    var tick: nat
    ghost var sent: seq<Told>

    constructor (sessions: Table, wal: Wal.Wal, replicas: Acks.Replicas, acks: Acks.Conns, follower: bool)
      ensures this.sessions == sessions && this.wal == wal && this.replicas == replicas && this.acks == acks
      ensures |links| == acks.clients.Length
      ensures forall i :: 0 <= i < |links| ==> links[i] == Link(false, 0, [], false, false)
    {
      this.sessions, this.wal, this.replicas, this.acks, this.follower := sessions, wal, replicas, acks, follower;
      links := seq(acks.clients.Length, _ => Link(false, 0, [], false, false));
      source, dirty, phase, tick, sent := None, false, Served, 0, [];
    }

    ghost function Slots(): set<object> {
      {replicas, replicas.live, replicas.durable, replicas.cursor, replicas.conn}
    }

    ghost function Parts(): set<object> {
      {this, sessions, sessions.entries, acks.clients} + Slots()
    }

    ghost predicate Valid()
      reads this, sessions, sessions.entries, wal, wal.Repr(), acks.clients
    {
      && sessions.Valid() && wal.Valid() && replicas.Valid()
      && |links| == acks.clients.Length && QuietAll(acks.clients[..]) && Wide(links)
      && this !in wal.Repr() && sessions !in wal.Repr() && sessions.entries !in wal.Repr()
      && acks.clients !in wal.Repr() && replicas.live !in wal.Repr() && replicas.durable !in wal.Repr()
      && replicas.cursor !in wal.Repr() && replicas.conn !in wal.Repr()
    }

    ghost function View(): Server
      requires Valid()
      reads this, sessions, sessions.entries, wal, wal.Repr(), acks.clients
    {
      var (log, first, durable) := LogView(wal.log);
      Server(log, first, durable, sessions.List(), ConnsOf(links, acks.clients[..]), follower, source, dirty, phase,
             sent, LeftView(wal.log.segs))
    }

    /** Change connection i. */
    method SetLink(i: nat, l: Link)
      requires Valid() && i < |links| && l.session < U64_LIMIT
      modifies `links
      ensures Valid() && links == old(links)[i := l]
      ensures View() == old(View()).(conns := old(View().conns)[i := ConnOf(l, acks.clients[i])])
      ensures old(View().conns)[i] == ConnOf(old(links[i]), acks.clients[i])
    {
      hide Table.Ordered, Named, Table.List, LogView, Wal.Wal.Valid, QuietAll, ConnsOf, ConnOf;
      OneLink(links, acks.clients[..], i, l);
      links := links[i := l];
    }

    /** HELLO: the opening's payload is checked, then a session is opened or resumed. */
    method HandleHello(i: nat, payload: seq<byte>, draws: seq<nat>) returns (reply: Reply)
      requires Valid() && i < |links| && |draws| == DRAWS && forall k :: 0 <= k < DRAWS ==> draws[k] < U64_LIMIT
      modifies this, sessions, sessions.entries
      ensures Valid() && |links| == old(|links|)
      ensures View() == Hailed(old(View()), i, payload, draws)
      ensures reply == HelloReply(old(sessions.List()), payload, draws)
      ensures links[i].closing == (old(links[i].closing) || HelloCloses(old(sessions.List()), payload, draws))
    {
      hide Drawn, Find, Opened, Table.Ordered, Named, Table.List, Msg.HelloSession, LogView, Wal.Wal.Valid, QuietAll,
        ConnsOf;
      var l := links[i].(greeted := true);
      var asked := Msg.HelloSession(payload);
      if asked.None? {
        SetLink(i, l.(closing := true));
        return Error(Msg.ERR_PAYLOAD_TOO_BIG);
      }
      reply := Error(Msg.ERR_SESSION_UNKNOWN);
      if asked.value == 0 {
        var s := sessions.Create(draws);
        if s.Some? {
          DrawnOne(old(sessions.List()), draws, DRAWS);
          l := l.(session := s.value, staged := l.staged + [0]);
          reply := Acked(s.value, 0);
        } else {
          l := l.(closing := true);
        }
      } else {
        var held, k := sessions.Lookup(asked.value);
        if held {
          CellIs(sessions, k);
          l := l.(session := asked.value, staged := l.staged + [sessions.entries[k].last]);
          reply := Acked(asked.value, sessions.entries[k].last);
        }
      }
      SetLink(i, l);
    }

    /** Put connection i's acknowledgement, if it asked for one, where it can be answered. */
    method Owe(i: nat, ask: Acks.Ask, clientSeq: nat, walSeq: nat)
      requires Valid() && i < |links|
      modifies acks.clients
      ensures Valid() && replicas.Peers() == old(replicas.Peers())
      ensures
        var live := Acks.Live(replicas.Peers());
        && acks.clients[..] == Owing(old(acks.clients[..]), i, live, tick, ask, clientSeq, walSeq)
        && View() == old(View()).(conns := if ask.flags.ackReq then
             old(View().conns)[i := Owed(old(View().conns)[i], ask.flags.replicated && live, clientSeq)]
           else old(View().conns))
    {
      hide Table.Ordered, Named, Table.List, Owed, LogView, Wal.Wal.Valid, QuietAll, ConnsOf, Acks.Owe, Acks.Live;
      ghost var live := Acks.Live(replicas.Peers());
      if ask.flags.ackReq {
        OneOwed(links, acks.clients[..], i, live, tick, ask, clientSeq, walSeq);
        acks.AckWrite(i, replicas, tick, ask, clientSeq, walSeq);
      }
    }

    /** Append the record of a write; the log is all that moves. */
    method Record(i: nat, q: Request, scratch: array<byte>) returns (got: Result<nat>)
      requires Valid() && i < |links| && |q.payload| <= Msg.MAX_PAYLOAD
      requires scratch !in wal.Repr() && scratch !in Parts()
      requires wal.log.segs != [] && Next(wal.log) < U64_LIMIT
      modifies wal.Repr(), scratch
      ensures Valid() && Takes(old(wal.log), links[i].session, q, scratch.Length, wal.log, got)
      ensures replicas.Peers() == old(replicas.Peers()) && unchanged(acks.clients)
      ensures unchanged(sessions) && unchanged(sessions.entries)
      ensures
        var v := Rolled(old(View()), RolledOver(old(wal.log), wal.log));
        View() == v.(log := if got.Ok? then v.log + [Sent(links[i].session, q.sequence)] else v.log)
    {
      hide Table.Ordered, Named, Table.List, LogView, Wal.Wal.Valid, QuietAll, ConnsOf, Appends, Placed, LeftView,
        LeftBehind, Stray.Leaves, Takes, Sents;
      ghost var w := wal.log;
      WalPlaced(wal);
      var out;
      got, out := wal.Append(NewRec(links[i].session, q), q.payload, scratch);
      AppendView(w, NewRec(links[i].session, q), q.payload, scratch.Length, wal.log, got);
      AppendLeft(w, NewRec(links[i].session, q), q.payload, scratch.Length, wal.log, got);
      TakesIs(w, links[i].session, q, scratch.Length, wal.log, got);
      ViewLength(w);
    }

    /** Remember for the session in cell k that it has this sequence. */
    method Mark(k: nat, clientSeq: nat)
      requires Valid() && k < sessions.count
      modifies this`dirty, sessions, sessions.entries
      ensures Valid() && wal.log == old(wal.log)
      ensures replicas.Peers() == old(replicas.Peers()) && unchanged(acks.clients)
      ensures old(sessions.rank[k]) < |old(View()).table|
      ensures
        var v := old(View());
        View() == v.(dirty := true, table := Raised(v.table, old(sessions.rank[k]), clientSeq))
    {
      hide Raised, Table.Ordered, Named, Table.List, LogView, Wal.Wal.Valid, QuietAll, ConnsOf;
      CellIs(sessions, k);
      dirty := true;
      sessions.Wrote(k, clientSeq);
    }

    method Take(i: nat, k: nat, q: Request, scratch: array<byte>) returns (got: Result<nat>)
      requires Valid() && i < |links| && k < sessions.count && |q.payload| <= Msg.MAX_PAYLOAD
      requires scratch !in wal.Repr() && scratch !in Parts()
      requires wal.log.segs != [] && Next(wal.log) < U64_LIMIT
      modifies this`dirty, sessions, sessions.entries, wal.Repr(), scratch
      ensures Valid() && Takes(old(wal.log), links[i].session, q, scratch.Length, wal.log, got)
      ensures replicas.Peers() == old(replicas.Peers()) && acks.clients[..] == old(acks.clients[..])
      ensures
        var v := Rolled(old(View()), RolledOver(old(wal.log), wal.log));
        && old(sessions.rank[k]) < |v.table|
        && View() == if got.Err? then v
           else v.(log := v.log + [Sent(links[i].session, q.sequence)], dirty := true,
                   table := Raised(v.table, old(sessions.rank[k]), q.sequence))
    {
      hide Valid, View, Takes, Wal.Wal.Valid, Raised, Waits;
      InTable(k);
      got := Record(i, q, scratch);
      if got.Ok? {
        Mark(k, q.sequence);
      }
    }

    lemma InTable(k: nat)
      requires Valid() && k < sessions.count
      ensures k < |sessions.rank| && sessions.rank[k] < |View().table|
    {
      hide Table.Ordered, Named, Table.List, LogView, Wal.Wal.Valid, QuietAll, ConnsOf;
      CellIs(sessions, k);
    }

    /** Whether a write may go on: its session, where it stands, and the mark it has to pass. */
    method Admit(i: nat, q: Request) returns (reply: Reply, k: nat, last: nat)
      requires Valid() && i < |links|
      modifies `links
      ensures Valid() && |links| == old(|links|) && View() == old(View()) && links[i].session == old(links[i].session)
      ensures |View().conns| == |links| && old(View()).conns[i].session == old(links[i].session) && replicas.Valid()
      ensures
        var v, session := old(View()), old(links[i].session);
        && reply == WriteReply(v, session, Refuses(q, Acks.Live(replicas.Peers())), None)
        && (reply == Silence ==>
              && k < sessions.count && sessions.rank[k] == Find(v.table, session) < |v.table| && session != 0
              && last == v.table[Find(v.table, session)].mark)
      ensures links[i].closing == (old(links[i].closing) || reply == Error(Msg.ERR_NO_SESSION))
    {
      hide Find, Table.Ordered, Named, Table.List, LogView, Wal.Wal.Valid, QuietAll, ConnsOf, Acks.Live, Owed;
      OneLink(links, acks.clients[..], i, links[i]);
      assert links[i := links[i]] == links;
      var held;
      held, k := sessions.Lookup(links[i].session);
      last := 0;
      if !held {
        SetLink(i, links[i].(closing := true));
        return Error(Msg.ERR_NO_SESSION), k, last;
      }
      CellIs(sessions, k);
      last := sessions.entries[k].last;
      if follower {
        return Error(Msg.ERR_NOT_LEADER), k, last;
      }
      var live := replicas.ReplLive();
      if q.Ask().flags.replicated && !live && !q.Ask().degradable {
        return Error(Msg.ERR_NO_REPLICAS), k, last;
      }
      reply := Silence;
    }

    /** A write the session's mark is not past: its answer is owed again, and the log is not asked. */
    method Resend(i: nat, q: Request, last: nat)
      requires Valid() && i < |links| && |View().conns| == |links| && View().conns[i].session == links[i].session
      requires replicas.Valid()
      requires WriteReply(View(), links[i].session, Refuses(q, Acks.Live(replicas.Peers())), None) == Silence
      requires q.sequence <= last == MarkIn(View().table, links[i].session)
      modifies acks.clients
      ensures Valid() && replicas.Peers() == old(replicas.Peers())
      ensures
        var v, live := old(View()), Acks.Live(replicas.Peers());
        && View() == Written(v, i, q.sequence, q.Ask().flags.ackReq, q.Ask().flags.replicated && live, Refuses(q, live),
                             false, None)
        && !Appending(v, links[i].session, q.sequence, Refuses(q, live))
        && acks.clients[..] == Owing(old(acks.clients[..]), i, live, tick, q.Ask(), last, Durable(wal.log))
    {
      hide Refuses, Waits, ConnOf, Valid, View, Find, Owed, Owing, Acks.Live, Wal.Wal.Valid, Written, WriteReply,
        Appending;
      ghost var v, live := View(), Acks.Live(replicas.Peers());
      ResentIs(v, i, q.sequence, q.Ask().flags.ackReq, q.Ask().flags.replicated && live, Refuses(q, live), false, None);
      DurableHere();
      Owe(i, q.Ask(), last, wal.active.durableSeq);
    }

    /** Any other write: appended, and its answer owed. `k` is its session's cell. */
    method AppendNew(i: nat, k: nat, q: Request, scratch: array<byte>) returns (got: Result<nat>)
      requires Valid() && i < |links| && |View().conns| == |links| && View().conns[i].session == links[i].session
      requires replicas.Valid() && k < sessions.count && |q.payload| <= Msg.MAX_PAYLOAD
      requires scratch !in wal.Repr() && scratch !in Parts()
      requires wal.log.segs != [] && Next(wal.log) < U64_LIMIT
      requires WriteReply(View(), links[i].session, Refuses(q, Acks.Live(replicas.Peers())), None) == Silence
      requires q.sequence > MarkIn(View().table, links[i].session)
      requires sessions.rank[k] == Find(View().table, links[i].session)
      modifies this`dirty, sessions, sessions.entries, acks.clients, wal.Repr(), scratch
      ensures Valid() && replicas.Peers() == old(replicas.Peers())
      ensures Takes(old(wal.log), links[i].session, q, scratch.Length, wal.log, got)
      ensures
        var v, live := old(View()), Acks.Live(replicas.Peers());
        && View() == Written(v, i, q.sequence, q.Ask().flags.ackReq, q.Ask().flags.replicated && live, Refuses(q, live),
                             got.Err?, RolledOver(old(wal.log), wal.log))
        && Appending(v, links[i].session, q.sequence, Refuses(q, live))
        && acks.clients[..] == if got.Err? then old(acks.clients[..])
                               else Owing(old(acks.clients[..]), i, live, tick, q.Ask(), q.sequence, got.value)
    {
      hide Refuses, Waits, ConnOf, Valid, View, Find, Raised, Owed, Takes, Owing, Acks.Live, Wal.Wal.Valid,
        Written, Rolled, RolledOver, Appending, WriteReply;
      ghost var v, lg, live := View(), wal.log, Acks.Live(replicas.Peers());
      got := Take(i, k, q, scratch);
      ghost var rolls := RolledOver(lg, wal.log);
      AppendedIs(v, i, q.sequence, q.Ask().flags.ackReq, q.Ask().flags.replicated && live, Refuses(q, live), got.Err?,
                 rolls);
      RolledKeeps(v, rolls);
      if got.Ok? {
        Owe(i, q.Ask(), q.sequence, got.value);
      }
    }

    /**
     WRITE: refused, answered as a resend, or appended, and what it is owed put
     in the slot that can answer it. `res` is what the log said, if it was asked.
     */
    method HandleWrite(i: nat, q: Request, scratch: array<byte>) returns (reply: Reply, ghost res: Option<Result<nat>>)
      requires Valid() && i < |links| && |q.payload| <= Msg.MAX_PAYLOAD
      requires scratch !in wal.Repr() && scratch !in Parts()
      requires wal.log.segs != [] && Next(wal.log) < U64_LIMIT
      modifies `links, `dirty, sessions, sessions.entries, acks.clients, wal.Repr(), scratch
      ensures Valid() && |links| == old(|links|)
      ensures
        var v, session, live := old(View()), old(links[i].session), Acks.Live(replicas.Peers());
        && res.Some? == Appending(v, session, q.sequence, Refuses(q, live))
        && reply == WriteReply(v, session, Refuses(q, live), res)
        && View() == Written(v, i, q.sequence, q.Ask().flags.ackReq, q.Ask().flags.replicated && live, Refuses(q, live),
                             res.Some? && res.value.Err?, RolledOver(old(wal.log), wal.log))
      ensures links[i].closing == (old(links[i].closing) || reply == Error(Msg.ERR_NO_SESSION))
      ensures res.None? ==> wal.log == old(wal.log)
      ensures res.Some? ==>
        Takes(old(wal.log), old(links[i].session), q, scratch.Length, wal.log, res.value)
      ensures
        var v, session, live := old(View()), old(links[i].session), Acks.Live(replicas.Peers());
        acks.clients[..] ==
        if reply != Silence then old(acks.clients[..])
        else if res.Some? then
          Owing(old(acks.clients[..]), i, live, tick, q.Ask(), q.sequence, if res.value.Ok? then res.value.value else 0)
        else
          Owing(old(acks.clients[..]), i, live, tick, q.Ask(), MarkIn(v.table, session), old(Durable(wal.log)))
    {
      hide Refuses, Waits, ConnOf, Valid, View, Find, Takes, Owing, Acks.Live, Wal.Wal.Valid, Written,
        Appending, WriteReply, RolledOver, Durable, MarkIn, Sents, Stray.Leaves;
      res := None;
      var k, last;
      ghost var v, lg := View(), wal.log;
      reply, k, last := Admit(i, q);
      if reply != Silence {
        NotRolled(lg);
        RefusedIs(v, i, q.sequence, q.Ask().flags.ackReq, q.Ask().flags.replicated && Acks.Live(replicas.Peers()),
                  Refuses(q, Acks.Live(replicas.Peers())), false, None);
        return;
      }
      NoMark(v, links[i].session, last);
      if q.sequence <= last {
        NotRolled(lg);
        Resend(i, q, last);
        return;
      }
      var got := AppendNew(i, k, q, scratch);
      res := Some(got);
      ReplyIs(v, links[i].session, Refuses(q, Acks.Live(replicas.Peers())), got);
      if got.Err? {
        return Error(if got.error == Invalid then Msg.ERR_PAYLOAD_TOO_BIG else Msg.ERR_STORAGE), res;
      }
    }

    lemma DurableHere()
      requires Valid()
      ensures Durable(wal.log) == wal.active.durableSeq
    {
      WalDurable(wal);
    }
  }
}
