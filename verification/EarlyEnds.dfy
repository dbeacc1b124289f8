/**
 Two runs of one connection against an empty log: a READ that is answered
 before the sequence it waits for, and a subscription that ends because a READ
 came before it.
 */
module EarlyEnds {
  import opened Bytes
  import opened Record
  import opened Wrappers
  import opened Store
  import opened Cursor
  import opened Delivery
  import opened Readers
  import opened Subscriber
  import KeyIndex
  import Msg
  import Recovery
  import SegTable
  import Wal

  /** The log that an empty directory opens into, and scratch to read it with. */
  method EmptyLog(cap: nat) returns (w: Wal.Wal, scratch: array<byte>)
    requires HEADER <= cap
    ensures w.Valid() && w.log == Log(cap, [Seg(1, [], Zeros(cap))], 0, 0, 0, 0)
    ensures fresh(w.Repr()) && fresh(scratch) && scratch !in w.Repr() && scratch.Length == HEADER
    ensures w.index.unknown == 0 && forall key :: CountIn(w.log, key) == 0
  {
    hide Wal.Wal.Valid, Placed, KeyIndex.Accounts;
    scratch := new byte[HEADER](_ => 0);
    NothingListed();
    var r, torn, seen, listing := Wal.Wal.Open([], map[], cap, scratch);
    NothingFound(listing);
    w := r.value;
    NothingIndexed(w);
  }

  lemma NothingListed()
    ensures SegTable.Parsed([]) == {} && SegTable.Loads([])
  {}

  lemma NothingFound(listing: seq<Recovery.File>)
    ensures listing != [] ==> SegTable.Members(Wal.Names(listing)) != {}
  {
    if listing != [] { assert Wal.Names(listing)[0] in SegTable.Members(Wal.Names(listing)); }
  }

  lemma NothingIndexed(w: Wal.Wal)
    requires w.Valid() && |w.log.segs| == 1 && w.log.segs[0].images == []
    ensures w.index.unknown == 0 && forall key :: CountIn(w.log, key) == 0
  {
    hide Placed, Wal.Mirrors, Wal.HoldsFinished;
    FlatOne(w.log.segs[0]);
    assert w.log.segs == [w.log.segs[0]];
    assert Flat(w.log.segs) == [] && Wal.Heads([]) == [];
  }

  method ReadEmpty(s: Subscriber, w: Wal.Wal, scratch: array<byte>, q: Want, min: u64) returns (r: Answer)
    requires w.Valid() && w.log.durable == 0 && scratch.Length == HEADER && scratch !in w.Repr()
    requires w.index.unknown == 0 && CountIn(w.log, q.key) == 0 && !s.active && !s.waiting && !q.all
    modifies s, s.cursor, scratch
    ensures r == Started(0) && s.active && !s.waiting && s.once && s.until == 0 && s.cursor.nextSeq == 1
    ensures s.closing == old(s.closing) && (s.cursor == old(s.cursor) || fresh(s.cursor))
  {
    hide Wal.Wal.Valid, CountIn, Placed, PlanRead, IndexSays, Stands, TableSays, Flat, Wal.Headed, Msg.ReadMin, ToLe;
    MinIs(min);
    ghost var plan, range, complete;
    r, plan, range, complete := s.HandleRead(w, q, ToLe(min, 8), 0, scratch);
  }

  /**
   A READ of any one key that is to wait for sequence 5 is answered at once by
   a log that has nothing at all.
   */
  method BarrierSkipped(cap: nat, key: u64) returns (s: Subscriber, w: Wal.Wal, r: Answer)
    requires HEADER <= cap
    ensures w.log.durable == 0 && r == Started(0) && s.active && !s.waiting
  {
    hide Wal.Wal.Valid, CountIn, Placed;
    var scratch;
    w, scratch := EmptyLog(cap);
    s := new Subscriber(Msg.HEADER);
    r := ReadEmpty(s, w, scratch, Want(false, key), 5);
  }

  lemma MinIs(min: u64)
    ensures |ToLe(min, 8)| == Msg.READ_SIZE && Msg.ReadMin(ToLe(min, 8)) == Some(min)
  {
    assert ToLe(min, 8)[0..8] == ToLe(min, 8);
    Msg.LeBack64(min);
  }

  lemma AskIs(min: u64, from: u64)
    ensures var p := ToLe(min, 8) + ToLe(from, 8);
      |p| == Msg.SUBSCRIBE_SIZE && Msg.SubscribeMin(p) == Some(min) && Msg.SubscribeFrom(p) == from
  {
    var p := ToLe(min, 8) + ToLe(from, 8);
    assert p[0..8] == ToLe(min, 8) && p[8..16] == ToLe(from, 8);
    Msg.LeBack64(min);
    Msg.LeBack64(from);
  }

  /** A turn of a stream that a READ's end is behind: the closing frame, and no more. */
  method EndTurn(s: Subscriber, w: Wal.Wal, scratch: array<byte>)
    requires w.Valid() && scratch !in w.Repr() && s.out.buf !in w.Repr() && s.out.buf != scratch
    requires s.out.Valid() && s.AtEnd(false)
    modifies s, s.cursor, s.out, s.out.buf, scratch
    ensures s.out.Valid() && s.out.Staged() == old(s.out.Staged()) + LastFrame(s.until) && s.until == old(s.until)
    ensures !s.active && !s.waiting && s.closing == old(s.closing) && s.once == old(s.once)
    ensures s.cursor == old(s.cursor)
  {
    hide Wal.Wal.Valid, Stands, Yields, ReadsAt, Foul, Stale, Fair, Slice, Pick, Notices, LastFrame, Concat;
    var left;
    ghost var at, k, imgs;
    left, at, k, imgs := s.Push(w, 0, false, 0, scratch);
  }

  method SubscribeLive(s: Subscriber, w: Wal.Wal, scratch: array<byte>, q: Want) returns (r: Answer)
    requires w.Valid() && w.log.durable == 0 && scratch.Length == HEADER && scratch !in w.Repr() && q.all
    requires w.log.segs != [] && w.log.gone < |w.log.segs| && FirstSeq(w.log) == Next(w.log) == 1
    requires !s.active && !s.waiting && !s.closing
    modifies s, scratch
    ensures r == Started(1) && s.active && !s.waiting && !s.closing && s.cursor.nextSeq == 1
    ensures s.cursor == old(s.cursor) || fresh(s.cursor)
    ensures s.once == old(s.once) && s.until == old(s.until)
  {
    hide Wal.Wal.Valid, CountIn, Placed, IndexSays, Stands, TableSays, Flat, Wal.Headed, Msg.SubscribeMin,
      Msg.SubscribeFrom, ToLe;
    AskIs(0, 0);
    ghost var range, complete;
    r, range, complete := s.HandleSubscribe(w, q, ToLe(0, 8) + ToLe(0, 8), 0, scratch);
  }

  /**
   A READ and then a SUBSCRIBE to everything from now on, on one connection: at
   its first turn the subscription is told that it has ended, since the READ's
   end is still there.
   */
  method SubscriptionEnded(cap: nat, key: u64) returns (s: Subscriber, w: Wal.Wal, asked: Answer, subscribed: Answer)
    requires HEADER <= cap
    ensures asked == Started(0) && subscribed == Started(1)
    ensures s.out.Valid() && s.out.Staged() == LastFrame(0) + LastFrame(0) && !s.active && !s.waiting && !s.closing
  {
    hide Wal.Wal.Valid, CountIn, LastFrame;
    var scratch;
    w, scratch := EmptyLog(cap);
    FirstOfEmpty(w.log);
    s := new Subscriber(2 * Msg.HEADER);
    asked := ReadEmpty(s, w, scratch, Want(false, key), 0);
    EndTurn(s, w, scratch);
    assert [] + LastFrame(0) == LastFrame(0);
    LastIsOne(0);
    assert s.out.len == |s.out.Staged()|;
    subscribed := SubscribeLive(s, w, scratch, Want(true, 0));
    EndTurn(s, w, scratch);
  }

  /** A log that starts at 1, has not gone far, and takes another small record. */
  ghost predicate Young(w: Log) {
    && w.segs != [] && w.gone == 0 && w.cap >= SMALL && w.segs[0].base == 1 && Next(w) < 3 && |w.segs| <= Next(w)
    && 0 <= w.durable
  }

  const SMALL: nat := 56

  lemma SmallSize(r: Rec)
    ensures SizeOf(r.(len := 0)) == SMALL
  {}

  /** The log after one more write and a flush. */
  ghost function Grown(w: Log, r: Rec): Log
    requires Placed(w) && Young(w)
  {
    LastOk(w);
    SmallSize(r);
    Sync(Append(w, r.(len := 0), [], MAX_SIZE).0)
  }

  lemma GrownIs(w: Log, r: Rec)
    requires Placed(w) && Young(w)
    ensures w.writeOff <= |Last(w).file| && SizeOf(r.(len := 0)) == SMALL
    ensures Append(w, r.(len := 0), [], MAX_SIZE).1.Ok? && Append(w, r.(len := 0), [], MAX_SIZE).0.segs != []
    ensures var v := Grown(w, r);
      && v.segs != [] && v.gone == 0 && v.cap == w.cap && v.segs[0].base == 1 && Next(v) == Next(w) + 1
      && v.durable == Next(v) - 1 && |v.segs| <= Next(v)
  {
    hide Append, Chain, AllEndClean, Concat, Flat, TailClean, SizeOf;
    LastOk(w);
    SmallSize(r);
    AppendKeeps(w, r.(len := 0), [], MAX_SIZE);
    hide Placed;
    OriginStays(w, Recovery.OpAppend(r.(len := 0), []));
  }

  lemma GrownStands(w: Log, r: Rec, base: nat, off: nat, next: nat)
    requires Placed(w) && Young(w) && Stands(w, base, off, next)
    ensures Stands(Grown(w, r), base, off, next)
  {
    hide Append, Chain, AllEndClean, Concat, Flat, TailClean, SizeOf, Stands;
    LastOk(w);
    SmallSize(r);
    AppendKeeps(w, r.(len := 0), [], MAX_SIZE);
    var u := Append(w, r.(len := 0), [], MAX_SIZE).0;
    LastOk(u);
    hide Placed;
    StandsStable(w, Recovery.OpAppend(r.(len := 0), []), base, off, next);
    StandsStable(u, Recovery.OpSync, base, off, next);
  }

  lemma WalPlaced(w: Wal.Wal)
    requires w.Valid()
    ensures Placed(w.log)
  {
    hide Placed;
  }

  /** One more write, flushed. */
  method Grow(w: Wal.Wal, r: Rec, big: array<byte>)
    requires w.Valid() && Placed(w.log) && Young(w.log) && big !in w.Repr() && big.Length == MAX_SIZE
    modifies w.Repr(), big
    ensures w.Valid() && Placed(w.log) && fresh(w.Repr() - old(w.Repr())) && w.log == Grown(old(w.log), r)
  {
    hide Wal.Wal.Valid, Placed, Append, Encode, Stands, Flat, SizeOf;
    GrownIs(w.log, r);
    var res, out := w.Append(r.(len := 0), [], big);
    w.Sync();
    WalPlaced(w);
  }

  /** A READ of everything from a log that starts at 1: held if it is to wait for more than there is. */
  method ReadAll(s: Subscriber, w: Wal.Wal, scratch: array<byte>, min: u64)
    requires w.Valid() && w.log.segs != [] && w.log.segs[0].base == 1 && 0 <= w.log.durable && w.log.gone == 0
    requires scratch.Length == HEADER && scratch !in w.Repr() && !s.active && !s.waiting && !s.closing
    modifies s, s.cursor, scratch
    ensures s.cursor == old(s.cursor) || fresh(s.cursor)
    ensures s.once && !s.closing && s.minSeq == min && s.until == w.log.durable
    ensures s.waiting == (min > w.log.durable) && s.active == (min <= w.log.durable)
    ensures s.cursor.open && s.cursor.nextSeq == 1
    ensures Stands(w.log, s.cursor.segBase, s.cursor.off, s.cursor.nextSeq)
  {
    hide Wal.Wal.Valid, CountIn, Placed, IndexSays, Stands, TableSays, Flat, Wal.Headed, Msg.ReadMin, ToLe;
    MinIs(min);
    ghost var r, plan, range, complete;
    r, plan, range, complete := s.HandleRead(w, Want(true, 0), ToLe(min, 8), 0, scratch);
  }

  /** An empty log, and a READ that waits for its first record. */
  method Held(cap: nat) returns (s: Subscriber, w: Wal.Wal, scratch: array<byte>)
    requires HEADER <= cap
    ensures w.Valid() && Placed(w.log) && Young(w.log) && Next(w.log) == 1
    ensures scratch.Length == HEADER && fresh(w.Repr()) && fresh(scratch)
    ensures fresh(Parts(s)) && Parts(s) !! w.Repr() && scratch !in w.Repr() && scratch !in Parts(s)
    ensures s.out.Valid() && s.waiting && !s.active && !s.closing && s.once && s.minSeq == 1
  {
    hide Wal.Wal.Valid, Stands, CountIn, Placed, Zeros;
    w, scratch := EmptyLog(cap);
    FirstOfEmpty(w.log);
    WalPlaced(w);
    s := new Subscriber(Msg.HEADER);
    ReadAll(s, w, scratch, 1);
  }

  /** A READ of all there is, which has its end where the log is flushed to now. */
  method Started1(w: Wal.Wal, scratch: array<byte>) returns (s: Subscriber)
    requires w.Valid() && Young(w.log) && w.log.durable == 1 && scratch.Length == HEADER && scratch !in w.Repr()
    modifies scratch
    ensures fresh(Parts(s)) && s.out.Valid() && s.out.len == 0 && s.out.buf.Length == Msg.HEADER
    ensures s.active && !s.waiting && !s.closing && s.once && s.until == 1
    ensures s.cursor.open && s.cursor.nextSeq == 1
    ensures Stands(w.log, s.cursor.segBase, s.cursor.off, s.cursor.nextSeq)
  {
    hide Wal.Wal.Valid, Stands, CountIn, Next;
    s := new Subscriber(Msg.HEADER);
    assert s.out.len == |s.out.Staged()|;
    ReadAll(s, w, scratch, 0);
  }

  /** A second READ, one more record written and flushed, and then the pass over both. */
  method Overtaken(w: Wal.Wal, s: Subscriber, scratch: array<byte>, second: Rec)
    requires w.Valid() && Placed(w.log) && Young(w.log) && w.log.durable == 1 && Next(w.log) == 2
    requires scratch.Length == HEADER && scratch !in w.Repr() && scratch !in Parts(s) && Parts(s) !! w.Repr()
    requires s.out.Valid() && s.waiting && !s.active && !s.closing && s.once && s.minSeq == 1
    modifies w.Repr(), Parts(s), scratch
    ensures s.active && !s.waiting && s.once && s.until == 1 < w.log.durable
  {
    hide Wal.Wal.Valid, Stands, Placed, Young, Grown, Next;
    var other := Started1(w, scratch);
    var big := new byte[MAX_SIZE](_ => 0);
    GrownYoung(w.log, second);
    GrownStands(w.log, second, other.cursor.segBase, other.cursor.off, other.cursor.nextSeq);
    Grow(w, second, big);
    TwoApart(other, s, w, scratch);
    hide Apart, AllParts;
    Pass(w, other, s, scratch);
  }

  lemma TwoApart(a: Subscriber, b: Subscriber, w: Wal.Wal, scratch: array<byte>)
    requires Parts(a) !! Parts(b) && Parts(a) !! w.Repr() && Parts(b) !! w.Repr()
    requires scratch !in Parts(a) && scratch !in Parts(b)
    ensures Apart([a, b], w, scratch) && AllParts([a, b]) == Parts(a) + Parts(b)
  {
    hide Parts;
    var both := [a, b];
    assert both[0] == a && both[1] == b;
  }

  /**
   A READ waits for the first record; the record is written and flushed, and a
   second READ comes on a connection before it; another record is written and
   flushed. In that pass the held READ is released, and is given the other one's
   end for its own: it will stop at the first record, though two are flushed.
   */
  method ReleasedEarly(cap: nat, first: Rec, second: Rec) returns (s: Subscriber, w: Wal.Wal)
    requires HEADER <= cap
    ensures s.active && !s.waiting && s.once && s.until == 1 < w.log.durable
  {
    hide Wal.Wal.Valid, Stands, Placed, Young, Grown, Next;
    var scratch;
    s, w, scratch := Held(cap);
    var big := new byte[MAX_SIZE](_ => 0);
    GrownYoung(w.log, first);
    Grow(w, first, big);
    Overtaken(w, s, scratch, second);
  }

  lemma GrownYoung(w: Log, r: Rec)
    requires Placed(w) && Young(w)
    ensures Grown(w, r).segs != [] && Grown(w, r).durable == Next(w)
    ensures Next(Grown(w, r)) == Next(w) + 1 && (Next(w) < 2 ==> Young(Grown(w, r)))
  {
    hide Placed, Grown;
    GrownIs(w, r);
  }

  /** The pass: the connection that is reading, and behind it the one that is held. */
  method Pass(w: Wal.Wal, a: Subscriber, b: Subscriber, scratch: array<byte>)
    requires w.Valid() && scratch !in w.Repr() && Apart([a, b], w, scratch)
    requires a.out.Valid() && b.out.Valid() && a.Due(false) && a.once && a.until == 1
    requires a.cursor.open && Stands(w.log, a.cursor.segBase, a.cursor.off, a.cursor.nextSeq)
    requires b.waiting && !b.closing && b.once && b.minSeq == 1
    modifies AllParts([a, b]), scratch
    ensures b.active && !b.waiting && b.until == 1 && b.once
  {
    hide Wal.Wal.Valid, Stands, Apart;
    ghost var ends := EndsOf([a, b], [false, false]);
    assert ends[..1] == [Some(1)];
    LimitIff(2, [Some(1)]);
    SubsPush(w, [a, b], [false, false], 2, 0, scratch);
    assert [a, b][1] == b;
  }

  lemma LastIsOne(until: nat)
    ensures |LastFrame(until)| == Msg.HEADER
  {}

  lemma FirstOfEmpty(w: Log)
    requires |w.segs| == 1 && w.gone == 0 && w.segs[0].base == 1 && w.segs[0].images == []
    ensures FirstSeq(w) == Next(w) == 1
  {}
}
