/**
 A record handed on that was never logged. A crash keeps a record and loses the
 one before it; the lost one's place is filled, the next write rolls over, and a
 read of the finished segment gives the kept record for the one that follows.
 */
module HandedOn {
  import opened Bytes
  import opened Record
  import opened Wrappers
  import opened Store
  import opened Recovery
  import opened Cursor
  import Acks
  import Dirty
  import LeaderLoop
  import Leftover
  import Segment
  import SegTable
  import Sessions
  import Stray
  import Stream
  import Wal

  const SMALL := Leftover.SMALL

  /** A record of sixty-four bytes under sequence n. */
  function Image(r: Rec, n: u64): (s: seq<byte>)
    ensures |s| == Dirty.LARGE
  {
    hide Encode, Crc32c.Sum;
    Encode(Dirty.Large(r).(seqno := n), Dirty.Ones(64))
  }

  lemma ImageIs(r: Rec, n: u64)
    ensures IsRecordAt(Image(r, n), n) && SizeOf(Dirty.Large(r)) == Dirty.LARGE
  {
    Segment.EncodedAt(Dirty.Large(r).(seqno := n), Dirty.Ones(64));
    hide Encode, Decode, Verify;
  }

  /** The finished segment: two records, and behind them the copy that was kept. */
  function Finished(a: seq<byte>, b: seq<byte>, c: seq<byte>, cap: nat): Seg
    requires |a| == |b| == |c| == SMALL && 3 * SMALL <= cap
  {
    Seg(1, [a, b], Leftover.Three(a, b, c, cap))
  }

  function Rolled(a: seq<byte>, b: seq<byte>, c: seq<byte>, d: seq<byte>, cap: nat, durable: int): Log
    requires |a| == |b| == |c| == SMALL && |d| == Dirty.LARGE && 3 * SMALL <= cap
  {
    Log(cap, [Finished(a, b, c, cap), Seg(3, [d], WriteAt(Zeros(cap), 0, d))], 0, Dirty.LARGE,
        if durable == 3 then Dirty.LARGE else 0, durable)
  }

  // ---- the appends ----

  /** A write that does not fit begins a segment of its own. */
  lemma RollsOver(w: Log, s: Seg, size: nat)
    requires w.segs == [s] && w.writeOff + size > w.cap && s.base + |s.images| == 3
    ensures RollIfFull(w, size) == Log(w.cap, [s, Seg(3, [], Zeros(w.cap))], w.gone, 0, 0, 2)
  {
    hide Zeros;
    assert [s] + [Seg(3, [], Zeros(w.cap))] == [s, Seg(3, [], Zeros(w.cap))];
  }

  lemma WrittenFirst(v: Log, s: Seg, img: seq<byte>)
    requires v.segs == [s, Seg(3, [], Zeros(v.cap))] && v.writeOff == 0
    ensures Write(v, img) == v.(segs := [s, Seg(3, [img], WriteAt(Zeros(v.cap), 0, img))], writeOff := |img|)
  {
    hide Zeros, WriteAt;
    assert [] + [img] == [img];
    assert v.segs[..1] + [Seg(3, [img], WriteAt(Zeros(v.cap), 0, img))]
        == [s, Seg(3, [img], WriteAt(Zeros(v.cap), 0, img))];
  }

  lemma LargeRolls(w: Log, a: seq<byte>, b: seq<byte>, c: seq<byte>, cap: nat, next: Rec)
    requires |a| == |b| == |c| == SMALL && 3 * SMALL <= cap < 2 * SMALL + Dirty.LARGE
    requires w == Log(cap, [Finished(a, b, c, cap)], 0, 2 * SMALL, 2 * SMALL, 2)
    ensures var (x, r) := Append(w, Dirty.Large(next), Dirty.Ones(64), MAX_SIZE);
      && r == Ok(3) && x.segs != [] && x == Rolled(a, b, c, Image(next, 3), cap, 2)
      && Sync(x) == Rolled(a, b, c, Image(next, 3), cap, 3)
  {
    hide Encode, WriteAt, Leftover.Three, Write, RollIfFull, Zeros;
    ImageIs(next, 3);
    RollsOver(w, Finished(a, b, c, cap), Dirty.LARGE);
    WrittenFirst(RollIfFull(w, Dirty.LARGE), Finished(a, b, c, cap), Image(next, 3));
  }

  /** The lost record's place is filled, and flushed. */
  lemma MidFills(cap: nat, first: Rec, mid: Rec, again: Rec)
    requires 3 * SMALL <= cap
    ensures var v := Leftover.Left(cap, first, again);
      var a, b, c := Leftover.Image(first, 1), Leftover.Image(mid, 2), Leftover.Image(again, 3);
      && v.segs != [] && v.writeOff <= |Last(v).file| && Next(v) < U64_LIMIT && v.gone <= |v.segs|
      && var (u, r) := Append(v, Dirty.Small(mid), [], MAX_SIZE);
         && r == Ok(2) && u.segs != []
         && Sync(u) == Log(cap, [Finished(a, b, c, cap)], 0, 2 * SMALL, 2 * SMALL, 2)
  {
    hide Leftover.Image, Append, WriteAt, Leftover.Three, Zeros, Concat;
    var a, b, c := Leftover.Image(first, 1), Leftover.Image(mid, 2), Leftover.Image(again, 3);
    Leftover.ConcatFew(a, b, c);
    Leftover.AppendsSmall(cap, [a], Leftover.Three(a, Zeros(SMALL), c, cap), SMALL, 1, mid);
    Leftover.ThreeWritten(a, Zeros(SMALL), c, b, cap);
    assert [a] + [b] == [a, b];
  }

  // ---- the read ----

  lemma {:induction false} SeesFront(img: seq<byte>, rest: seq<byte>, next: nat, limit: nat)
    requires IsRecordAt(img, next) && 0 < next <= limit
    ensures Sees(img + rest, next, limit) == Taking(img, Sees(rest, next + 1, limit))
  {
    var p := img + rest;
    Segment.RecordFacts(img, next);
    hide Decode, IsRecordAt, SizeOf;
    assert p[..HEADER] == img[..HEADER];
    DecodePrefix(p, img);
    assert p[..|img|] == img && p[|img|..] == rest;
    NotEnd(img, next);
  }

  lemma NotEnd(img: seq<byte>, next: nat)
    requires IsRecordAt(img, next) && 0 < next
    ensures |img| >= HEADER && !IsEnd(Decode(img)) && SizeOf(Decode(img)) == |img| > 0
  {
    hide Decode;
  }

  lemma SeesZeros(z: seq<byte>, next: nat, limit: nat)
    requires AllZero(z)
    ensures Sees(z, next, limit) == Seen([], true)
  {
    hide Decode;
    if |z| >= HEADER {
      Segment.DecodeSlice(z, 0, |z|);
      assert z[0..|z|] == z && z[0..] == z;
      ZeroIsClean(z, |z|, 0);
    }
  }

  /** What a read brings from the second record on. */
  lemma BlockIs(a: seq<byte>, b: seq<byte>, c: seq<byte>, cap: nat, room: nat) returns (z: seq<byte>)
    requires |a| == |b| == |c| == SMALL && 3 * SMALL <= cap && room >= 2 * SMALL
    ensures |Concat(Finished(a, b, c, cap).images[..1])| == SMALL <= |Finished(a, b, c, cap).file|
    ensures BlockAt(Finished(a, b, c, cap), 1, room) == b + (c + z) && AllZero(z)
  {
    hide Concat;
    var file := Leftover.Three(a, b, c, cap);
    assert [a, b][..1] == [a];
    ConcatOne(a);
    var len := if room < cap - SMALL then room else cap - SMALL;
    z := Zeros(cap - 3 * SMALL)[..len - 2 * SMALL];
    assert file == a + (b + (c + Zeros(cap - 3 * SMALL)));
    assert file[SMALL..SMALL + len] == (b + (c + Zeros(cap - 3 * SMALL)))[..len] == b + (c + z);
  }

  /** A read from sequence 2 on takes the second record, and then the copy behind it. */
  lemma ReadPast(a: seq<byte>, b: seq<byte>, c: seq<byte>, cap: nat, room: nat)
    requires IsRecordAt(a, 1) && IsRecordAt(b, 2) && IsRecordAt(c, 3)
    requires |a| == |b| == |c| == SMALL && 3 * SMALL <= cap && room >= 2 * SMALL
    ensures |Concat(Finished(a, b, c, cap).images[..1])| <= |Finished(a, b, c, cap).file|
    ensures Sees(BlockAt(Finished(a, b, c, cap), 1, room), 2, 3) == Seen([b, c], true)
    ensures Stream.Taken(Concat([b, c]), 2) == ([b, c], true)
  {
    hide IsRecordAt, Sees, BlockAt, Finished, Stream.Taken, Concat;
    var z := BlockIs(a, b, c, cap, room);
    SeesFront(b, c + z, 2, 3);
    SeesFront(c, z, 3, 3);
    SeesZeros(z, 4, 3);
    assert [c] + [] == [c] && [b] + [c] == [b, c];
    Stream.FrameTaken([b, c], 2);
  }

  /**
   What the log then is, and what a replica is given of it: a read of the
   finished segment from the second record on, with room for two, gives the
   second record and then, for the third, the one the crash kept; and the replica
   takes both.
   */
  lemma KeptIsSent(a: seq<byte>, b: seq<byte>, c: seq<byte>, d: seq<byte>, cap: nat, room: nat)
    requires IsRecordAt(a, 1) && IsRecordAt(b, 2) && IsRecordAt(c, 3) && |a| == |b| == |c| == SMALL
    requires |d| == Dirty.LARGE && 3 * SMALL <= cap && room >= 2 * SMALL
    ensures var w := Rolled(a, b, c, d, cap, 3);
      && w.segs != [] && Flat(w.segs) == [a, b, d] && c != d
      && Stray.Reads(w, 0, 1, 3) && Meets(w, 0, 1, 3, room) == Seen([b, c], true)
      && Stream.Taken(Concat([b, c]), 2) == ([b, c], true)
      && !Stray.Within(w, 0, 1, 3, room)
  {
    hide IsRecordAt, Sees, BlockAt, Stream.Taken, Concat, Leftover.Three, WriteAt, Zeros;
    ReadPast(a, b, c, cap, room);
    var w := Rolled(a, b, c, d, cap, 3);
    FlatTwo(w.segs[0], w.segs[1]);
    assert [a, b] + [d] == [a, b, d];
  }

  lemma FlatTwo(s: Seg, t: Seg)
    ensures Flat([s, t]) == s.images + t.images
  {
    hide Flat;
    FlatConcat([s], [t]);
    FlatOne(s);
    FlatOne(t);
    assert [s] + [t] == [s, t];
  }

  // ---- on the nodes' own parts ----

  lemma OneNamed(file: seq<byte>)
    ensures SegTable.Parsed([SegTable.Name(1) + "\0"]) == {1} && map[1 := file].Keys == {1 as nat}
    ensures SegTable.Loads([SegTable.Name(1) + "\0"])
  {
    hide SegTable.Name, SegTable.Parse;
    SegTable.ParseName(1, "");
    var areas := [SegTable.Name(1) + "\0"];
    assert SegTable.Name(1) + "\0" + "" == SegTable.Name(1) + "\0";
    assert SegTable.Parse(areas[0]) == Some(1);
    assert areas[..0] == [];
    assert SegTable.Parsed([]) == {};
  }

  lemma OneListed(listing: seq<File>, file: seq<byte>, cap: nat)
    requires SegTable.Members(Wal.Names(listing)) == {1}
    requires Wal.Lists(listing, Wal.Names(listing), map[1 := file], cap)
    ensures listing == [File(1, file)]
  {
    hide SegTable.Ascending;
    var bases := Wal.Names(listing);
    assert 1 in SegTable.Members(bases);
    assert forall i :: 0 <= i < |bases| ==> bases[i] in SegTable.Members(bases);
    if |bases| > 1 { FirstBelow(bases); }
  }

  lemma FirstBelow(bases: seq<nat>)
    requires SegTable.Ascending(bases) && |bases| > 1
    ensures bases[0] < bases[1]
  {}

  /** A directory of one segment file, opened. */
  method OpenOne(cap: nat, file: seq<byte>, ghost a: seq<byte>) returns (w: Wal.Wal, scratch: array<byte>)
    requires HEADER <= cap && |file| == cap && |a| == SMALL
    requires OpenFrom([File(1, file)], cap, MAX_SIZE, 1) == Ok(Opened([[a]], false))
    ensures w.Valid() && w.log == Leftover.One(cap, [a], file, SMALL, 1)
    ensures fresh(w.Repr()) && fresh(scratch) && scratch !in w.Repr() && scratch.Length == MAX_SIZE
  {
    hide Wal.Wal.Valid, OpenFrom, Reopened, SegTable.Name, SegTable.Parsed, SegTable.Loads, SegTable.Members, Wal.Lists;
    scratch := new byte[MAX_SIZE](_ => 0);
    OneNamed(file);
    ghost var listing;
    var r, torn, seen;
    r, torn, seen, listing := Wal.Wal.Open([SegTable.Name(1) + "\0"], map[1 := file], cap, scratch);
    OneListed(listing, file, cap);
    Leftover.ReopensOne(a, file, cap);
    w := r.value;
  }

  /** The lost record's place is filled, and flushed. */
  method Fill(w: Wal.Wal, scratch: array<byte>, cap: nat, first: Rec, mid: Rec, again: Rec)
    requires 3 * SMALL <= cap && w.Valid() && w.log == Leftover.Left(cap, first, again)
    requires scratch !in w.Repr() && scratch.Length == MAX_SIZE
    modifies w.Repr(), scratch
    ensures w.Valid() && fresh(w.Repr() - old(w.Repr()))
    ensures var a, b, c := Leftover.Image(first, 1), Leftover.Image(mid, 2), Leftover.Image(again, 3);
      w.log == Log(cap, [Finished(a, b, c, cap)], 0, 2 * SMALL, 2 * SMALL, 2)
  {
    hide Wal.Wal.Valid, Append, Leftover.Image, Finished, Sync, Leftover.Left;
    MidFills(cap, first, mid, again);
    Leftover.ImageIs(mid, 2);
    hide IsRecordAt, SizeOf;
    var res, out := w.Append(Dirty.Small(mid), [], scratch);
    w.Sync();
  }

  /** The next write rolls over, and is flushed. */
  method Next3(w: Wal.Wal, scratch: array<byte>, a: seq<byte>, b: seq<byte>, c: seq<byte>, cap: nat, next: Rec)
    requires |a| == |b| == |c| == SMALL && 3 * SMALL <= cap < 2 * SMALL + Dirty.LARGE
    requires w.Valid() && w.log == Log(cap, [Finished(a, b, c, cap)], 0, 2 * SMALL, 2 * SMALL, 2)
    requires scratch !in w.Repr() && scratch.Length == MAX_SIZE
    modifies w.Repr(), scratch
    ensures w.Valid() && fresh(w.Repr() - old(w.Repr())) && w.log == Rolled(a, b, c, Image(next, 3), cap, 3)
  {
    hide Wal.Wal.Valid, Append, Image, Sync, Rolled;
    LargeRolls(w.log, a, b, c, cap, next);
    ImageIs(next, 3);
    hide IsRecordAt, SizeOf;
    var res, out := w.Append(Dirty.Large(next), Dirty.Ones(64), scratch);
    w.Sync();
  }

  /** The leader: opened after the crash, its next write flushed, and the one after that, in a new segment. */
  method Leads(cap: nat, first: Rec, mid: Rec, again: Rec, next: Rec) returns (w: Wal.Wal, scratch: array<byte>)
    requires 3 * SMALL <= cap < 2 * SMALL + Dirty.LARGE
    ensures w.Valid() && fresh(w.Repr()) && fresh(scratch) && scratch !in w.Repr() && scratch.Length == MAX_SIZE
    ensures
      var a, b, c, d := Leftover.Image(first, 1), Leftover.Image(mid, 2), Leftover.Image(again, 3), Image(next, 3);
      w.log == Rolled(a, b, c, d, cap, 3)
  {
    hide Wal.Wal.Valid, OpenFrom, Leftover.Three, Leftover.Image, Image, Rolled, Finished, Zeros, Good, Leftover.One;
    Leftover.FirstOpening(cap, MAX_SIZE, first, again);
    LeftIs(cap, first, again);
    hide Leftover.Left, Reopened;
    var a := Leftover.Image(first, 1);
    w, scratch := OpenOne(cap, Leftover.Three(a, Zeros(SMALL), Leftover.Image(again, 3), cap), a);
    Fill(w, scratch, cap, first, mid, again);
    Next3(w, scratch, a, Leftover.Image(mid, 2), Leftover.Image(again, 3), cap, next);
  }

  lemma LeftIs(cap: nat, first: Rec, again: Rec)
    requires 3 * SMALL <= cap
    ensures var a, c := Leftover.Image(first, 1), Leftover.Image(again, 3);
      Leftover.Left(cap, first, again) == Leftover.One(cap, [a], Leftover.Three(a, Zeros(SMALL), c, cap), SMALL, 1)
  {
    hide Leftover.Image, Leftover.Three, Zeros, Leftover.One;
  }

  /** Where the stream's read is made: at the second record of the finished segment. */
  lemma ReadsSecond(w: Log, s: Seg, t: Seg, base: nat, off: nat, at: nat, k: nat, room: nat)
    requires w.segs == [s, t] && s.base == 1 && |s.images| == 2 && t.base == 3
    requires ReadsAt(w, base, off, 2, at, k, 3, room)
    ensures at == 0 && k == 1
  {
    hide Over, StandsAt;
  }

  /** A replica asks for everything from the second record on, and the leader streams it what there is. */
  method Streams(w: Wal.Wal, scratch: array<byte>, ghost a: seq<byte>, ghost b: seq<byte>, ghost c: seq<byte>,
                 ghost d: seq<byte>, ghost cap: nat)
      returns (sent: seq<byte>)
    requires IsRecordAt(a, 1) && IsRecordAt(b, 2) && IsRecordAt(c, 3) && |a| == |b| == |c| == SMALL
    requires |d| == Dirty.LARGE && 3 * SMALL <= cap
    requires w.Valid() && w.log == Rolled(a, b, c, d, cap, 3)
    requires scratch !in w.Repr() && scratch.Length == MAX_SIZE
    modifies scratch
    ensures sent == Concat([b, c])
  {
    hide Wal.Wal.Valid, IsRecordAt, ReadsAt, Meets, Stands, Foul, Stale, Yields, Stray.Within, Leftover.Three, WriteAt,
      Zeros, Flat, Fair, LeaderLoop.Depicts, Acks.Floor, Concat, Sees, Stream.Taken;
    KeptIsSent(a, b, c, d, cap, 2 * SMALL);
    hide Stray.Reads;
    var leader := new LeaderLoop.Leader(0, 0);
    NoSlotYet();
    var start := leader.HandleReplStart(w, false, 0, 2, scratch);
    var ok, n;
    ghost var at, k, imgs, from, off := 0, 0, [], leader.streams[0].segBase, leader.streams[0].off;
    ok, n, at, k, imgs := leader.ReplStream(w, 0, scratch, 2 * SMALL);
    ReadsSecond(w.log, w.log.segs[0], w.log.segs[1], from, off, at, k, 2 * SMALL);
    sent := scratch[..n];
  }

  lemma NoSlotYet()
    ensures LeaderLoop.Replication.FreeSlot([None, None]) == 0
  {}

  /** Finished segments are not empty, so there are no more of them than records. */
  lemma {:induction false} FewSegs(segs: seq<Seg>, cap: nat, n: nat)
    requires n < |segs| && Chain(segs, cap)
    ensures n <= |Flat(segs[..n])| <= |Flat(segs)|
    decreases n
  {
    hide Flat, SegOk;
    FlatConcat(segs[..n], segs[n..]);
    assert segs[..n] + segs[n..] == segs;
    if n > 0 {
      FewSegs(segs, cap, n - 1);
      assert Link(segs, n - 1);
      assert segs[..n] == segs[..n - 1] + [segs[n - 1]];
      FlatConcat(segs[..n - 1], [segs[n - 1]]);
      FlatOne(segs[n - 1]);
    }
  }

  lemma TakesSmall(w: Wal.Wal)
    requires w.Valid() && 3 * SMALL <= w.cap && |Flat(w.log.segs)| <= 3
    ensures Stream.Takes(w.log, SMALL, MAX_SIZE)
  {
    ShortLog(w);
    hide Wal.Wal.Valid, Flat, Chain;
    FewSegs(w.log.segs, w.log.cap, |w.log.segs| - 1);
  }

  lemma ShortLog(w: Wal.Wal)
    requires w.Valid()
    ensures w.log.segs != [] && Chain(w.log.segs, w.log.cap) && w.log.cap == w.cap
  {
    hide Chain, Flat, Wal.HoldsFinished, Wal.Headed, Wal.Heads, Concat;
  }

  lemma SmallCanonical(r: Rec, n: u64)
    ensures Canonical(Leftover.Image(r, n))
  {
    EncodeDecodes(Dirty.Small(r).(seqno := n), []);
    hide Canonical, Encode, Decode, Verify;
  }

  lemma StoredAsTheyAre(b: seq<byte>, c: seq<byte>, mid: Rec, again: Rec)
    requires b == Leftover.Image(mid, 2) && c == Leftover.Image(again, 3)
    ensures Stream.RestoredAll([b, c]) == [b, c]
  {
    hide Canonical, Leftover.Image, Stream.RestoredAll;
    SmallCanonical(mid, 2);
    SmallCanonical(again, 3);
    Stream.StoredAsSent([b, c]);
  }

  /** A replica that has the first record. */
  method Follows(cap: nat, first: Rec) returns (f: Wal.Wal, scratch: array<byte>)
    requires 3 * SMALL <= cap
    ensures f.Valid() && fresh(f.Repr()) && fresh(scratch) && scratch !in f.Repr() && scratch.Length == MAX_SIZE
    ensures f.cap == cap && f.log.segs != [] && Next(f.log) == 2 && Flat(f.log.segs) == [Leftover.Image(first, 1)]
  {
    hide Wal.Wal.Valid, OpenFrom, Leftover.Three, Leftover.Image, Zeros, Flat, Concat;
    var a := Leftover.Image(first, 1);
    Leftover.ImageIs(first, 1);
    hide IsRecordAt;
    Leftover.OpensOne(a, Zeros(SMALL), cap, MAX_SIZE);
    f, scratch := OpenOne(cap, Leftover.Three(a, Zeros(SMALL), Zeros(SMALL), cap), a);
    FlatOne(f.log.segs[0]);
    ShortLog(f);
  }

  /** It has room for each of the two, so it stops at neither. */
  lemma BothTaken(w: Wal.Wal, a: seq<byte>, imgs: seq<seq<byte>>, k: nat)
    requires w.Valid() && 3 * SMALL <= w.cap && |imgs| == 2 && k <= 2 && |imgs[0]| == |imgs[1]| == SMALL
    requires Flat(w.log.segs) == [a] + Stream.RestoredAll(imgs[..k])
    requires k < 2 ==> !Stream.Takes(w.log, |imgs[k]|, MAX_SIZE)
    ensures k == 2 && imgs[..k] == imgs
  {
    hide Wal.Wal.Valid, Flat, Stream.Takes;
    TakesSmall(w);
  }

  /** And takes both. */
  method Applies(f: Wal.Wal, scratch: array<byte>, ghost a: seq<byte>, ghost b: seq<byte>, ghost c: seq<byte>,
                 sent: seq<byte>) returns (closing: bool)
    requires f.Valid() && scratch !in f.Repr() && scratch.Length == MAX_SIZE && 3 * SMALL <= f.cap
    requires f.log.segs != [] && Next(f.log) == 2 && Flat(f.log.segs) == [a]
    requires |b| == |c| == SMALL && sent == Concat([b, c])
    requires Stream.Taken(Concat([b, c]), 2) == ([b, c], true) && Stream.RestoredAll([b, c]) == [b, c]
    modifies f.Repr(), scratch
    ensures f.Valid() && f.log.segs != [] && !closing && Flat(f.log.segs) == [a, b, c]
  {
    hide Wal.Wal.Valid, Flat, Concat, Stream.Taken, Stream.Takes, Stream.RestoredAll, Stream.Seen, Sessions.Sorted,
      Sessions.Named, Sessions.ListOf, Sessions.Table.List, Next, Placed;
    var sessions := new Sessions.Table();
    ghost var k;
    closing, k := Stream.ReplApply(f, sessions, sent, scratch);
    BothTaken(f, a, [b, c], k);
    assert [a] + [b, c] == [a, b, c];
  }

  /**
   From the directory the crash leaves to the replica's log, on the program's own
   parts: the leader has logged the first record, the second and a third, and
   flushed them; its replica, sent what a read of the leader's files gives, has
   the first two and another.
   */
  method KeptIsStored(cap: nat, first: Rec, mid: Rec, again: Rec, next: Rec)
      returns (leader: Wal.Wal, replica: Wal.Wal, closing: bool)
    requires 3 * SMALL <= cap < 2 * SMALL + Dirty.LARGE
    ensures leader.Valid() && leader.log.segs != [] && leader.log.durable == 3
    ensures replica.Valid() && replica.log.segs != [] && !closing
    ensures
      var a, b, c, d := Leftover.Image(first, 1), Leftover.Image(mid, 2), Leftover.Image(again, 3), Image(next, 3);
      Flat(leader.log.segs) == [a, b, d] && Flat(replica.log.segs) == [a, b, c] && c != d
  {
    hide Wal.Wal.Valid, Leftover.Three, Leftover.Image, Image, Zeros, Flat, Concat, WriteAt, Stream.Taken, Rolled,
      Stream.RestoredAll, IsRecordAt, Next, Placed;
    ghost var a, b, c, d := Leftover.Image(first, 1), Leftover.Image(mid, 2), Leftover.Image(again, 3), Image(next, 3);
    Ready(cap, first, mid, again, next);
    var scratch;
    leader, scratch := Leads(cap, first, mid, again, next);
    var sent := Streams(leader, scratch, a, b, c, d, cap);
    replica, scratch := Follows(cap, first);
    closing := Applies(replica, scratch, a, b, c, sent);
  }

  /** What the steps need, and what they come to. */
  lemma Ready(cap: nat, first: Rec, mid: Rec, again: Rec, next: Rec)
    requires 3 * SMALL <= cap < 2 * SMALL + Dirty.LARGE
    ensures
      var a, b, c, d := Leftover.Image(first, 1), Leftover.Image(mid, 2), Leftover.Image(again, 3), Image(next, 3);
      var w := Rolled(a, b, c, d, cap, 3);
      && IsRecordAt(a, 1) && IsRecordAt(b, 2) && IsRecordAt(c, 3)
      && w.segs != [] && w.durable == 3 && Flat(w.segs) == [a, b, d] && c != d
      && Stream.Taken(Concat([b, c]), 2) == ([b, c], true) && Stream.RestoredAll([b, c]) == [b, c]
  {
    hide Leftover.Three, Leftover.Image, Image, Zeros, Flat, Concat, WriteAt, Meets, Stray.Within, Stray.Reads,
      Stream.Taken, Rolled, Stream.RestoredAll, IsRecordAt;
    var a, b, c, d := Leftover.Image(first, 1), Leftover.Image(mid, 2), Leftover.Image(again, 3), Image(next, 3);
    Leftover.ImageIs(first, 1);
    Leftover.ImageIs(mid, 2);
    Leftover.ImageIs(again, 3);
    KeptIsSent(a, b, c, d, cap, 2 * SMALL);
    StoredAsTheyAre(b, c, mid, again);
    RolledIs(a, b, c, d, cap);
  }

  lemma RolledIs(a: seq<byte>, b: seq<byte>, c: seq<byte>, d: seq<byte>, cap: nat)
    requires |a| == |b| == |c| == SMALL && |d| == Dirty.LARGE && 3 * SMALL <= cap
    ensures Rolled(a, b, c, d, cap, 3).segs != [] && Rolled(a, b, c, d, cap, 3).durable == 3
  {}
}
