/**
 Dropped tails: recovery leaves in place the bytes it gives up, and later
 records are written over the front of them. When that shows, and that it does.
 */
module Dirty {
  import opened Bytes
  import opened Record
  import opened Wrappers
  import opened Segment
  import opened Store
  import opened Recovery
  import opened Cursor

  // ---- when a reader meets it ----

  /** Segments that end in unwritten space have nothing for a reader to meet. */
  lemma CleanFair(s: Seg, cap: nat, k: nat, limit: nat, room: nat)
    requires SegOk(s, cap) && EndsClean(s, cap) && k <= |s.images|
    ensures !Foul(s, k, limit, room) && !Stale(s, k, limit, room)
  {
    hide IsRun, Concat, Decode, SizeOf;
  }

  lemma CleanRead(w: Log, at: nat, k: nat, limit: nat, room: nat)
    requires Good(w) && EndsClean(Last(w), w.cap) && at < |w.segs| && k <= |w.segs[at].images|
    ensures Fair(w, at, k, limit, room)
  {
    hide SegOk, Concat, EndsClean, Foul, Stale;
    SegOkAt(w, at);
    if at < |w.segs| - 1 { assert EndsClean(w.segs[at], w.cap); }
    CleanFair(w.segs[at], w.cap, k, limit, room);
  }

  /**
   When a pass over the log is refused. While every finished segment ends in
   unwritten space, and the limit is a sequence the log has, only a read that
   gets to a whole header at the write offset can be, and it is exactly when
   that header is neither unwritten space nor the sequence due there.
   */
  lemma RefusedIff(w: Log, at: nat, k: nat, limit: nat, room: nat)
    requires Good(w) && at < |w.segs| && k <= |w.segs[at].images| && w.segs[at].base + k <= limit < Next(w)
    ensures !Stale(w.segs[at], k, limit, room)
    ensures Foul(w.segs[at], k, limit, room) <==>
      && at == |w.segs| - 1 && limit == Next(w) - 1
      && w.writeOff + HEADER <= w.cap && |Concat(Last(w).images[k..])| + HEADER <= room
      && LeftAt(Last(w)).seqno != 0 && LeftAt(Last(w)).seqno != Next(w)
  {
    hide SegOk, Concat, EndsClean, Decode, SizeOf;
    LastOk(w);
    SegOkAt(w, at);
    if at < |w.segs| - 1 {
      assert EndsClean(w.segs[at], w.cap);
      CleanFair(w.segs[at], w.cap, k, limit, room);
    }
  }

  // ---- when the directory no longer opens ----

  lemma DirtyRefused(dir: seq<File>, l: Seg, cap: nat, scratch: nat)
    requires SegOk(l, cap) && !EndsClean(l, cap) && scratch >= MAX_SIZE
    requires |dir| > 1 && dir[0] == File(l.base, l.file) && dir[1].base == l.base + |l.images|
    ensures OpenFrom(dir, cap, scratch, l.base) == Err(Storage)
  {
    hide ScanFrom, Concat, CleanAt, IsRecordAt;
    var s := ScanFrom(l.file, cap, scratch, 0, l.base);
    ScanIsLongest(l.file, cap, scratch, 0, l.base, l.images);
    ScanIsRun(l.file, cap, scratch, 0, l.base);
    ScanNeverShort(l.file, cap, scratch, 0, l.base);
    if |s.images| == |l.images| { assert s.images == l.images; }
    assert dir[1..][0] == dir[1];
  }

  /** The segments of a log open again if and only if every finished one ends in unwritten space. */
  lemma {:induction false} OpensIffClean(segs: seq<Seg>, cap: nat, scratch: nat)
    requires segs != [] && Chain(segs, cap) && scratch >= MAX_SIZE
    ensures OpenFrom(Files(segs), cap, scratch, segs[0].base).Ok? <==> AllEndClean(segs, cap)
    ensures !AllEndClean(segs, cap) ==> OpenFrom(Files(segs), cap, scratch, segs[0].base) == Err(Storage)
    decreases |segs|
  {
    hide SegOk, EndsClean, ScanFrom, OpenFrom, Chain;
    var dir := Files(segs);
    assert dir[0..] == dir;
    OpenStep(dir, cap, scratch, 0, segs[0].base);
    FirstOk(segs, cap);
    if |segs| == 1 {
      FileNeverShort(segs[0], cap, scratch);
    } else {
      ChainTail(segs, cap);
      if EndsClean(segs[0], cap) {
        ClosedScan(segs, 0, cap, scratch);
        OpensIffClean(segs[1..], cap, scratch);
        assert dir[1..] == Files(segs[1..]);
        EndsSplit(segs, cap);
      } else {
        DirtyRefused(dir, segs[0], cap, scratch);
      }
    }
  }

  lemma FirstOk(segs: seq<Seg>, cap: nat)
    requires segs != [] && Chain(segs, cap)
    ensures SegOk(segs[0], cap)
  {
    hide SegOk;
  }

  lemma FileNeverShort(s: Seg, cap: nat, scratch: nat)
    requires SegOk(s, cap) && scratch >= MAX_SIZE
    ensures ScanFrom(s.file, cap, scratch, 0, s.base).stop != NoRoom
  {
    hide ScanFrom, IsRun;
    ScanNeverShort(s.file, cap, scratch, 0, s.base);
  }

  lemma EndsSplit(segs: seq<Seg>, cap: nat)
    requires |segs| > 1
    ensures AllEndClean(segs, cap) <==> EndsClean(segs[0], cap) && AllEndClean(segs[1..], cap)
  {
    hide EndsClean;
    var t := segs[1..];
    if EndsClean(segs[0], cap) && AllEndClean(t, cap) {
      forall i | 0 <= i < |segs| - 1
        ensures EndsClean(segs[i], cap)
      {
        if i > 0 { assert EndsClean(t[i - 1], cap); }
      }
    } else if AllEndClean(segs, cap) {
      forall i | 0 <= i < |t| - 1
        ensures EndsClean(t[i], cap)
      {
        assert EndsClean(segs[i + 1], cap);
      }
    }
  }

  // ---- one torn write, and what comes of it ----

  const LARGE: nat := 120
  const SMALL: nat := 56

  function Ones(n: nat): (s: seq<byte>)
    ensures |s| == n
  {
    seq(n, _ => 1)
  }

  /** A record of sixty-four bytes, all ones, and one of none. */
  function Large(r: Rec): Rec {
    r.(len := 64)
  }

  function Small(r: Rec): Rec {
    r.(len := 0)
  }

  /** A log of one empty segment, whatever is in its file. */
  function Empty(cap: nat, file: seq<byte>): Log {
    Log(cap, [Seg(1, [], file)], 0, 0, 0, 0)
  }

  function Image(r: Rec): seq<byte> {
    Encode(Large(r).(seqno := 1), Ones(64))
  }

  /** The first write of all, of which the last four bytes never got to the disk. */
  function Torn(cap: nat, r: Rec): (s: seq<byte>)
    requires LARGE <= cap
    ensures |s| == cap
  {
    Image(r)[..LARGE - 4] + Zeros(cap - LARGE + 4)
  }

  lemma FirstWrite(cap: nat, file: seq<byte>, r: Rec, payload: seq<byte>)
    requires LARGE <= cap && |payload| == r.len <= 64
    ensures var w, img := Empty(cap, file), Encode(r.(seqno := 1), payload);
      && |img| == SizeOf(r) == HEADER + Padded(r.len)
      && Append(w, r, payload, MAX_SIZE)
      == (Log(cap, [Seg(1, [img], WriteAt(file, 0, img))], 0, |img|, 0, 0), Ok(1))
  {
    hide Encode, WriteAt;
    var img, w := Encode(r.(seqno := 1), payload), Empty(cap, file);
    assert [] + [img] == [img];
    assert w.segs[..0] + [Seg(1, [img], WriteAt(file, 0, img))] == [Seg(1, [img], WriteAt(file, 0, img))];
    assert RollIfFull(w, SizeOf(r)) == w;
  }

  /** The record before the tear. */
  lemma WholeBytes(r: Rec)
    ensures IsRecordAt(Image(r), 1) && |Image(r)| == LARGE && Decode(Image(r)).len == 64
    ensures Image(r)[HEADER..LARGE] == Ones(64) && SizeOf(Decode(Image(r))) == LARGE
  {
    EncodedAt(Large(r).(seqno := 1), Ones(64));
    EncodeDecodes(Large(r).(seqno := 1), Ones(64));
    hide Encode, Decode, Verify;
  }

  lemma CutAt(a: seq<byte>, b: seq<byte>, file: seq<byte>)
    requires file == a + b && |a| == LARGE - 4 && |b| >= 4
    ensures file[..LARGE - 4] == a && file[LARGE - 4] == b[0] && file[HEADER..LARGE - 4] == a[HEADER..]
  {}

  /** And what is on disk after it. */
  lemma TornBytes(cap: nat, r: Rec)
    requires LARGE <= cap
    ensures var img, file := Image(r), Torn(cap, r);
      && |img| == LARGE && file[..LARGE - 4] == img[..LARGE - 4] && file[LARGE - 4] == 0 && img[LARGE - 4] == 1
      && file[HEADER..LARGE - 4] == Ones(60)
  {
    WholeBytes(r);
    hide Image, Zeros, Decode, IsRecordAt, SizeOf;
    var img := Image(r);
    CutAt(img[..LARGE - 4], Zeros(cap - LARGE + 4), Torn(cap, r));
    hide Torn;
    assert img[..LARGE - 4][HEADER..] == img[HEADER..LARGE][..60] == Ones(60);
    assert img[LARGE - 4] == img[HEADER..LARGE][60];
  }

  /** Recovery drops the torn record: its checksum cannot match. */
  lemma TornHalts(cap: nat, scratch: nat, r: Rec)
    requires LARGE <= cap && scratch >= MAX_SIZE
    ensures ProbeAt(Torn(cap, r), cap, scratch, 0, 1) == Halt(Stop.Torn)
  {
    hide Image, Decode, Verify, SizeOf, Torn;
    var img, file := Image(r), Torn(cap, r);
    WholeBytes(r);
    TornBytes(cap, r);
    var cut := file[0..LARGE];
    assert cut[LARGE - 4] == 0 && cut[..LARGE - 4] == img[..LARGE - 4];
    assert cut[LARGE - 4 + 4..] == img[LARGE - 4 + 4..] == [];
    BurstRejected(img, cut, LARGE - 4, 4);
    assert cut[..HEADER] == cut[..LARGE - 4][..HEADER] == img[..LARGE - 4][..HEADER] == img[..HEADER];
    DecodePrefix(cut, img);
    assert file[0..0 + HEADER] == cut[..HEADER];
    DecodePrefix(file[0..0 + HEADER], img);
  }

  lemma TornDropped(cap: nat, scratch: nat, r: Rec)
    requires LARGE <= cap && scratch >= MAX_SIZE
    ensures OpenFrom([File(1, Torn(cap, r))], cap, scratch, 1) == Ok(Opened([[]], true))
  {
    hide ProbeAt, Torn;
    TornHalts(cap, scratch, r);
  }

  /** The crash: one record appended and not flushed, and torn on the disk. */
  lemma TornCrash(cap: nat, r: Rec)
    requires LARGE <= cap
    ensures var w := Append(Empty(cap, Zeros(cap)), Large(r), Ones(64), MAX_SIZE);
      w.1 == Ok(1) && CrashLeaves(w.0, 0, [File(1, Torn(cap, r))])
  {
    hide Append, Torn, WriteAt;
    FirstWrite(cap, Zeros(cap), Large(r), Ones(64));
    WriteAtLength(Zeros(cap), 0, Image(r));
    var w := Append(Empty(cap, Zeros(cap)), Large(r), Ones(64), MAX_SIZE).0;
    assert w.segs[0..0] == [];
    assert Files([]) == [];
  }

  /** What reopening the directory comes to. */
  lemma TornReopened(cap: nat, r: Rec)
    requires LARGE <= cap
    ensures Reopened([File(1, Torn(cap, r))], cap, Opened([[]], true)) == Empty(cap, Torn(cap, r))
    ensures Good(Empty(cap, Torn(cap, r))) && Flat(Empty(cap, Torn(cap, r)).segs) == []
  {
    hide Torn, OpenFrom, Good, Placed;
    var dir := [File(1, Torn(cap, r))];
    TornDropped(cap, MAX_SIZE, r);
    assert SegsOf(dir, [[]]) == [Seg(1, [], Torn(cap, r))];
    ReopenGood(dir, cap, MAX_SIZE);
    FlatOne(Seg(1, [], Torn(cap, r)));
  }

  /** After the small write: the log, and what stands at its write offset. */
  function Rewritten(cap: nat, r: Rec, small: Rec): Log
    requires LARGE <= cap
  {
    Append(Empty(cap, Torn(cap, r)), Small(small), [], MAX_SIZE).0
  }

  lemma OddOne(s: seq<byte>)
    requires |s| == 8 && s[0] == 1
    ensures FromLe(s) != 0 && FromLe(s) != 2
  {}

  lemma RewrittenIs(cap: nat, r: Rec, small: Rec)
    requires LARGE <= cap
    ensures Append(Empty(cap, Torn(cap, r)), Small(small), [], MAX_SIZE).1 == Ok(1)
    ensures var u := Rewritten(cap, r, small);
      && Good(u) && |u.segs| == 1 && u.gone == 0 && u.cap == cap && u.segs[0].base == 1 && u.durable == 0
      && |u.segs[0].images| == 1 && |u.segs[0].images[0]| == SMALL
      && u.writeOff == |Concat(u.segs[0].images)| == SMALL && |u.segs[0].file| == cap
      && LeftAt(u.segs[0]).seqno != 0 && LeftAt(u.segs[0]).seqno != 2
  {
    hide Torn, Encode, WriteAt, Chain;
    var file := Torn(cap, r);
    TornReopened(cap, r);
    AppendKeeps(Empty(cap, file), Small(small), [], MAX_SIZE);
    FirstWrite(cap, file, Small(small), []);
    hide Append, Placed;
    var img := Encode(Small(small).(seqno := 1), []);
    ConcatOne(img);
    TornBytes(cap, r);
    WriteAtLength(file, 0, img);
    Behind(file, img);
    var left := WriteAt(file, 0, img)[SMALL..SMALL + HEADER];
    assert left[16..24][0] == WriteAt(file, 0, img)[SMALL + 16];
    OddOne(left[16..24]);
  }

  lemma Behind(file: seq<byte>, img: seq<byte>)
    requires |img| == SMALL && |file| >= LARGE && file[HEADER..LARGE - 4] == Ones(60)
    ensures SMALL + HEADER <= |WriteAt(file, 0, img)|
    ensures WriteAt(file, 0, img)[SMALL + 16] == 1
  {
    assert file[SMALL + 16] == file[HEADER..LARGE - 4][16];
  }

  /**
   A write of 120 bytes is torn by a crash and dropped when the directory is
   opened again; a write of 56 bytes then goes over the front of it. From then
   on a reader with room for that record and a header is refused, though what
   it asks for has been flushed.
   */
  lemma TornThenRefused(cap: nat, scratch: nat, r: Rec, small: Rec, room: nat)
    requires LARGE <= cap && scratch >= MAX_SIZE && SMALL + HEADER <= room
    ensures var w, dir := Append(Empty(cap, Zeros(cap)), Large(r), Ones(64), MAX_SIZE), [File(1, Torn(cap, r))];
      && w.1 == Ok(1) && CrashLeaves(w.0, 0, dir)
      && OpenFrom(dir, cap, scratch, 1) == Ok(Opened([[]], true))
      && var u := Append(Reopened(dir, cap, Opened([[]], true)), Small(small), [], MAX_SIZE);
         && u.1 == Ok(1) && Good(u.0) && Sync(u.0).durable == 1
         && Foul(Sync(u.0).segs[0], 0, 1, room)
  {
    hide Append, Torn, Good, OpenFrom, CrashLeaves, LeftAt, Concat;
    TornCrash(cap, r);
    TornDropped(cap, scratch, r);
    TornReopened(cap, r);
    RewrittenIs(cap, r, small);
  }

  /**
   And the next write that does not fit rolls over: the log goes on, and its
   directory never opens again.
   */
  lemma TornThenClosed(cap: nat, scratch: nat, r: Rec, small: Rec, next: Rec)
    requires LARGE <= cap < SMALL + LARGE && scratch >= MAX_SIZE
    ensures var u := Sync(Rewritten(cap, r, small));
      var x := Append(u, Large(next), Ones(64), MAX_SIZE);
      && x.1 == Ok(2) && Placed(x.0) && FirstSeq(x.0) == 1
      && OpenFrom(Files(Linked(x.0)), cap, scratch, 1) == Err(Storage)
  {
    hide Append, Torn, OpenFrom, CrashLeaves, LeftAt, Concat, Rewritten, Chain, AllEndClean, Encode, SizeOf;
    RewrittenIs(cap, r, small);
    var u := Sync(Rewritten(cap, r, small));
    SyncPlaced(Rewritten(cap, r, small));
    LargeFits(next, cap);
    AppendKeeps(u, Large(next), Ones(64), MAX_SIZE);
    var x := Append(u, Large(next), Ones(64), MAX_SIZE).0;
    RolledOver(u, Large(next), Ones(64), x);
    LeftDirty(u.segs[0], cap);
    hide Placed;
    OpensIffClean(x.segs, cap, scratch);
    assert Linked(x) == x.segs;
    assert !AllEndClean(x.segs, cap) by { FirstDirty(x.segs, cap); }
  }

  lemma LargeFits(r: Rec, cap: nat)
    requires LARGE <= cap
    ensures SizeOf(Large(r)) == LARGE <= cap && LARGE <= MAX_SIZE
  {}

  /** The record does not fit behind what is there, so the segment is left as it is. */
  lemma RolledOver(w: Log, r: Rec, payload: seq<byte>, v: Log)
    requires |w.segs| == 1 && w.gone == 0 && w.writeOff <= |Last(w).file| && Next(w) < U64_LIMIT
    requires w.writeOff + SizeOf(r) > w.cap && 0 < SizeOf(r) <= w.cap && SizeOf(r) <= MAX_SIZE && |payload| == r.len
    requires v == Append(w, r, payload, MAX_SIZE).0
    ensures |v.segs| == 2 && v.segs[0] == w.segs[0] && v.gone == 0
  {
    hide Encode, WriteAt, SizeOf, Concat;
  }

  lemma LeftDirty(s: Seg, cap: nat)
    requires |s.file| == cap && |Concat(s.images)| + HEADER <= cap && LeftAt(s).seqno != 0
    ensures !EndsClean(s, cap)
  {
    hide Concat, Decode;
  }

  lemma FirstDirty(segs: seq<Seg>, cap: nat)
    requires |segs| > 1 && !EndsClean(segs[0], cap)
    ensures !AllEndClean(segs, cap)
  {
    hide EndsClean;
  }
}
