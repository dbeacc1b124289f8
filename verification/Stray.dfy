/**
 A read that goes past a finished segment's records. Exactly when one can, what
 it then sends, what a replica takes of that, and a run in which it takes a
 record that its leader has not logged.
 */
module Stray {
  import opened Bytes
  import opened Record
  import opened Store
  import opened Cursor
  import Segment
  import Stream

  // ---- exactly when a read can ----

  /** A whole record stands behind the segment's own, and is numbered as the next. */
  predicate Strays(s: Seg) {
    && |Concat(s.images)| + HEADER <= |s.file| && !IsEnd(LeftAt(s))
    && LeftAt(s).seqno == s.base + |s.images|
    && 0 < SizeOf(LeftAt(s)) && |Concat(s.images)| + SizeOf(LeftAt(s)) <= |s.file|
  }

  lemma StaleStrays(s: Seg, k: nat, limit: nat, room: nat)
    requires k <= |s.images|
    ensures Stale(s, k, limit, room) ==> Strays(s) && s.base + |s.images| <= limit
    ensures Strays(s) && s.base + |s.images| <= limit && |Concat(s.images[k..])| + |s.file| <= room ==>
      Stale(s, k, limit, room)
  {
    hide Concat, LeftAt, SizeOf;
  }

  /** What a read from record k of segment j takes. */
  ghost function TakenAt(w: Log, j: nat, k: nat, limit: nat, room: nat): seq<seq<byte>> {
    Meets(w, j, k, limit, room).imgs
  }

  /** A place in the log and a limit that a server's read may have. */
  ghost predicate Reads(w: Log, j: nat, k: nat, limit: nat) {
    && j < |w.segs| && k <= |w.segs[j].images| && w.segs[j].base + k <= limit < Next(w)
  }

  /** The read takes the segment's own records and nothing past them. */
  ghost predicate Within(w: Log, j: nat, k: nat, limit: nat, room: nat)
    requires Reads(w, j, k, limit)
  {
    |TakenAt(w, j, k, limit, room)| <= |w.segs[j].images| - k
  }

  /** Of one segment: a read keeps to its records or goes past them, and which is settled by what is there. */
  lemma SegWithin(s: Seg, cap: nat, k: nat, limit: nat, room: nat)
    requires SegOk(s, cap) && k <= |s.images| && s.base + k <= limit && |Concat(s.images[..k])| <= |s.file|
    ensures var imgs := Sees(BlockAt(s, k, room), s.base + k, limit).imgs;
      if Stale(s, k, limit, room) then |imgs| > |s.images| - k && imgs[..|s.images| - k] == s.images[k..]
      else k + |imgs| <= |s.images| && imgs == s.images[k..k + |imgs|]
  {
    hide SegOk, Concat, Sees, BlockAt, Foul, Stale, LeftBytes;
    FoulOrStale(s, k, limit, room);
    SegRead(s, cap, k, limit, room);
  }

  /** A read within its segment takes the records the log has there; one that is not, theirs and then others. */
  lemma WithinIs(w: Log, j: nat, k: nat, limit: nat, room: nat)
    requires Placed(w) && Reads(w, j, k, limit)
    ensures Within(w, j, k, limit, room) <==> !Stale(w.segs[j], k, limit, room)
    ensures var imgs, n := TakenAt(w, j, k, limit, room), w.segs[j].base + k;
      if Within(w, j, k, limit, room) then Origin(w) <= n && n + |imgs| <= End(w) && imgs == Slice(w, n, n + |imgs|)
      else |imgs| > |w.segs[j].images| - k && imgs[..|w.segs[j].images| - k] == w.segs[j].images[k..]
  {
    hide Placed, Concat, Sees, BlockAt, Foul, Stale, Slice, End, Meets, SegOk;
    MeetsSeg(w, j, k, limit, room);
    SegOkAt(w, j);
    SegWithin(w.segs[j], w.cap, k, limit, room);
    if Within(w, j, k, limit, room) { SegSlice(w, j, k, k + |TakenAt(w, j, k, limit, room)|); }
  }

  lemma MeetsSeg(w: Log, j: nat, k: nat, limit: nat, room: nat)
    requires Placed(w) && Reads(w, j, k, limit)
    ensures |Concat(w.segs[j].images[..k])| <= |w.segs[j].file|
    ensures Meets(w, j, k, limit, room) == Sees(BlockAt(w.segs[j], k, room), w.segs[j].base + k, limit)
  {
    hide Placed, Concat, Sees, BlockAt, SegOk;
    SegOkAt(w, j);
    OffsetOf(w.segs[j], w.cap, k);
  }

  lemma FoulOrStale(s: Seg, k: nat, limit: nat, room: nat)
    requires k <= |s.images|
    ensures !(Foul(s, k, limit, room) && Stale(s, k, limit, room))
    ensures s.images[k..|s.images|] == s.images[k..]
  {
    hide Concat, LeftAt, SizeOf;
  }

  /** No finished segment whose end the log has gone past has such a record behind it. */
  predicate NoneStrays(w: Log)
    requires w.segs != []
  {
    forall j :: 0 <= j < |w.segs| - 1 && w.segs[j].base + |w.segs[j].images| < Next(w) ==> !Strays(w.segs[j])
  }

  /**
   Every read of the log, from any place, under any limit it has reached and
   into any room, keeps within its segment's own records if and only if no
   finished segment has a whole record behind its own that is numbered as the
   next. With unwritten space behind every finished segment none has.
   */
  lemma ReadsWithinIff(w: Log)
    requires Placed(w)
    ensures NoneStrays(w) <==>
      forall j: nat, k: nat, limit: nat, room: nat :: Reads(w, j, k, limit) ==> Within(w, j, k, limit, room)
    ensures Good(w) ==> NoneStrays(w)
  {
    hide Chain, Concat, Strays, Within, EndsClean;
    if NoneStrays(w) {
      forall j: nat, k: nat, limit: nat, room: nat | Reads(w, j, k, limit)
        ensures Within(w, j, k, limit, room)
      {
        hide Placed;
        WithinIs(w, j, k, limit, room);
        StaleStrays(w.segs[j], k, limit, room);
      }
    } else {
      var j: nat :| j < |w.segs| - 1 && w.segs[j].base + |w.segs[j].images| < Next(w) && Strays(w.segs[j]);
      hide Placed, NoneStrays;
      var s := w.segs[j];
      var limit, room := s.base + |s.images|, |Concat(s.images[0..])| + |s.file|;
      assert Reads(w, j, 0, limit);
      StaleStrays(s, 0, limit, room);
      WithinIs(w, j, 0, limit, room);
    }
    if Good(w) { CleanNone(w); }
  }

  lemma CleanNone(w: Log)
    requires Good(w)
    ensures NoneStrays(w)
  {
    hide Chain, Concat, Strays, EndsClean, SegOk;
    forall j | 0 <= j < |w.segs| - 1
      ensures !Strays(w.segs[j])
    {
      SegOkAt(w, j);
      CleanStays(w.segs[j], w.cap);
    }
  }

  lemma CleanStays(s: Seg, cap: nat)
    requires EndsClean(s, cap) && SegOk(s, cap)
    ensures !Strays(s)
  {
    hide Concat, Decode, Segment.IsRun;
  }

  // ---- what a replica takes of it ----

  /** The records a replica would take of what stands behind a segment's own. */
  ghost function Leaves(s: Seg): seq<seq<byte>> {
    if |Concat(s.images)| <= |s.file| then Stream.Taken(s.file[|Concat(s.images)|..], s.base + |s.images|).0 else []
  }

  /** Unwritten space leaves nothing. */
  lemma CleanLeaves(s: Seg, cap: nat)
    requires SegOk(s, cap) && EndsClean(s, cap)
    ensures Leaves(s) == []
  {
    hide Concat, Decode, Segment.IsRun, Verify, SizeOf;
    var rest := s.file[|Concat(s.images)|..];
    if |rest| >= HEADER {
      assert rest[..HEADER] == s.file[|Concat(s.images)|..|Concat(s.images)| + HEADER];
      DecodePrefix(rest, rest[..HEADER]);
    }
  }

  /** Dense records at the front are all taken, and the rest as it would be alone. */
  lemma {:induction false} TakenOver(imgs: seq<seq<byte>>, rest: seq<byte>, next: nat)
    requires forall i :: 0 <= i < |imgs| ==> IsRecordAt(imgs[i], next + i)
    ensures Stream.Taken(Concat(imgs) + rest, next).0 == imgs + Stream.Taken(rest, next + |imgs|).0
    decreases |imgs|
  {
    hide Stream.Due, IsRecordAt, Decode, SizeOf;
    if imgs == [] {
      assert Concat(imgs) + rest == rest;
      assert imgs + Stream.Taken(rest, next).0 == Stream.Taken(rest, next).0;
    } else {
      var img, tail := imgs[0], Concat(imgs[1..]) + rest;
      assert IsRecordAt(img, next + 0);
      Stream.DueFront(img, tail, next);
      assert Concat(imgs) + rest == img + tail;
      forall i | 0 <= i < |imgs[1..]|
        ensures IsRecordAt(imgs[1..][i], next + 1 + i)
      {
        assert IsRecordAt(imgs[i + 1], next + (i + 1));
      }
      TakenOver(imgs[1..], rest, next + 1);
      assert imgs == [img] + imgs[1..];
      assert [img] + (imgs[1..] + Stream.Taken(rest, next + |imgs|).0) == imgs + Stream.Taken(rest, next + |imgs|).0;
    }
  }

  /** A record taken from the front of some bytes is taken from the front of any that go on from them. */
  lemma DueMore(p: seq<byte>, q: seq<byte>, next: nat)
    requires Stream.Due(p, next) && |p| >= HEADER && SizeOf(Decode(p)) <= |q| && |q| >= HEADER
    requires q[..SizeOf(Decode(p))] == p[..SizeOf(Decode(p))]
    ensures Stream.Due(q, next) && Decode(q) == Decode(p)
  {
    var n := SizeOf(Decode(p));
    assert q[..HEADER] == q[..n][..HEADER] == p[..n][..HEADER] == p[..HEADER];
    hide Decode;
    DecodePrefix(p, q);
    Segment.VerifyLonger(p, q, Decode(p));
  }

  /**
   Of what a walk takes at its word, a replica takes a front part of what it
   would take of all the bytes there are.
   */
  lemma {:induction false} SeenTaken(q: seq<byte>, r: seq<byte>, next: nat, limit: nat)
    requires |q| <= |r| && q == r[..|q|]
    ensures Stream.Taken(Concat(Sees(q, next, limit).imgs), next).0 <= Stream.Taken(r, next).0
    decreases |q|
  {
    hide Stream.Due, Decode, SizeOf, Concat;
    var s := Sees(q, next, limit);
    if s.imgs == [] {
      ConcatEmpty(s.imgs);
    } else {
      var n := SizeOf(Decode(q));
      var img, t := q[..n], Sees(q[n..], next + 1, limit);
      var p := Concat(s.imgs);
      Segment.ConcatCons(img, t.imgs);
      WholeFront(q, img);
      assert p == img + Concat(t.imgs);
      assert p[..n] == img && p[n..] == Concat(t.imgs) && r[..n] == img;
      FrontIs(img, p);
      if Stream.Due(p, next) {
        DueMore(p, r, next);
        assert q[n..] == r[n..][..|q| - n];
        SeenTaken(q[n..], r[n..], next + 1, limit);
      }
    }
  }

  lemma ConcatEmpty(imgs: seq<seq<byte>>)
    requires imgs == []
    ensures Concat(imgs) == []
  {}

  lemma FrontIs(img: seq<byte>, p: seq<byte>)
    requires Whole(img) && |p| >= |img| && p[..|img|] == img
    ensures |p| >= HEADER && Decode(p) == Decode(img) && SizeOf(Decode(p)) == |img|
  {
    hide Decode;
    assert p[..HEADER] == p[..|img|][..HEADER] == img[..HEADER];
    DecodePrefix(p, img);
  }

  /**
   What a replica takes of a read: the segment's own records from there on, as
   many as were read, and once they are all there a front part of what the
   segment leaves behind.
   */
  lemma ReplicaTakes(w: Log, j: nat, k: nat, limit: nat, room: nat)
    requires Placed(w) && Reads(w, j, k, limit)
    ensures var s := w.segs[j];
      var got := Stream.Taken(Concat(TakenAt(w, j, k, limit, room)), s.base + k).0;
      || got <= s.images[k..]
      || (s.images[k..] <= got && got[|s.images| - k..] <= Leaves(s) && !Within(w, j, k, limit, room))
  {
    hide Placed, Concat, BlockAt, Foul, Stale, Slice, End, Stream.Taken, IsRecordAt, Sees, Meets, SegOk, Leaves;
    MeetsSeg(w, j, k, limit, room);
    SegOkAt(w, j);
    WithinIs(w, j, k, limit, room);
    var s, imgs := w.segs[j], TakenAt(w, j, k, limit, room);
    DenseFrom(s, w.cap, k);
    SegWithin(s, w.cap, k, limit, room);
    if Within(w, j, k, limit, room) {
      assert imgs == s.images[k..][..|imgs|];
      assert forall i :: 0 <= i < |imgs| ==> imgs[i] == s.images[k..][i];
      Stream.FrameTaken(imgs, s.base + k);
    } else {
      PastRecords(s, w.cap, k, limit, room);
    }
  }

  lemma DenseFrom(s: Seg, cap: nat, k: nat)
    requires SegOk(s, cap) && k <= |s.images|
    ensures forall i :: 0 <= i < |s.images[k..]| ==> IsRecordAt(s.images[k..][i], s.base + k + i)
  {
    hide IsRecordAt, Concat;
    forall i | 0 <= i < |s.images[k..]|
      ensures IsRecordAt(s.images[k..][i], s.base + k + i)
    {
      assert IsRecordAt(s.images[k + i], s.base + (k + i));
    }
  }

  lemma PastRecords(s: Seg, cap: nat, k: nat, limit: nat, room: nat)
    requires SegOk(s, cap) && k <= |s.images| && s.base + k <= limit && Stale(s, k, limit, room)
    ensures |Concat(s.images[..k])| <= |s.file| && |Concat(s.images)| <= |s.file|
    ensures var imgs := Sees(BlockAt(s, k, room), s.base + k, limit).imgs;
      var got := Stream.Taken(Concat(imgs), s.base + k).0;
      s.images[k..] <= got && got[|s.images| - k..] <= Leaves(s)
  {
    hide Concat, Foul, Stale, Stream.Taken, IsRecordAt, Sees, SegOk, Stops, BlockAt, LeftAt, SizeOf, Decode;
    OffsetOf(s, cap, k);
    StaleRoom(s, k, limit, room);
    var b, n, due := BlockAt(s, k, room), |Concat(s.images[k..])|, s.base + |s.images|;
    BlockLong(s, k, room, n);
    SegSees(s, cap, k, limit, room);
    LeftOf(s, cap, k, room);
    var more := Sees(b[n..], due, limit).imgs;
    DenseFrom(s, cap, k);
    SplitTaken(s.images[k..], more, s.base + k);
    var rest := s.file[|Concat(s.images)|..];
    assert b[n..] == rest[..|b[n..]|];
    SeenTaken(b[n..], rest, due, limit);
  }

  lemma SplitTaken(imgs: seq<seq<byte>>, more: seq<seq<byte>>, next: nat)
    requires forall i :: 0 <= i < |imgs| ==> IsRecordAt(imgs[i], next + i)
    ensures Stream.Taken(Concat(imgs + more), next).0 == imgs + Stream.Taken(Concat(more), next + |imgs|).0
  {
    hide Concat, Stream.Taken, IsRecordAt;
    ConcatAppend(imgs, more);
    TakenOver(imgs, Concat(more), next);
  }

  lemma BlockLong(s: Seg, k: nat, room: nat, n: nat)
    requires k <= |s.images| && |Concat(s.images[..k])| + n <= |s.file| && n <= room
    ensures n <= |BlockAt(s, k, room)|
  {
    hide Concat;
  }

  lemma StaleRoom(s: Seg, k: nat, limit: nat, room: nat)
    requires k <= |s.images| && Stale(s, k, limit, room)
    ensures s.base + |s.images| <= limit && |Concat(s.images[k..])| <= room
  {
    hide Concat, LeftAt;
  }
}
