/**
 What a replica does with a frame of records: each is checked and appended at
 the sequence it carries, so its log becomes the leader's byte for byte.
 */
module Stream {
  import opened Bytes
  import opened Record
  import opened Wrappers
  import opened Store
  import opened Wal
  import opened Sessions
  import opened SessionLog
  import Segment
  import KeyIndex
  import SegTable

  /** Whether the record at the front is whole, intact and the one due. */
  predicate Due(p: seq<byte>, next: nat) {
    && |p| >= HEADER && 0 < SizeOf(Decode(p)) <= |p|
    && Verify(p, Decode(p)) && Decode(p).seqno == next
  }

  /** The records of a payload a replica takes, and whether they are all of it. */
  function Taken(p: seq<byte>, next: nat): (r: (seq<seq<byte>>, bool))
    decreases |p|
  {
    if p == [] then ([], true)
    else if !Due(p, next) then ([], false)
    else
      var size := SizeOf(Decode(p));
      var (rest, all) := Taken(p[size..], next + 1);
      ([p[..size]] + rest, all)
  }

  /** A record as this log writes it. */
  function Restored(img: seq<byte>): seq<byte> {
    if IsRecord(img) then Encode(Decode(img), Payload(img)) else img
  }

  function RestoredAll(imgs: seq<seq<byte>>): (r: seq<seq<byte>>)
    ensures |r| == |imgs| && forall i :: 0 <= i < |r| ==> r[i] == Restored(imgs[i])
  {
    seq(|imgs|, i requires 0 <= i < |imgs| => Restored(imgs[i]))
  }

  function SentOf(img: seq<byte>): Sent {
    if |img| >= HEADER then Sent(Decode(img).session, Decode(img).clientSeq) else Sent(0, 0)
  }

  /** The session table after so many records. */
  function Seen(t: seq<Sess>, imgs: seq<seq<byte>>): seq<Sess> {
    if imgs == [] then t
    else
      var r := SentOf(imgs[|imgs| - 1]);
      Observed(Seen(t, imgs[..|imgs| - 1]), r.session, r.clientSeq)
  }

  lemma DueIsRecord(p: seq<byte>, next: nat)
    requires Due(p, next)
    ensures var img := p[..SizeOf(Decode(p))];
      && IsRecordAt(img, next) && Decode(img) == Decode(p) && |img| == SizeOf(Decode(p))
      && HEADER + Decode(p).len <= |img| && Payload(img) == p[HEADER..HEADER + Decode(p).len]
  {
    var r := Decode(p);
    var img := p[..SizeOf(r)];
    hide Decode;
    DecodePrefix(p, img);
    VerifyPrefix(p, img, r);
  }

  lemma VerifyPrefix(p: seq<byte>, img: seq<byte>, r: Rec)
    requires |p| >= |img| >= HEADER && p[..|img|] == img && SizeOf(r) == |img| && Verify(p, r)
    ensures Verify(img, r) && HEADER + r.len <= |img| && p[HEADER..HEADER + r.len] == img[HEADER..HEADER + r.len]
  {
    hide Crc32c.Sum;
    var n := |img|;
    assert p[..n][4..n] == p[4..n];
    assert p[..n][HEADER..HEADER + r.len] == p[HEADER..HEADER + r.len];
  }

  lemma {:induction false} TakenDense(p: seq<byte>, next: nat)
    ensures forall i :: 0 <= i < |Taken(p, next).0| ==> IsRecordAt(Taken(p, next).0[i], next + i)
    decreases |p|
  {
    hide Due, IsRecordAt, Decode, SizeOf, Verify;
    if p != [] && Due(p, next) {
      DueShorter(p, next);
      DueIsRecord(p, next);
      var size := SizeOf(Decode(p));
      TakenDense(p[size..], next + 1);
      DenseCons(p[..size], Taken(p[size..], next + 1).0, next);
    }
  }

  /**
   What is taken of any bytes is the longest run there is of records numbered on
   from the next one due, and it is all of them if and only if nothing is left.
   */
  lemma {:induction false} TakenLongest(p: seq<byte>, next: nat)
    ensures var (imgs, all) := Taken(p, next);
      && |Concat(imgs)| <= |p| && Concat(imgs) == p[..|Concat(imgs)|]
      && (all <==> Concat(imgs) == p)
      && (all ||
          var rest := p[|Concat(imgs)|..];
          forall k :: 0 <= k <= |rest| ==> !IsRecordAt(rest[..k], next + |imgs|))
    decreases |p|
  {
    hide Due, IsRecordAt, Decode, SizeOf, Verify;
    if p == [] {
    } else if Due(p, next) {
      DueShorter(p, next);
      var size := SizeOf(Decode(p));
      TakenLongest(p[size..], next + 1);
      var (rest, all) := Taken(p[size..], next + 1);
      ConcatCons(p[..size], rest);
      assert p[size..][|Concat(rest)|..] == p[size + |Concat(rest)|..];
    } else {
      assert p[0..] == p;
      forall k | 0 <= k <= |p|
        ensures !IsRecordAt(p[..k], next)
      {
        NotDueFront(p, k, next);
      }
    }
  }

  lemma NotDueFront(p: seq<byte>, k: nat, next: nat)
    requires k <= |p| && !Due(p, next)
    ensures !IsRecordAt(p[..k], next)
  {
    hide Due, IsRecordAt;
    assert p == p[..k] + p[k..];
    if IsRecordAt(p[..k], next) {
      DueFront(p[..k], p[k..], next);
    }
  }

  lemma ConcatCons(img: seq<byte>, rest: seq<seq<byte>>)
    ensures Concat([img] + rest) == img + Concat(rest)
  {
    assert ([img] + rest)[1..] == rest;
  }

  lemma DenseCons(img: seq<byte>, rest: seq<seq<byte>>, next: nat)
    requires IsRecordAt(img, next) && forall i :: 0 <= i < |rest| ==> IsRecordAt(rest[i], next + 1 + i)
    ensures forall i :: 0 <= i < |[img] + rest| ==> IsRecordAt(([img] + rest)[i], next + i)
  {
    hide IsRecordAt;
    forall i | 0 <= i < |[img] + rest|
      ensures IsRecordAt(([img] + rest)[i], next + i)
    {
      if i > 0 { assert IsRecordAt(rest[i - 1], next + 1 + (i - 1)); }
    }
  }

  /** What a leader sends, records in order from the next one due, is taken whole. */
  lemma {:induction false} FrameTaken(imgs: seq<seq<byte>>, next: nat)
    requires forall i :: 0 <= i < |imgs| ==> IsRecordAt(imgs[i], next + i)
    ensures Taken(Concat(imgs), next) == (imgs, true)
    decreases |imgs|
  {
    hide Due, IsRecordAt, Decode;
    if imgs != [] {
      var img, rest := imgs[0], Concat(imgs[1..]);
      assert IsRecordAt(img, next + 0);
      DueFront(img, rest, next);
      forall i | 0 <= i < |imgs[1..]|
        ensures IsRecordAt(imgs[1..][i], next + 1 + i)
      {
        assert IsRecordAt(imgs[i + 1], next + (i + 1));
      }
      FrameTaken(imgs[1..], next + 1);
      assert imgs == [img] + imgs[1..];
    }
  }

  lemma DueFront(img: seq<byte>, rest: seq<byte>, next: nat)
    requires IsRecordAt(img, next)
    ensures var p := img + rest;
      && p != [] && Due(p, next) && |p| >= HEADER && SizeOf(Decode(p)) == |img|
      && p[..|img|] == img && p[|img|..] == rest
  {
    hide Decode, Crc32c.Sum;
    var p := img + rest;
    assert p[..|img|] == img;
    DecodePrefix(p, img);
    assert p[4..|img|] == img[4..|img|];
  }

  /** And what an encoder made is stored as it was sent, byte for byte. */
  lemma StoredAsSent(imgs: seq<seq<byte>>)
    requires forall i :: 0 <= i < |imgs| ==> Canonical(imgs[i])
    ensures RestoredAll(imgs) == imgs
  {
    hide Canonical, Encode, Decode, Payload, IsRecord;
    forall i | 0 <= i < |imgs|
      ensures Restored(imgs[i]) == imgs[i]
    {
      CanonicalReencodes(imgs[i]);
    }
    assert RestoredAll(imgs) == imgs;
  }

  lemma DueShorter(p: seq<byte>, next: nat)
    requires Due(p, next)
    ensures |p| >= HEADER && 0 < SizeOf(Decode(p)) <= |p|
  {}

  lemma SeenPush(t: seq<Sess>, imgs: seq<seq<byte>>, n: nat)
    requires n < |imgs|
    ensures Seen(t, imgs[..n + 1]) == Observed(Seen(t, imgs[..n]), SentOf(imgs[n]).session, SentOf(imgs[n]).clientSeq)
  {
    assert imgs[..n + 1][..n] == imgs[..n];
  }

  lemma RestoredPush(imgs: seq<seq<byte>>, n: nat)
    requires n < |imgs|
    ensures RestoredAll(imgs[..n + 1]) == RestoredAll(imgs[..n]) + [Restored(imgs[n])]
  {
    hide Restored;
    assert RestoredAll(imgs[..n + 1]) == RestoredAll(imgs[..n]) + [Restored(imgs[n])];
  }

  /** Whether this log can take a record of so many bytes. */
  predicate Takes(w: Log, size: nat, scratch: nat) {
    size <= w.cap && size <= scratch && HasRoom(w, size)
  }

  /** What an append at the next sequence leaves behind. */
  lemma AppendLeaves(w: Log, r: Rec, payload: seq<byte>, scratch: nat, v: Log, res: Result<nat>)
    requires Placed(w) && Appends(w, r, payload, scratch, v, res) && r.seqno == Next(w) && SizeOf(r) > 0
    ensures v.segs != [] && Next(v) == Next(w) + if res.Ok? then 1 else 0
    ensures res.Ok? ==> Flat(v.segs) == Flat(w.segs) + [Encode(r, payload)]
    ensures res.Err? ==> Flat(v.segs) == Flat(w.segs) && !Takes(v, SizeOf(r), scratch)
  {
    hide Chain, Flat, Encode;
    AppendKeeps(w, r, payload, scratch);
    assert r.(seqno := Next(w)) == r;
  }

  lemma NoneYet(t: seq<Sess>, imgs: seq<seq<byte>>)
    requires imgs == []
    ensures RestoredAll(imgs) == [] && Seen(t, imgs) == t
  {}

  /** A record of the frame, as it is checked and as it is appended. */
  lemma DueParts(p: seq<byte>, at: nat, next: nat)
    requires at <= |p| && Due(p[at..], next)
    ensures HEADER <= |p| - at
    ensures var r := Decode(p[at..]);
      && at + SizeOf(r) <= |p| && HEADER + r.len <= SizeOf(r)
      && var img := p[at..at + SizeOf(r)];
         && Restored(img) == Encode(r, p[at + HEADER..at + HEADER + r.len])
         && SentOf(img) == Sent(r.session, r.clientSeq)
  {
    hide Decode, Encode, Verify;
    DueIsRecord(p[at..], next);
    var r := Decode(p[at..]);
    assert p[at..][..SizeOf(r)] == p[at..at + SizeOf(r)];
    assert p[at..][HEADER..HEADER + r.len] == p[at + HEADER..at + HEADER + r.len];
  }

  /** One step of Taken from the middle of a payload. */
  lemma TakenNext(p: seq<byte>, next: nat, imgs: seq<seq<byte>>, all: bool, n: nat, at: nat)
    requires n <= |imgs| && at < |p| && Taken(p[at..], next + n) == (imgs[n..], all)
    ensures if Due(p[at..], next + n) then
        && n < |imgs| && HEADER <= |p| - at && var size := SizeOf(Decode(p[at..]));
           && 0 < size <= |p| - at && imgs[n] == p[at..at + size]
           && Taken(p[at + size..], next + n + 1) == (imgs[n + 1..], all)
      else n == |imgs| && !all
  {
    hide Verify, Decode;
    if Due(p[at..], next + n) {
      var size := SizeOf(Decode(p[at..]));
      assert p[at..][size..] == p[at + size..] && p[at..][..size] == p[at..at + size];
      assert imgs[n..][1..] == imgs[n + 1..] && imgs[n..][0] == imgs[n];
    }
  }

  /** Append a checked record and account for its session. */
  method ApplyOne(w: Wal, sessions: Table, rec: Rec, payload: seq<byte>, scratch: array<byte>) returns (ok: bool)
    requires w.Valid() && w.log.segs != [] && sessions.Valid() && scratch !in w.Repr()
    requires sessions !in w.Repr() && sessions.entries !in w.Repr()
    requires rec.seqno == Next(w.log) && SizeOf(rec) > 0 && |payload| == rec.len
    modifies w.Repr(), scratch, sessions, sessions.entries
    ensures w.Valid() && sessions.Valid() && fresh(w.Repr() - old(w.Repr())) && w.log.segs != []
    ensures Next(w.log) == old(Next(w.log)) + if ok then 1 else 0
    ensures Flat(w.log.segs) == if ok then old(Flat(w.log.segs)) + [Encode(rec, payload)] else old(Flat(w.log.segs))
    ensures sessions.List() ==
      if ok then Observed(old(sessions.List()), rec.session, rec.clientSeq) else old(sessions.List())
    ensures !ok ==> !Takes(w.log, SizeOf(rec), scratch.Length)
  {
    hide Chain, Flat, Mirrors, HoldsFinished, Headed, Heads, KeyIndex.Accounts, Segment.IsRun, SegTable.Ascending,
      Encode, Sorted, Named, ListOf, Observed, Appends, SegTable.Members, BasesOf, Takes, Concat;
    ghost var lg := w.log;
    var res := w.AppendAt(rec, payload, scratch);
    AppendLeaves(lg, rec, payload, scratch.Length, w.log, res);
    ok := res.Ok?;
    if ok {
      sessions.Observe(rec.session, rec.clientSeq);
    }
  }

  /** One record of a frame: appended and accounted for if it is whole, intact and next and the log can take it. */
  method ApplyNext(w: Wal, sessions: Table, p: seq<byte>, at: nat, scratch: array<byte>, ghost next: nat,
                   ghost rest: seq<seq<byte>>, ghost all: bool) returns (ok: bool, size: nat)
    requires w.Valid() && w.log.segs != [] && sessions.Valid() && scratch !in w.Repr()
    requires sessions !in w.Repr() && sessions.entries !in w.Repr()
    requires at < |p| && Next(w.log) == next && Taken(p[at..], next) == (rest, all)
    modifies w.Repr(), scratch, sessions, sessions.entries
    ensures w.Valid() && sessions.Valid() && fresh(w.Repr() - old(w.Repr())) && w.log.segs != []
    ensures ok ==>
      && 0 < size <= |p| - at && rest != [] && Taken(p[at + size..], next + 1) == (rest[1..], all)
      && Next(w.log) == next + 1 && Flat(w.log.segs) == old(Flat(w.log.segs)) + [Restored(rest[0])]
      && sessions.List() == Observed(old(sessions.List()), SentOf(rest[0]).session, SentOf(rest[0]).clientSeq)
    ensures !ok ==>
      && Flat(w.log.segs) == old(Flat(w.log.segs)) && sessions.List() == old(sessions.List())
      && if rest == [] then !all else !Takes(w.log, |rest[0]|, scratch.Length)
  {
    hide Wal.Valid, Sorted, Named, ListOf, Placed, Flat, Verify, Decode, Encode, Taken, Restored, Observed, Due, SentOf,
      Takes, SizeOf, Next;
    ok, size := false, 0;
    TakenNext(p, next, rest, all, 0, at);
    assert rest[0..] == rest;
    ghost var due := Due(p[at..], next);
    if due { DueParts(p, at, next); }
    DueWhen(p[at..], next);
    if |p| - at < HEADER {
      return;
    }
    var rec := Decode(p[at..]);
    size := SizeOf(rec);
    ActiveNext(w);
    if size == 0 || at + size > |p| || !Verify(p[at..], rec) || rec.seqno != w.active.nextSeq {
      return;
    }
    ok := ApplyOne(w, sessions, rec, p[at + HEADER..at + HEADER + rec.len], scratch);
  }

  /** Where the frame has been read to `at`, k of its records are in the log and in the table. */
  ghost predicate Sofar(p: seq<byte>, at: nat, next: nat, imgs: seq<seq<byte>>, all: bool, k: nat,
                        flat: seq<seq<byte>>, flatNow: seq<seq<byte>>, list: seq<Sess>, listNow: seq<Sess>)
  {
    && at <= |p| && k <= |imgs| && Taken(p[at..], next + k) == (imgs[k..], all)
    && flatNow == flat + RestoredAll(imgs[..k]) && listNow == Seen(list, imgs[..k])
  }

  lemma SofarNone(p: seq<byte>, next: nat, imgs: seq<seq<byte>>, all: bool, flat: seq<seq<byte>>, list: seq<Sess>)
    requires Taken(p, next) == (imgs, all)
    ensures Sofar(p, 0, next, imgs, all, 0, flat, flat, list, list)
  {
    hide Taken, Seen, RestoredAll;
    NoneYet(list, imgs[..0]);
    assert p[0..] == p && imgs[0..] == imgs && flat + [] == flat;
  }

  lemma SofarNext(p: seq<byte>, at: nat, size: nat, next: nat, imgs: seq<seq<byte>>, all: bool, k: nat,
                  flat: seq<seq<byte>>, flatNow: seq<seq<byte>>, list: seq<Sess>, listNow: seq<Sess>)
    requires Sofar(p, at, next, imgs, all, k, flat, flatNow, list, listNow) && k < |imgs|
    requires at + size <= |p| && Taken(p[at + size..], next + k + 1) == (imgs[k..][1..], all)
    ensures Sofar(p, at + size, next, imgs, all, k + 1, flat, flatNow + [Restored(imgs[k..][0])], list,
                  Observed(listNow, SentOf(imgs[k..][0]).session, SentOf(imgs[k..][0]).clientSeq))
  {
    hide Taken, Seen, RestoredAll, Restored, SentOf, Observed;
    SeenPush(list, imgs, k);
    RestoredPush(imgs, k);
    assert imgs[k..][1..] == imgs[k + 1..] && imgs[k..][0] == imgs[k];
    assert flat + RestoredAll(imgs[..k]) + [Restored(imgs[k])] == flat + (RestoredAll(imgs[..k]) + [Restored(imgs[k])]);
  }

  lemma SofarEnds(p: seq<byte>, at: nat, next: nat, imgs: seq<seq<byte>>, all: bool, k: nat,
                  flat: seq<seq<byte>>, flatNow: seq<seq<byte>>, list: seq<Sess>, listNow: seq<Sess>)
    requires Sofar(p, at, next, imgs, all, k, flat, flatNow, list, listNow)
    ensures at <= |p| && k <= |imgs| && Taken(p[at..], next + k) == (imgs[k..], all)
    ensures flatNow == flat + RestoredAll(imgs[..k]) && listNow == Seen(list, imgs[..k])
    ensures at == |p| ==> k == |imgs| && all
    ensures imgs[k..] == [] <==> k == |imgs|
    ensures k < |imgs| ==> imgs[k..][0] == imgs[k]
  {
    hide Taken, Seen, RestoredAll;
    if at == |p| { TakenEnd(p[at..], next + k); }
  }

  /**
   A frame from the leader: every record that is whole, intact and next is
   appended and accounted for, up to the first that is not or that the log
   cannot take; then the stream is given up.
   */
  method ReplApply(w: Wal, sessions: Table, p: seq<byte>, scratch: array<byte>) returns (closing: bool, ghost k: nat)
    requires w.Valid() && w.log.segs != [] && sessions.Valid() && scratch !in w.Repr()
    requires sessions !in w.Repr() && sessions.entries !in w.Repr()
    modifies w.Repr(), scratch, sessions, sessions.entries
    ensures w.Valid() && sessions.Valid() && w.log.segs != [] && k <= |Taken(p, old(Next(w.log))).0|
    ensures Flat(w.log.segs) == old(Flat(w.log.segs)) + RestoredAll(Taken(p, old(Next(w.log))).0[..k])
    ensures sessions.List() == Seen(old(sessions.List()), Taken(p, old(Next(w.log))).0[..k])
    ensures !closing <==> Taken(p, old(Next(w.log))).1 && k == |Taken(p, old(Next(w.log))).0|
    ensures k < |Taken(p, old(Next(w.log))).0| ==> !Takes(w.log, |Taken(p, old(Next(w.log))).0[k]|, scratch.Length)
  {
    hide Wal.Valid, Sorted, Named, ListOf, Placed, Flat, Taken, Seen, RestoredAll, Restored, Observed, SentOf, Takes,
      Next, Sofar;
    ghost var next, taken := Next(w.log), Taken(p, Next(w.log));
    ghost var imgs, all := taken.0, taken.1;
    ghost var flat, list, repr := Flat(w.log.segs), sessions.List(), w.Repr();
    closing, k := false, 0;
    SofarNone(p, next, imgs, all, flat, list);
    var at := 0;
    while at < |p|
      invariant at <= |p| && k <= |imgs|
      invariant w.Valid() && sessions.Valid() && fresh(w.Repr() - repr) && w.log.segs != []
      invariant Sofar(p, at, next, imgs, all, k, flat, Flat(w.log.segs), list, sessions.List())
      invariant sessions !in w.Repr() && sessions.entries !in w.Repr() && scratch !in w.Repr()
      invariant Next(w.log) == next + k
    {
      ghost var flatNow, listNow := Flat(w.log.segs), sessions.List();
      SofarEnds(p, at, next, imgs, all, k, flat, flatNow, list, listNow);
      var ok, size := ApplyNext(w, sessions, p, at, scratch, next + k, imgs[k..], all);
      if !ok {
        closing := true;
        return;
      }
      SofarNext(p, at, size, next, imgs, all, k, flat, flatNow, list, listNow);
      k := k + 1;
      at := at + size;
    }
    SofarEnds(p, at, next, imgs, all, k, flat, Flat(w.log.segs), list, sessions.List());
  }

  lemma DueWhen(p: seq<byte>, next: nat)
    ensures Due(p, next) <==>
      |p| >= HEADER && 0 < SizeOf(Decode(p)) <= |p| && Verify(p, Decode(p)) && Decode(p).seqno == next
  {}

  lemma TakenEnd(p: seq<byte>, next: nat)
    requires p == []
    ensures Taken(p, next) == ([], true)
  {}
}
