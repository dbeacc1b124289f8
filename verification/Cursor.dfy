/**
 Reading the log: a cursor is placed at a sequence and copies whole records
 out from there, while the log goes on being appended to, flushed, rolled
 over and cut short behind it.
 */
module Cursor {
  import opened Bytes
  import opened Record
  import opened Wrappers
  import opened SegTable
  import opened Store
  import Segment
  import Crc32c
  import KeyIndex
  import opened Recovery
  import opened Wal

  /** The sequence of the first record the log ever held. */
  function Origin(w: Log): nat
    requires w.segs != []
  {
    w.segs[0].base
  }

  /** The records from sequence a up to, not including, b. */
  ghost function Slice(w: Log, a: nat, b: nat): seq<seq<byte>> {
    if w.segs != [] && Origin(w) <= a <= b <= End(w) then
      Flat(w.segs)[a - Origin(w)..b - Origin(w)]
    else []
  }

  /** The record with sequence n, where the log holds one. */
  ghost function Entry(w: Log, n: nat): seq<byte> {
    if w.segs != [] && Origin(w) <= n < End(w) then Flat(w.segs)[n - Origin(w)] else []
  }

  /** One past the last sequence of the log. */
  ghost function End(w: Log): nat
    requires w.segs != []
  {
    Origin(w) + |Flat(w.segs)|
  }

  /** Descriptor on segment j, offset at the record numbered `next`. */
  ghost predicate StandsAt(w: Log, j: nat, base: nat, off: nat, next: nat) {
    && j < |w.segs| && w.segs[j].base == base
    && base <= next <= base + |w.segs[j].images|
    && off == |Concat(w.segs[j].images[..next - base])|
  }

  ghost predicate Stands(w: Log, base: nat, off: nat, next: nat) {
    exists j: nat :: StandsAt(w, j, base, off, next)
  }

  // ---- one block of bytes ----

  /** What a walk makes of a block: the records it takes, and whether nothing was wrong. */
  datatype Seen = Seen(imgs: seq<seq<byte>>, ok: bool)

  /** Headers that carry the numbering on up to the limit, taken at their word, until one does not. */
  function Sees(block: seq<byte>, next: nat, limit: nat): Seen
    decreases |block|
  {
    if |block| < HEADER || IsEnd(Decode(block)) then Seen([], true)
    else
      var r := Decode(block);
      if r.seqno != next then Seen([], false)
      else if next > limit then Seen([], true)
      else if SizeOf(r) == 0 then Seen([], false)
      else if SizeOf(r) > |block| then Seen([], true)
      else Taking(block[..SizeOf(r)], Sees(block[SizeOf(r)..], next + 1, limit))
  }

  function Taking(img: seq<byte>, s: Seen): Seen {
    s.(imgs := [img] + s.imgs)
  }

  function TakingAll(imgs: seq<seq<byte>>, s: Seen): Seen {
    s.(imgs := imgs + s.imgs)
  }

  lemma TakingPush(imgs: seq<seq<byte>>, img: seq<byte>, s: Seen)
    ensures TakingAll(imgs, Taking(img, s)) == TakingAll(imgs + [img], s)
    ensures Taking(img, TakingAll(imgs, s)) == TakingAll([img] + imgs, s)
    ensures TakingAll([], s) == s
  {
    assert imgs + ([img] + s.imgs) == (imgs + [img]) + s.imgs;
    assert [img] + (imgs + s.imgs) == ([img] + imgs) + s.imgs;
    assert [] + s.imgs == s.imgs;
  }

  /** What is taken is the front of the block, whole records one after another. */
  lemma {:induction false} SeesWhole(block: seq<byte>, next: nat, limit: nat)
    ensures var s := Sees(block, next, limit);
      && |Concat(s.imgs)| <= |block| && block[..|Concat(s.imgs)|] == Concat(s.imgs)
      && (forall i :: 0 <= i < |s.imgs| ==> Whole(s.imgs[i]) && Decode(s.imgs[i]).seqno == next + i)
      && (s.imgs != [] ==> next + |s.imgs| <= limit + 1)
    decreases |block|
  {
    hide Decode, SizeOf, Concat, Whole;
    var s := Sees(block, next, limit);
    ConcatNone();
    if s.imgs != [] {
      var r := Decode(block);
      var img, rest := block[..SizeOf(r)], block[SizeOf(r)..];
      SeesWhole(rest, next + 1, limit);
      WholeFront(block, img);
      var t := Sees(rest, next + 1, limit);
      Segment.ConcatCons(img, t.imgs);
      assert block[..|img| + |Concat(t.imgs)|] == img + rest[..|Concat(t.imgs)|];
    }
  }

  lemma WholeFront(block: seq<byte>, img: seq<byte>)
    requires |block| >= HEADER && 0 < SizeOf(Decode(block)) <= |block| && img == block[..SizeOf(Decode(block))]
    ensures Whole(img) && Decode(img) == Decode(block)
  {
    hide Decode;
    assert img[..HEADER] == block[..HEADER];
    DecodePrefix(img, block);
  }

  lemma ConcatPush(imgs: seq<seq<byte>>, n: nat)
    requires n < |imgs|
    ensures Concat(imgs[..n + 1]) == Concat(imgs[..n]) + imgs[n]
  {
    assert imgs[..n + 1] == imgs[..n] + [imgs[n]];
    ConcatAppend(imgs[..n], [imgs[n]]);
    ConcatOne(imgs[n]);
  }

  lemma ConcatAdd(imgs: seq<seq<byte>>, img: seq<byte>)
    ensures Concat(imgs + [img]) == Concat(imgs) + img
  {
    ConcatAppend(imgs, [img]);
    ConcatOne(img);
  }

  /** The walk over one block, whatever is in it. */
  method Walk(block: seq<byte>, first: nat, limit: nat) returns (used: nat, next: nat, res: Result<()>)
    ensures var s := Sees(block, first, limit);
      && used == |Concat(s.imgs)| <= |block| && block[..used] == Concat(s.imgs) && next == first + |s.imgs|
      && res == if s.ok then Ok(()) else Err(Storage)
  {
    hide Concat, Decode;
    used, next := 0, first;
    ghost var taken: seq<seq<byte>> := [];
    assert block[0..] == block;
    ConcatNone();
    TakingPush([], [], Sees(block, first, limit));
    while used < |block|
      invariant used == |Concat(taken)| <= |block| && block[..used] == Concat(taken) && next == first + |taken|
      invariant Sees(block, first, limit) == TakingAll(taken, Sees(block[used..], next, limit))
    {
      NothingMore(taken);
      if |block| - used < HEADER {
        return used, next, Ok(());
      }
      var rec := Decode(block[used..]);
      if IsEnd(rec) {
        return used, next, Ok(());
      }
      if rec.seqno != next {
        return used, next, Err(Storage);
      }
      if next > limit {
        return used, next, Ok(());
      }
      var size := Size(ToInt32(rec.len));
      if size == 0 {
        return used, next, Err(Storage);
      }
      if used + size > |block| {
        return used, next, Ok(());
      }
      ghost var img := block[used..][..size];
      assert block[used..][size..] == block[used + size..];
      assert block[..used + size] == block[..used] + img;
      TakingPush(taken, img, Sees(block[used + size..], next + 1, limit));
      ConcatAdd(taken, img);
      used := used + size;
      next := next + 1;
      taken := taken + [img];
    }
    NothingMore(taken);
    res := Ok(());
  }

  lemma NothingMore(imgs: seq<seq<byte>>)
    ensures imgs + [] == imgs
  {}

  lemma ConcatNone()
    ensures Concat([]) == []
  {}

  // ---- what a read of a segment meets ----

  lemma BlockInside(file: seq<byte>, whole: seq<byte>, off: nat, n: nat)
    requires |whole| <= |file| && file[0..|whole|] == whole && off + n <= |whole|
    ensures file[off..off + n] == whole[off..][..n]
  {
    assert whole[off..][..n] == whole[off..off + n];
    assert file[0..|whole|][off..off + n] == file[off..off + n];
  }

  /** The header under a cursor that is not at the end of its segment. */
  lemma HeaderUnder(seg: Seg, cap: nat, k: nat)
    requires SegOk(seg, cap) && k < |seg.images|
    ensures var off := |Concat(seg.images[..k])|;
      && off + HEADER <= |seg.file|
      && var r := Decode(seg.file[off..off + HEADER]);
         !IsEnd(r) && r.seqno == seg.base + k && SizeOf(r) == |seg.images[k]| > 0
    ensures |Concat(seg.images[..k + 1])| == |Concat(seg.images[..k])| + |seg.images[k]| <= |seg.file|
  {
    hide IsRecordAt, Concat, FromLe, Crc32c.Sum;
    var off, img := |Concat(seg.images[..k])|, seg.images[k];
    ConcatPush(seg.images, k);
    Segment.RunPrefix(seg.file, cap, seg.base, seg.images, k + 1);
    var part := Concat(seg.images[..k + 1]);
    assert IsRecordAt(img, seg.base + k);
    Segment.RecordFacts(img, seg.base + k);
    assert seg.file[0..|part|] == part;
    assert seg.file[off..off + HEADER] == part[off..][..HEADER] by { BlockInside(seg.file, part, off, HEADER); }
    assert part[off..] == img;
    DecodePrefix(seg.file[off..off + HEADER], img);
  }

  /** The bytes a read of `room` brings from record k of a segment on. */
  function BlockAt(s: Seg, k: nat, room: nat): (b: seq<byte>)
    requires k <= |s.images| && |Concat(s.images[..k])| <= |s.file|
    ensures |b| <= room
  {
    var off := |Concat(s.images[..k])|;
    s.file[off..off + if room < |s.file| - off then room else |s.file| - off]
  }

  /** The walk ends at a record that is past the limit or does not fit. */
  ghost predicate Stops(s: Seg, k: nat, m: nat, limit: nat, room: nat) {
    && k <= m < |s.images| && s.base + m <= limit + 1 && |Concat(s.images[k..m])| <= room
    && (s.base + m > limit || |Concat(s.images[k..m + 1])| > room)
  }

  lemma ConcatFrom(imgs: seq<seq<byte>>, k: nat, m: nat)
    requires k < m <= |imgs|
    ensures imgs[k..m] == [imgs[k]] + imgs[k + 1..m] && Concat(imgs[k..m]) == imgs[k] + Concat(imgs[k + 1..m])
  {
    Segment.ConcatCons(imgs[k], imgs[k + 1..m]);
  }

  lemma ConcatNoneOf(imgs: seq<seq<byte>>, k: nat)
    requires k <= |imgs|
    ensures imgs[k..k] == [] && |Concat(imgs[k..k])| == 0
  {}

  lemma OffsetOf(s: Seg, cap: nat, k: nat)
    requires SegOk(s, cap) && k <= |s.images|
    ensures |Concat(s.images[..k])| + |Concat(s.images[k..])| == |Concat(s.images)| <= |s.file|
  {
    hide Concat, IsRecordAt;
    assert s.images == s.images[..k] + s.images[k..];
    ConcatAppend(s.images[..k], s.images[k..]);
  }

  lemma StopsHere(s: Seg, k: nat, limit: nat, room: nat)
    requires k < |s.images| && s.base + k <= limit + 1 && (s.base + k > limit || |s.images[k]| > room)
    ensures Stops(s, k, k, limit, room)
  {
    hide Concat;
    ConcatNoneOf(s.images, k);
    assert s.images[k..k + 1] == [s.images[k]];
    ConcatOne(s.images[k]);
  }

  lemma StopsLater(s: Seg, k: nat, m: nat, limit: nat, room: nat)
    requires k < |s.images| && |s.images[k]| <= room && Stops(s, k + 1, m, limit, room - |s.images[k]|)
    ensures Stops(s, k, m, limit, room)
  {
    hide Concat;
    ConcatFrom(s.images, k, m);
    ConcatFrom(s.images, k, m + 1);
  }

  lemma BlockNextOf(s: Seg, cap: nat, k: nat, room: nat)
    requires SegOk(s, cap) && k < |s.images| && |s.images[k]| <= room
    ensures |Concat(s.images[..k + 1])| == |Concat(s.images[..k])| + |s.images[k]| <= |s.file|
    ensures |s.images[k]| <= |BlockAt(s, k, room)|
    ensures BlockAt(s, k, room)[..|s.images[k]|] == s.images[k]
    ensures BlockAt(s, k, room)[|s.images[k]|..] == BlockAt(s, k + 1, room - |s.images[k]|)
  {
    hide Concat, IsRecordAt;
    ConcatPush(s.images, k);
    Segment.RunPrefix(s.file, cap, s.base, s.images, k + 1);
    var part, off := Concat(s.images[..k + 1]), |Concat(s.images[..k])|;
    assert s.file[0..|part|] == part;
    BlockInside(s.file, part, off, |s.images[k]|);
    assert part[off..][..|s.images[k]|] == s.images[k];
    var b := BlockAt(s, k, room);
    assert b[..|s.images[k]|] == s.file[off..off + |s.images[k]|];
  }

  /** The walk over a segment: its records, and then over whatever is left behind them. */
  ghost predicate Walked(s: Seg, k: nat, limit: nat, room: nat) {
    && k <= |s.images| && |Concat(s.images[..k])| <= |s.file|
    && var b, n, x := BlockAt(s, k, room), |Concat(s.images[k..])|, Sees(BlockAt(s, k, room), s.base + k, limit);
       if n <= |b| && s.base + |s.images| <= limit + 1 then
         x == TakingAll(s.images[k..], Sees(b[n..], s.base + |s.images|, limit))
       else
         x.ok && Stops(s, k, k + |x.imgs|, limit, room) && x.imgs == s.images[k..k + |x.imgs|]
  }

  lemma WalkedNone(s: Seg, cap: nat, k: nat, limit: nat, room: nat)
    requires SegOk(s, cap) && k == |s.images| && s.base + k <= limit + 1
    ensures Walked(s, k, limit, room)
  {
    hide SegOk, Concat, Decode, SizeOf, Stops, Sees;
    OffsetOf(s, cap, k);
    ConcatNoneOf(s.images, k);
    var b := BlockAt(s, k, room);
    assert b[0..] == b;
    TakingPush([], [], Sees(b, s.base + k, limit));
  }

  lemma WalkedHere(s: Seg, cap: nat, k: nat, limit: nat, room: nat)
    requires SegOk(s, cap) && k < |s.images| && s.base + k <= limit + 1
    requires s.base + k > limit || |s.images[k]| > room
    ensures Walked(s, k, limit, room)
  {
    hide SegOk, Concat, Decode, SizeOf, Stops;
    OffsetOf(s, cap, k);
    SegHeader(s, cap, k, room);
    StopsHere(s, k, limit, room);
    ConcatNoneOf(s.images, k);
    ConcatFrom(s.images, k, |s.images|);
    assert s.images[k..|s.images|] == s.images[k..];
  }

  /** A record that is due and fits is taken, and the walk goes on behind it. */
  lemma SeesNext(s: Seg, cap: nat, k: nat, limit: nat, room: nat)
    requires SegOk(s, cap) && k < |s.images| && s.base + k <= limit && |s.images[k]| <= room
    ensures |Concat(s.images[..k])| <= |s.file| && |Concat(s.images[..k + 1])| <= |s.file|
    ensures Sees(BlockAt(s, k, room), s.base + k, limit)
         == Taking(s.images[k], Sees(BlockAt(s, k + 1, room - |s.images[k]|), s.base + k + 1, limit))
  {
    hide SegOk, Concat, Decode, SizeOf;
    OffsetOf(s, cap, k);
    BlockNextOf(s, cap, k, room);
    SegHeader(s, cap, k, room);
  }

  lemma WalkedMore(s: Seg, cap: nat, k: nat, limit: nat, room: nat)
    requires SegOk(s, cap) && k < |s.images| && s.base + k <= limit && |s.images[k]| <= room
    requires Walked(s, k + 1, limit, room - |s.images[k]|)
    ensures Walked(s, k, limit, room)
  {
    hide SegOk, Concat, Decode, SizeOf, Sees, BlockAt;
    SeesNext(s, cap, k, limit, room);
    BlockNextOf(s, cap, k, room);
    var img, rest, e := s.images[k], s.images[k + 1..], |s.images|;
    var b, c := BlockAt(s, k, room), BlockAt(s, k + 1, room - |img|);
    var n, x := |Concat(rest)|, Sees(c, s.base + k + 1, limit);
    ConcatFrom(s.images, k, e);
    assert s.images[k..e] == s.images[k..] && s.images[k + 1..e] == rest;
    if n <= |c| && s.base + e <= limit + 1 {
      TakingPush(rest, img, Sees(c[n..], s.base + e, limit));
      assert c[n..] == b[|img| + n..];
    } else {
      StopsLater(s, k, k + 1 + |x.imgs|, limit, room);
      ConcatFrom(s.images, k, k + 1 + |x.imgs|);
    }
  }

  lemma {:induction false} SegSees(s: Seg, cap: nat, k: nat, limit: nat, room: nat)
    requires SegOk(s, cap) && k <= |s.images| && s.base + k <= limit + 1
    ensures Walked(s, k, limit, room)
    decreases |s.images| - k
  {
    hide SegOk, Walked;
    if k == |s.images| {
      WalkedNone(s, cap, k, limit, room);
    } else if s.base + k > limit || |s.images[k]| > room {
      WalkedHere(s, cap, k, limit, room);
    } else {
      SegSees(s, cap, k + 1, limit, room - |s.images[k]|);
      WalkedMore(s, cap, k, limit, room);
    }
  }

  /** The block either shows the header of record k or is too short for it. */
  lemma SegHeader(s: Seg, cap: nat, k: nat, room: nat)
    requires SegOk(s, cap) && k < |s.images| && |Concat(s.images[..k])| <= |s.file|
    ensures var b := BlockAt(s, k, room);
      && (|s.images[k]| > |b| ==> |s.images[k]| > room)
      && HEADER <= |s.images[k]|
      && (|b| >= HEADER ==> !IsEnd(Decode(b)) && Decode(b).seqno == s.base + k && SizeOf(Decode(b)) == |s.images[k]|)
  {
    hide Concat, Decode, SizeOf;
    HeaderUnder(s, cap, k);
    var b, off := BlockAt(s, k, room), |Concat(s.images[..k])|;
    assert IsRecordAt(s.images[k], s.base + k);
    if |b| >= HEADER {
      assert b[..HEADER] == s.file[off..off + HEADER];
      DecodePrefix(b, s.file[off..off + HEADER]);
    }
  }

  /** A read from record k gets past the segment's records to a whole header. */
  predicate Reaches(s: Seg, k: nat, limit: nat, room: nat)
    requires k <= |s.images|
  {
    && s.base + |s.images| <= limit + 1
    && |Concat(s.images)| + HEADER <= |s.file| && |Concat(s.images[k..])| + HEADER <= room
  }

  /** The header that stands where the segment's records end. */
  function LeftAt(s: Seg): Rec
    requires |Concat(s.images)| + HEADER <= |s.file|
  {
    Decode(s.file[|Concat(s.images)|..|Concat(s.images)| + HEADER])
  }

  /** As many bytes there as that header names. */
  function LeftBytes(s: Seg): seq<byte>
    requires |Concat(s.images)| + HEADER <= |s.file| && |Concat(s.images)| + SizeOf(LeftAt(s)) <= |s.file|
  {
    s.file[|Concat(s.images)|..|Concat(s.images)| + SizeOf(LeftAt(s))]
  }

  /** It is neither unwritten space nor what comes next. */
  predicate Foul(s: Seg, k: nat, limit: nat, room: nat)
    requires k <= |s.images|
  {
    && Reaches(s, k, limit, room) && !IsEnd(LeftAt(s))
    && (LeftAt(s).seqno != s.base + |s.images| || (s.base + |s.images| <= limit && SizeOf(LeftAt(s)) == 0))
  }

  /** It passes for what comes next, and is all there. */
  predicate Stale(s: Seg, k: nat, limit: nat, room: nat)
    requires k <= |s.images|
  {
    && Reaches(s, k, limit, room) && !IsEnd(LeftAt(s))
    && LeftAt(s).seqno == s.base + |s.images| <= limit
    && 0 < SizeOf(LeftAt(s)) <= room - |Concat(s.images[k..])|
    && |Concat(s.images)| + SizeOf(LeftAt(s)) <= |s.file|
  }

  /** Records k up to m, as many as the limit and the room let through. */
  ghost predicate Took(s: Seg, k: nat, m: nat, limit: nat, room: nat, out: seq<byte>) {
    && k <= m <= |s.images| && s.base + m <= limit + 1
    && out == Concat(s.images[k..m]) && |out| <= room && (out == [] <==> k == m)
    && (k == m ==> k == |s.images| || |s.images[k]| > room)
  }

  /**
   What a read of a segment comes to. It is refused exactly when it reaches a
   header past the last record that is neither unwritten space nor the next
   sequence; it goes astray exactly when that header does carry the next
   sequence, within the limit, and its bytes are all there; and it gives the
   records that are due and fit in every other case.
   */
  lemma SegRead(s: Seg, cap: nat, k: nat, limit: nat, room: nat)
    requires SegOk(s, cap) && k <= |s.images| && s.base + k <= limit && |Concat(s.images[..k])| <= |s.file|
    ensures var x, rest, e := Sees(BlockAt(s, k, room), s.base + k, limit), s.images[k..], |s.images| - k;
      && (Foul(s, k, limit, room) ==> x == Seen(rest, false))
      && (Stale(s, k, limit, room) ==> |x.imgs| > e && x.imgs[..e] == rest && x.imgs[e] == LeftBytes(s))
      && (!Foul(s, k, limit, room) && !Stale(s, k, limit, room) ==>
            x.ok && Took(s, k, k + |x.imgs|, limit, room, Concat(x.imgs)) && x.imgs == s.images[k..k + |x.imgs|])
  {
    hide SegOk, Concat, Decode, SizeOf, Sees, Stops, Took, BlockAt, LeftAt;
    SegSees(s, cap, k, limit, room);
    OffsetOf(s, cap, k);
    var b, n := BlockAt(s, k, room), |Concat(s.images[k..])|;
    var x := Sees(b, s.base + k, limit);
    if n <= |b| && s.base + |s.images| <= limit + 1 {
      LeftOf(s, cap, k, room);
      LeftSeen(s, b[n..], limit, room - n);
      NothingMore(s.images[k..]);
      assert s.images[k..|s.images|] == s.images[k..];
      TookAll(s, cap, k, |s.images|, limit, room);
    } else {
      BlockShort(s, cap, k, limit, room);
      TookAll(s, cap, k, k + |x.imgs|, limit, room);
    }
  }

  /** What of the block is left past the records is what the file has there. */
  lemma LeftOf(s: Seg, cap: nat, k: nat, room: nat)
    requires SegOk(s, cap) && k <= |s.images| && |Concat(s.images[..k])| <= |s.file|
    requires |Concat(s.images[k..])| <= |BlockAt(s, k, room)|
    ensures var left, end := BlockAt(s, k, room)[|Concat(s.images[k..])|..], |Concat(s.images)|;
      && end <= |s.file| && |left| == (if room - |Concat(s.images[k..])| < |s.file| - end
                                       then room - |Concat(s.images[k..])| else |s.file| - end)
      && left == s.file[end..end + |left|]
      && (|left| >= HEADER ==> Decode(left) == LeftAt(s))
  {
    hide SegOk, Concat, Decode;
    OffsetOf(s, cap, k);
    var left, end := BlockAt(s, k, room)[|Concat(s.images[k..])|..], |Concat(s.images)|;
    if |left| >= HEADER {
      assert left[..HEADER] == s.file[end..end + HEADER];
      DecodePrefix(left, s.file[end..end + HEADER]);
    }
  }

  lemma BlockShort(s: Seg, cap: nat, k: nat, limit: nat, room: nat)
    requires SegOk(s, cap) && k <= |s.images| && |Concat(s.images[..k])| <= |s.file|
    requires |Concat(s.images[k..])| > |BlockAt(s, k, room)| || s.base + |s.images| > limit + 1
    ensures !Reaches(s, k, limit, room)
  {
    hide SegOk, Concat;
    OffsetOf(s, cap, k);
  }

  /** The walk over what is left behind a segment's records. */
  lemma LeftSeen(s: Seg, left: seq<byte>, limit: nat, room: nat)
    requires |Concat(s.images)| <= |s.file| && s.base + |s.images| <= limit + 1
    requires var end := |Concat(s.images)|;
      |left| == (if room < |s.file| - end then room else |s.file| - end) && left == s.file[end..end + |left|]
    requires |left| >= HEADER ==> Decode(left) == LeftAt(s)
    ensures var y, due := Sees(left, s.base + |s.images|, limit), s.base + |s.images|;
      if |left| < HEADER || IsEnd(LeftAt(s)) then y == Seen([], true)
      else if LeftAt(s).seqno != due || (due <= limit && SizeOf(LeftAt(s)) == 0) then y == Seen([], false)
      else if due > limit || SizeOf(LeftAt(s)) > |left| then y == Seen([], true)
      else |y.imgs| > 0 && y.imgs[0] == LeftBytes(s)
  {
    hide Concat, Decode, SizeOf, LeftAt;
    var end, due := |Concat(s.images)|, s.base + |s.images|;
    if |left| >= HEADER && !IsEnd(LeftAt(s)) && LeftAt(s).seqno == due <= limit && 0 < SizeOf(LeftAt(s)) <= |left| {
      assert left[..SizeOf(LeftAt(s))] == LeftBytes(s);
    }
  }

  lemma TookAll(s: Seg, cap: nat, k: nat, m: nat, limit: nat, room: nat)
    requires SegOk(s, cap) && s.base + k <= limit && k <= m
    requires
      || Stops(s, k, m, limit, room)
      || (m == |s.images| && s.base + m <= limit + 1 && |Concat(s.images[k..m])| <= room)
    ensures Took(s, k, m, limit, room, Concat(s.images[k..m]))
  {
    hide SegOk, Concat;
    if k == m {
      ConcatNoneOf(s.images, k);
      if k < |s.images| {
        assert s.images[k..k + 1] == [s.images[k]];
        ConcatOne(s.images[k]);
      }
    } else {
      ConcatFrom(s.images, k, m);
      HeaderUnder(s, cap, k);
    }
  }

  /** Unwritten space follows every record run, the active one included. */
  ghost predicate Clean(w: Log) {
    Good(w) && EndsClean(Last(w), w.cap)
  }

  /**
   What a read from `next` under a limit into `room` bytes may come to: the
   whole records from there up to `upto`, and nothing only when there is nothing
   to give or the first of it does not fit.
   */
  ghost predicate Yields(w: Log, next: nat, limit: nat, room: nat, upto: nat, out: seq<byte>) {
    && w.segs != [] && Origin(w) <= next <= upto <= End(w)
    && out == Concat(Slice(w, next, upto)) && |out| <= room
    && (next < upto ==> upto <= limit + 1)
    && (next == upto ==>
          limit < next || next == End(w) || |Entry(w, next)| > room)
  }

  lemma SubSlice<T>(s: seq<T>, n: nat, len: nat, k: nat, m: nat)
    requires n + len <= |s| && k <= m <= len
    ensures s[n..n + len][k..m] == s[n + k..n + m]
  {
    var a, b := s[n..n + len][k..m], s[n + k..n + m];
    assert |a| == |b| && forall i :: 0 <= i < |a| ==> a[i] == b[i];
  }

  /** Records k to m of segment j are the log from base + k up to base + m. */
  lemma SegSlice(w: Log, j: nat, k: nat, m: nat)
    requires Placed(w) && j < |w.segs| && k <= m <= |w.segs[j].images|
    ensures Origin(w) <= w.segs[j].base + k <= w.segs[j].base + m <= End(w)
    ensures Slice(w, w.segs[j].base + k, w.segs[j].base + m) == w.segs[j].images[k..m]
    ensures k < |w.segs[j].images| ==> Entry(w, w.segs[j].base + k) == w.segs[j].images[k]
    ensures k == |w.segs[j].images| && j == |w.segs| - 1 ==> w.segs[j].base + k == End(w)
  {
    hide Chain, Concat, Flat, AllEndClean;
    BaseCounts(w.segs, w.cap, j);
    FlatSlice(w.segs, j);
    var n, s, all := |Flat(w.segs[..j])|, w.segs[j], Flat(w.segs);
    SubSlice(all, n, |s.images|, k, m);
    if k < |s.images| { assert all[n..n + |s.images|][k] == all[n + k]; }
    if j == |w.segs| - 1 { FlatSetLast(w.segs, s); }
  }

  // ---- the cursor ----

  /** The index of the segment that holds n: the last base at or below it. */
  method SegIndexOf(w: Wal, n: nat) returns (i: int)
    requires w.Valid()
    ensures -1 <= i < |Linked(w.log)|
    ensures 0 <= i ==> Linked(w.log)[i].base <= n
    ensures forall k :: i < k < |Linked(w.log)| ==> n < Linked(w.log)[k].base
    ensures 0 <= i ==> w.table.bases[i] as nat == Linked(w.log)[i].base && i < w.table.count <= w.table.bases.Length
  {
    hide Placed, Headed, Heads, Flat, Mirrors, HoldsFinished, Segment.IsRun, KeyIndex.Accounts, Ascending, Members;
    i := w.table.count - 1;
    NotEmpty(w.log);
    while i >= 0 && w.table.bases[i] > n
      invariant -1 <= i < w.table.count
      invariant forall k :: i < k < w.table.count ==> n < w.table.Bases()[k]
    {
      assert w.table.Bases()[i] == w.table.bases[i];
      i := i - 1;
    }
    if i >= 0 { assert w.table.Bases()[i] == w.table.bases[i]; }
  }

  /** The segment holding a sequence the log has, and the position in it. */
  lemma {:induction false} SegmentOf(w: Log, n: nat, i: nat)
    requires Placed(w) && FirstSeq(w) <= n <= Next(w)
    requires i < |Linked(w)| && Linked(w)[i].base <= n
    requires forall k :: i < k < |Linked(w)| ==> n < Linked(w)[k].base
    ensures var s := w.segs[w.gone + i];
      && s == Linked(w)[i] && s.base <= n <= s.base + |s.images|
      && (n == s.base + |s.images| ==> w.gone + i == |w.segs| - 1)
  {
    hide SegOk, Concat;
    var j := w.gone + i;
    if j < |w.segs| - 1 {
      assert Linked(w)[i + 1] == w.segs[j + 1];
      assert Link(w.segs, j);
    }
  }

  /** Each segment's file is the bytes a descriptor on its base reads. */
  lemma FileOf(w: Wal, j: nat)
    requires w.Valid() && j < |w.log.segs|
    ensures w.FileAt(w.log.segs[j].base) == w.log.segs[j].file
  {
    hide Headed, Heads, Flat, Segment.IsRun, KeyIndex.Accounts, Ascending, SegOk, Concat, Members, BasesOf;
    if j < |w.log.segs| - 1 { BasesAscend(w.log.segs, w.log.cap, j, |w.log.segs| - 1); }
  }

  class Cursor {
    var open: bool
    var segBase: nat
    var off: nat
    var nextSeq: nat

    constructor ()
      ensures !open
    {
      open, segBase, off, nextSeq := false, 0, 0, 0;
    }

    /**
     Place the cursor at n. The log holds it, or it is one past the end, or the
     answer is a refusal that leaves the cursor alone.
     */
    method Seek(w: Wal, n: nat, scratch: array<byte>) returns (r: Result<()>)
      requires w.Valid() && scratch.Length >= HEADER && scratch !in w.Repr()
      modifies this, scratch
      ensures r.Ok? <==> FirstOf(w) <= n <= Next(w.log)
      ensures r.Ok? ==> open && nextSeq == n && Stands(w.log, segBase, off, nextSeq)
      ensures r.Err? ==> r.error == Invalid && unchanged(this)
    {
      hide Wal.Valid, Placed, Flat, SegOk, Concat, Decode, StandsAt;
      NotEmptyLog(w);
      ActiveNext(w);
      FirstIs(w);
      if n < w.table.bases[0] || n > w.active.nextSeq {
        return Err(Invalid);
      }
      var idx := SegIndexOf(w, n);
      if idx < 0 {
        return Err(Invalid);
      }
      ghost var lg, j := w.log, w.log.gone + idx;
      SegmentOf(lg, n, idx);
      open, segBase, off, nextSeq := true, w.table.bases[idx], 0, w.table.bases[idx];
      StandsFirst(lg, j);
      FileOf(w, j);
      var file := w.FileAt(segBase);
      while nextSeq < n
        invariant StandsAt(lg, j, segBase, off, nextSeq) && nextSeq <= n
        invariant open && segBase == lg.segs[j].base
        modifies this, scratch
      {
        SeekStep(lg, j, segBase, off, nextSeq);
        MemPut(scratch, 0, file[off..off + HEADER]);
        assert scratch[..HEADER] == file[off..off + HEADER];
        var rec := Decode(scratch[..HEADER]);
        var size := Size(ToInt32(rec.len));
        if IsEnd(rec) || size == 0 || rec.seqno != nextSeq {
          return Err(Storage);
        }
        off := off + size;
        nextSeq := nextSeq + 1;
      }
      r := Ok(());
    }

    /** One read at the cursor, which stands at record k of segment j, and a walk over what it brought back. */
    method ReadHere(w: Wal, limit: nat, buf: array<byte>, room: nat, ghost j: nat, ghost k: nat)
        returns (used: nat, res: Result<()>, ghost imgs: seq<seq<byte>>)
      requires w.Valid() && buf !in w.Repr() && room <= buf.Length
      requires StandsAt(w.log, j, segBase, off, nextSeq) && k == nextSeq - segBase && nextSeq <= limit
      modifies this, buf
      ensures open == old(open) && segBase == old(segBase) && used <= room
      ensures used == |Concat(imgs)| && buf[..used] == Concat(imgs) && nextSeq == old(nextSeq) + |imgs|
      ensures used == 0 <==> imgs == []
      ensures Meets(w.log, j, k, limit, room) == Seen(imgs, res.Ok?)
      ensures forall i :: 0 <= i < |imgs| ==> Whole(imgs[i]) && Decode(imgs[i]).seqno == old(nextSeq) + i
      ensures res == Ok(()) || res == Err(Storage)
      ensures Foul(w.log.segs[j], k, limit, room) ==> res.Err?
      ensures Stale(w.log.segs[j], k, limit, room) ==> |imgs| > |w.log.segs[j].images| - k
      ensures Over(w.log.segs[j], k, limit, room) ==> res.Ok? && imgs == []
      ensures Fair(w.log, j, k, limit, room) ==>
        && res.Ok? && StandsAt(w.log, j, segBase, off, nextSeq)
        && (imgs != [] || k < |w.log.segs[j].images| || j == |w.log.segs| - 1 ==>
              && Yields(w.log, old(nextSeq), limit, room, nextSeq, Concat(imgs))
              && imgs == Slice(w.log, old(nextSeq), nextSeq))
    {
      hide Good, EndsClean, Flat, Mirrors, HoldsFinished, Headed, Heads, Segment.IsRun, KeyIndex.Accounts, Ascending,
        Members, BasesOf, SegOk, Concat, Decode, Placed, Clean, Sees, Whole, Foul, Stale, Yields, Slice;
      PlaceFacts(w.log, j, segBase, off, nextSeq);
      FileOf(w, j);
      ghost var block0 := BlockAt(w.log.segs[j], k, room);
      var block := ReadBlock(w.FileAt(segBase), buf, room);
      Came(w.log, j, k, limit, room);
      SeesWhole(block0, nextSeq, limit);
      imgs := Sees(block0, nextSeq, limit).imgs;
      NoBytes(imgs);
      hide BlockAt;
      var next;
      used, next, res := Walk(block, nextSeq, limit);
      ConcatNone();
      assert buf[..used] == block[..used];
      nextSeq := next;
      if res.Err? {
        return;
      }
      off := off + used;
    }

    /** As many bytes of the file as there are from the cursor on, and room for. */
    method ReadBlock(file: seq<byte>, buf: array<byte>, room: nat) returns (block: seq<byte>)
      requires room <= buf.Length
      modifies buf
      ensures |block| <= room && buf[..|block|] == block
      ensures off <= |file| ==>
        block == file[off..off + if room < |file| - off then room else |file| - off]
    {
      var left := if off <= |file| then |file| - off else 0;
      var n := if room < left then room else left;
      block := if n == 0 then [] else file[off..off + n];
      MemPut(buf, 0, block);
    }

    /**
     One read: as many whole records as are due and have room. Behind retention
     it refuses. Otherwise what it comes to is settled by the segment it reads,
     `at`, standing at record `k`: the records due, or an error, or bytes that
     only look like one.
     */
    method Read(w: Wal, limit: nat, buf: array<byte>, room: nat)
        returns (r: Result<nat>, ghost at: nat, ghost k: nat, ghost imgs: seq<seq<byte>>)
      requires w.Valid() && buf !in w.Repr() && room <= buf.Length
      requires open && Stands(w.log, segBase, off, nextSeq)
      modifies this, buf
      ensures open && w.log.gone < |w.log.segs| && (r.Ok? ==> r.value <= room)
      ensures old(nextSeq) < FirstOf(w) ==> r == Err(Invalid) && unchanged(this)
      ensures FirstOf(w) <= old(nextSeq) && limit < old(nextSeq) ==> r == Ok(0) && unchanged(this)
      ensures FirstOf(w) <= old(nextSeq) <= limit ==>
        && ReadsAt(w.log, old(segBase), old(off), old(nextSeq), at, k, limit, room)
        && Meets(w.log, at, k, limit, room) == Seen(imgs, r.Ok?) && (r.Err? ==> r.error == Storage)
        && (Foul(w.log.segs[at], k, limit, room) ==> r == Err(Storage))
        && (Stale(w.log.segs[at], k, limit, room) && r.Ok? ==> |imgs| > |w.log.segs[at].images| - k)
        && (!Foul(w.log.segs[at], k, limit, room) && !Stale(w.log.segs[at], k, limit, room) ==> r.Ok?)
      ensures FirstOf(w) <= old(nextSeq) && (old(nextSeq) <= limit ==> Fair(w.log, at, k, limit, room)) ==>
        && r.Ok? && Stands(w.log, segBase, off, nextSeq)
        && Yields(w.log, old(nextSeq), limit, room, nextSeq, buf[..r.value])
        && imgs == Slice(w.log, old(nextSeq), nextSeq)
      ensures r.Ok? ==>
        && buf[..r.value] == Concat(imgs) && nextSeq == old(nextSeq) + |imgs|
        && (forall i :: 0 <= i < |imgs| ==> Whole(imgs[i]) && Decode(imgs[i]).seqno == old(nextSeq) + i)
    {
      hide Wal.Valid, Chain, Good, EndsClean, Flat, SegOk, Concat, Placed, StandsAt, Clean, Yields, Took, Decode, Foul,
        Stale, BlockAt, Sees, Slice, ReadsAt, Whole, Over, Meets;
      ActiveNext(w);
      FirstIs(w);
      ghost var lg, first, base, from := w.log, nextSeq, segBase, off;
      ghost var j: nat :| StandsAt(lg, j, segBase, off, nextSeq);
      PlaceFacts(lg, j, segBase, off, nextSeq);
      at, k, imgs := j, first - segBase, [];
      ConcatNone();
      assert buf[..0] == [];
      if nextSeq < w.table.bases[0] {
        return Err(Invalid), at, k, imgs;
      }
      if nextSeq > limit {
        NothingDue(lg, j, first, limit, room);
        return Ok(0), at, k, imgs;
      }
      var used, res;
      used, res, imgs := ReadHere(w, limit, buf, room, j, k);
      OverFair(lg, j, k, limit, room);
      if j == |lg.segs| - 1 || !Over(lg.segs[j], k, limit, room) {
        ReadsHere(lg, base, from, first, j, k, limit, room);
      }
      if res.Err? {
        return Err(res.error), at, k, imgs;
      }
      if used == 0 {
        var idx := SegIndexOf(w, nextSeq);
        assert Linked(lg)[0].base == FirstSeq(lg);
        if 0 <= idx {
          NextOne(lg, j, k, idx, limit, room);
          if w.table.bases[idx] as nat != segBase {
            segBase, off := w.table.bases[idx], 0;
            at, k := lg.gone + idx, 0;
            ReadsNext(lg, base, from, first, j, limit, room);
            used, res, imgs := ReadHere(w, limit, buf, room, at, k);
            if res.Err? {
              return Err(res.error), at, k, imgs;
            }
          }
        }
      }
      r := Ok(used);
    }
  }

  /** What a read from record k of segment `at` brings, in every case: what is there, taken at its word. */
  ghost function Meets(w: Log, at: nat, k: nat, limit: nat, room: nat): Seen {
    if at < |w.segs| && k <= |w.segs[at].images| && |Concat(w.segs[at].images[..k])| <= |w.segs[at].file| then
      Sees(BlockAt(w.segs[at], k, room), w.segs[at].base + k, limit)
    else Seen([], true)
  }

  /** Nothing is left to read of a segment, and nothing that looks like it. */
  predicate Over(s: Seg, k: nat, limit: nat, room: nat)
    requires k <= |s.images|
  {
    k == |s.images| && !Foul(s, k, limit, room) && !Stale(s, k, limit, room)
  }

  /** The segment a read is made from: where the cursor stands, or the next one if that is over. */
  ghost predicate ReadsAt(w: Log, base: nat, off: nat, next: nat, at: nat, k: nat, limit: nat, room: nat) {
    && at < |w.segs| && k <= |w.segs[at].images| && w.segs[at].base + k == next
    && if StandsAt(w, at, base, off, next) then at == |w.segs| - 1 || !Over(w.segs[at], k, limit, room)
       else
         && 0 < at && k == 0 && StandsAt(w, at - 1, base, off, next)
         && Over(w.segs[at - 1], next - base, limit, room)
  }

  lemma ReadsHere(w: Log, base: nat, off: nat, next: nat, j: nat, k: nat, limit: nat, room: nat)
    requires StandsAt(w, j, base, off, next) && k == next - base
    requires j == |w.segs| - 1 || !Over(w.segs[j], k, limit, room)
    ensures ReadsAt(w, base, off, next, j, k, limit, room)
  {
    hide Over, Concat;
  }

  lemma ReadsNext(w: Log, base: nat, off: nat, next: nat, j: nat, limit: nat, room: nat)
    requires StandsAt(w, j, base, off, next) && Over(w.segs[j], next - base, limit, room)
    requires j + 1 < |w.segs| && w.segs[j + 1].base == next != base
    ensures ReadsAt(w, base, off, next, j + 1, 0, limit, room)
  {
    hide Over, Concat;
  }

  /** A read from record k of segment `at` meets nothing it should not. */
  predicate Fair(w: Log, at: nat, k: nat, limit: nat, room: nat) {
    && at < |w.segs| && k <= |w.segs[at].images|
    && !Foul(w.segs[at], k, limit, room) && !Stale(w.segs[at], k, limit, room)
  }

  lemma OverFair(w: Log, j: nat, k: nat, limit: nat, room: nat)
    requires j < |w.segs| && k <= |w.segs[j].images|
    ensures Over(w.segs[j], k, limit, room) <==> k == |w.segs[j].images| && Fair(w, j, k, limit, room)
  {
    hide Foul, Stale;
  }

  /** What a read of segment j brings, in terms of the log. */
  lemma Came(w: Log, j: nat, k: nat, limit: nat, room: nat)
    requires Placed(w) && j < |w.segs| && k <= |w.segs[j].images| && w.segs[j].base + k <= limit
    ensures |Concat(w.segs[j].images[..k])| <= |w.segs[j].file|
    ensures var s, next := w.segs[j], w.segs[j].base + k;
      var x := Sees(BlockAt(s, k, room), next, limit);
      && (Foul(s, k, limit, room) ==> !x.ok)
      && (Stale(s, k, limit, room) ==> |x.imgs| > |s.images| - k)
      && (Fair(w, j, k, limit, room) ==>
            && x.ok && k + |x.imgs| <= |s.images|
            && StandsAt(w, j, s.base, |Concat(s.images[..k])| + |Concat(x.imgs)|, next + |x.imgs|)
            && (x.imgs == [] ==> k == |s.images| || |s.images[k]| > room)
            && (x.imgs != [] || k < |s.images| || j == |w.segs| - 1 ==>
                  && Yields(w, next, limit, room, next + |x.imgs|, Concat(x.imgs))
                  && x.imgs == Slice(w, next, next + |x.imgs|)))
  {
    hide Placed, Concat, Flat, Slice, Entry, End, SegOk, Foul, Stale, Sees, BlockAt;
    var s := w.segs[j];
    SegOkAt(w, j);
    OffsetOf(s, w.cap, k);
    SegRead(s, w.cap, k, limit, room);
    var x := Sees(BlockAt(s, k, room), s.base + k, limit);
    if Fair(w, j, k, limit, room) {
      SegSlice(w, j, k, k + |x.imgs|);
      OffsetAfter(s.images, k, k + |x.imgs|);
    }
  }

  lemma SegOkAt(w: Log, j: nat)
    requires Placed(w) && j < |w.segs|
    ensures SegOk(w.segs[j], w.cap)
  {
    hide SegOk, Concat;
  }

  lemma OffsetAfter(imgs: seq<seq<byte>>, k: nat, m: nat)
    requires k <= m <= |imgs|
    ensures |Concat(imgs[..m])| == |Concat(imgs[..k])| + |Concat(imgs[k..m])|
  {
    hide Concat;
    assert imgs[..m] == imgs[..k] + imgs[k..m];
    ConcatAppend(imgs[..k], imgs[k..m]);
  }

  lemma NoBytes(imgs: seq<seq<byte>>)
    requires forall i :: 0 <= i < |imgs| ==> Whole(imgs[i])
    ensures imgs != [] ==> |Concat(imgs)| > 0
  {
    if imgs != [] { assert Whole(imgs[0]); }
  }

  lemma NothingDue(w: Log, j: nat, next: nat, limit: nat, room: nat)
    requires Placed(w) && j < |w.segs| && w.segs[j].base <= next <= w.segs[j].base + |w.segs[j].images|
    requires limit < next
    ensures Yields(w, next, limit, room, next, []) && Slice(w, next, next) == []
  {
    hide Placed, Flat, Entry, End, Slice;
    var k := next - w.segs[j].base;
    SegSlice(w, j, k, k);
    assert w.segs[j].images[k..k] == [];
  }

  /**
   A read that found nothing looks its sequence up. Either that leads back to
   the segment it is in, and then there is nothing to give or no room for it,
   or to the start of the segment after it.
   */
  lemma NextOne(w: Log, j: nat, k: nat, idx: nat, limit: nat, room: nat)
    requires Placed(w) && j < |w.segs| && k <= |w.segs[j].images| && FirstSeq(w) <= w.segs[j].base + k
    requires idx < |Linked(w)| && Linked(w)[idx].base <= w.segs[j].base + k
    requires forall i :: idx < i < |Linked(w)| ==> w.segs[j].base + k < Linked(w)[i].base
    ensures var t := w.gone + idx;
      && t < |w.segs| && w.segs[t] == Linked(w)[idx] && (w.segs[t].images == [] ==> t == |w.segs| - 1)
      && (w.segs[t].base == w.segs[j].base ==> t == j && (k == |w.segs[j].images| ==> j == |w.segs| - 1))
      && (w.segs[t].base != w.segs[j].base ==>
            && t == j + 1 && k == |w.segs[j].images|
            && w.segs[t].base == w.segs[j].base + k && StandsAt(w, t, w.segs[t].base, 0, w.segs[t].base))
  {
    hide SegOk, Concat, AllEndClean;
    var t, n := w.gone + idx, w.segs[j].base + k;
    var s := w.segs[j];
    NextBound(w, j, k);
    SegmentOf(w, n, idx);
    EitherAscends(w, t, j);
    EitherAscends(w, j, t);
    if t < |w.segs| - 1 { assert Link(w.segs, t); }
    if j + 1 < t {
      BasesAscend(w.segs, w.cap, j + 1, t);
      BasesAscend(w.segs, w.cap, j, j + 1);
    }
    StandsFirst(w, t);
  }

  lemma EitherAscends(w: Log, i: nat, j: nat)
    requires Placed(w) && i < |w.segs| && j < |w.segs|
    ensures i < j ==> w.segs[i].base + |w.segs[i].images| <= w.segs[j].base && w.segs[i].images != []
  {
    hide SegOk, Concat;
    if i < j { BasesAscend(w.segs, w.cap, i, j); }
  }

  lemma PlaceFacts(w: Log, j: nat, base: nat, off: nat, next: nat)
    requires Placed(w) && StandsAt(w, j, base, off, next)
    ensures j < |w.segs| && w.segs[j].base == base <= next <= base + |w.segs[j].images|
    ensures off == |Concat(w.segs[j].images[..next - base])| <= |w.segs[j].file| && 0 < base
  {
    hide Concat, Segment.IsRun;
    var s := w.segs[j];
    assert SegOk(s, w.cap);
    OffsetOf(s, w.cap, next - base);
  }

  lemma NextBound(w: Log, j: nat, k: nat)
    requires Placed(w) && j < |w.segs| && k <= |w.segs[j].images|
    ensures w.segs[j].base + k <= Next(w)
  {
    hide SegOk, Concat;
    if j < |w.segs| - 1 { BasesAscend(w.segs, w.cap, j, |w.segs| - 1); }
  }

  ghost function FirstOf(w: Wal): nat
    reads w
    requires w.log.gone < |w.log.segs|
  {
    FirstSeq(w.log)
  }

  lemma FirstIs(w: Wal)
    requires w.Valid()
    ensures w.log.gone < |w.log.segs| && 0 < w.table.count <= w.table.bases.Length
    ensures w.table.bases[0] as nat == FirstSeq(w.log)
  {
    hide Chain, Headed, Heads, Flat, Mirrors, HoldsFinished, Segment.IsRun, KeyIndex.Accounts, Ascending, Members,
      Concat, AllEndClean;
    assert w.table.Bases()[0] == w.table.bases[0];
  }

  lemma NotEmptyLog(w: Wal)
    requires w.Valid()
    ensures w.log.gone < |w.log.segs|
  {
    hide Placed, Headed, Heads, Flat, Mirrors, HoldsFinished, KeyIndex.Accounts, Ascending, Members, BasesOf;
    NotEmpty(w.log);
  }

  lemma StandsFirst(w: Log, j: nat)
    requires j < |w.segs|
    ensures StandsAt(w, j, w.segs[j].base, 0, w.segs[j].base)
  {
    assert w.segs[j].images[..0] == [];
  }

  /** What the seek reads under it, and where that takes it. */
  lemma SeekStep(w: Log, j: nat, base: nat, off: nat, next: nat)
    requires Placed(w) && StandsAt(w, j, base, off, next) && next < base + |w.segs[j].images|
    ensures off + HEADER <= |w.segs[j].file|
    ensures var r := Decode(w.segs[j].file[off..off + HEADER]);
      && !IsEnd(r) && SizeOf(r) > 0 && r.seqno == next
      && StandsAt(w, j, base, off + SizeOf(r), next + 1)
  {
    hide SegOk, Concat, Decode;
    assert SegOk(w.segs[j], w.cap);
    HeaderUnder(w.segs[j], w.cap, next - base);
  }

  // ---- a reader over a whole run ----

  /** v has everything w had, in the same places. */
  ghost predicate Extends(w: Log, v: Log) {
    && |w.segs| <= |v.segs|
    && forall i :: 0 <= i < |w.segs| ==>
         && v.segs[i].base == w.segs[i].base && |w.segs[i].images| <= |v.segs[i].images|
         && v.segs[i].images[..|w.segs[i].images|] == w.segs[i].images
  }

  lemma WriteExtends(w: Log, img: seq<byte>)
    requires w.segs != [] && w.writeOff <= |Last(w).file|
    ensures Extends(w, Write(w, img))
  {
    hide WriteAt;
  }

  lemma StepExtends(w: Log, op: Op)
    requires Allowed(w, op)
    ensures Extends(w, Step(w, op))
  {
    hide WriteAt, Encode, Retain;
    match op
    case OpAppend(r, payload) =>
      var size := SizeOf(r);
      var v := RollIfFull(w, size);
      if Append(w, r, payload, MAX_SIZE).1.Ok? {
        WriteExtends(v, Encode(r.(seqno := Next(w)), payload));
      }
    case OpSync =>
    case OpRetain(keep, fails) => RetainSegs(w, keep, fails);
  }

  lemma RetainSegs(w: Log, keep: nat, fails: nat)
    requires w.gone <= |w.segs|
    ensures Retain(w, keep, fails).segs == w.segs
  {}

  /** A cursor keeps its place whatever the log does meanwhile. */
  lemma StandsStable(w: Log, op: Op, base: nat, off: nat, next: nat)
    requires Allowed(w, op) && Stands(w, base, off, next)
    ensures Stands(Step(w, op), base, off, next)
  {
    hide Step, Allowed, Concat;
    StepExtends(w, op);
    var v := Step(w, op);
    var j: nat :| StandsAt(w, j, base, off, next);
    assert v.segs[j].images[..next - base] == v.segs[j].images[..|w.segs[j].images|][..next - base];
    assert StandsAt(v, j, base, off, next);
  }

  lemma OriginStays(w: Log, op: Op)
    requires w.segs != [] && Allowed(w, op)
    ensures Step(w, op).segs != [] && Origin(Step(w, op)) == Origin(w)
  {
    hide Step, Allowed;
    StepExtends(w, op);
    assert Step(w, op).segs[0].base == w.segs[0].base;
  }

  lemma PrefixSlice<T>(s: seq<T>, t: seq<T>, k: nat, m: nat)
    requires |s| <= |t| && t[..|s|] == s && k <= m <= |s|
    ensures s[k..m] == t[k..m]
  {
    assert t[..|s|][k..m] == t[k..m];
  }

  lemma SliceStable(w: Log, op: Op, a: nat, b: nat)
    requires Good(w) && TailClean(w) && Allowed(w, op) && w.segs != [] && Origin(w) <= a <= b <= End(w)
    ensures var v := Step(w, op);
      v.segs != [] && Origin(v) == Origin(w) && End(w) <= End(v) && Slice(v, a, b) == Slice(w, a, b)
  {
    hide Step, Good, TailClean, Allowed, Flat;
    OriginStays(w, op);
    StepGood(w, op);
    var v, o := Step(w, op), Origin(w);
    PrefixSlice(Flat(w.segs), Flat(v.segs), a - o, b - o);
  }

  /** The log moves on, or the reader takes what a read gives. */
  datatype Event =
    | Do(op: Op)
    | Take(limit: nat, room: nat, upto: nat, out: seq<byte>)

  ghost predicate Happens(w: Log, next: nat, e: Event) {
    match e
    case Do(op) => Allowed(w, op)
    case Take(limit, room, upto, out) =>
      w.gone < |w.segs| && FirstSeq(w) <= next && Yields(w, next, limit, room, upto, out)
  }

  function LogAfter(w: Log, e: Event): Log
    requires e.Do? ==> Allowed(w, e.op)
  {
    if e.Do? then Step(w, e.op) else w
  }

  function NextAfter(next: nat, e: Event): nat {
    if e.Do? then next else e.upto
  }

  function OutOf(e: Event): seq<byte> {
    if e.Do? then [] else e.out
  }

  ghost predicate Story(w: Log, next: nat, es: seq<Event>)
    decreases |es|
  {
    es == [] || (Happens(w, next, es[0]) && Story(LogAfter(w, es[0]), NextAfter(next, es[0]), es[1..]))
  }

  function Delivered(es: seq<Event>): seq<byte> {
    if es == [] then [] else OutOf(es[0]) + Delivered(es[1..])
  }

  ghost function FinalLog(w: Log, next: nat, es: seq<Event>): Log
    requires Story(w, next, es)
    decreases |es|
  {
    if es == [] then w else FinalLog(LogAfter(w, es[0]), NextAfter(next, es[0]), es[1..])
  }

  function FinalNext(next: nat, es: seq<Event>): nat
    decreases |es|
  {
    if es == [] then next else FinalNext(NextAfter(next, es[0]), es[1..])
  }

  lemma SliceJoin(w: Log, a: nat, b: nat, c: nat)
    requires w.segs != [] && Origin(w) <= a <= b <= c <= End(w)
    ensures Concat(Slice(w, a, c)) == Concat(Slice(w, a, b)) + Concat(Slice(w, b, c))
  {
    hide Flat, Concat;
    assert Slice(w, a, c) == Slice(w, a, b) + Slice(w, b, c);
    ConcatAppend(Slice(w, a, b), Slice(w, b, c));
  }

  lemma EventKeeps(w: Log, next: nat, e: Event)
    requires Good(w) && TailClean(w) && w.segs != [] && Origin(w) <= next <= End(w) && Happens(w, next, e)
    ensures var v, n := LogAfter(w, e), NextAfter(next, e);
      && Good(v) && TailClean(v) && v.segs != [] && Origin(v) <= next <= n <= End(v)
      && OutOf(e) == Concat(Slice(v, next, n))
  {
    hide Good, TailClean, Flat, Slice, Step, Allowed;
    match e
    case Do(op) =>
      StepGood(w, op);
      SliceStable(w, op, next, next);
      EmptySlice(Step(w, op), next);
    case Take(_, _, _, _) =>
  }

  lemma EmptySlice(w: Log, n: nat)
    ensures Concat(Slice(w, n, n)) == []
  {
    assert Slice(w, n, n) == [];
    ConcatNone();
  }

  lemma {:induction false} SliceStableRun(w: Log, next: nat, es: seq<Event>, a: nat, b: nat)
    requires Good(w) && TailClean(w) && w.segs != []
    requires Origin(w) <= a <= b <= End(w) && Origin(w) <= next <= End(w)
    requires Story(w, next, es)
    ensures var v := FinalLog(w, next, es);
      v.segs != [] && Origin(v) == Origin(w) && End(w) <= End(v) && Slice(v, a, b) == Slice(w, a, b)
    decreases |es|
  {
    hide Good, TailClean, Flat, Slice, Step, Allowed, Yields;
    if es != [] {
      EventKeeps(w, next, es[0]);
      if es[0].Do? { SliceStable(w, es[0].op, a, b); }
      SliceStableRun(LogAfter(w, es[0]), NextAfter(next, es[0]), es[1..], a, b);
    }
  }

  /**
   Whatever appends, flushes, rollovers and retention come between its reads,
   a reader that is never refused has been given exactly the records from
   where it started up to where it stands, each once, in order.
   */
  lemma {:induction false} ReaderSeesAll(w: Log, next: nat, es: seq<Event>)
    requires Good(w) && TailClean(w) && w.segs != [] && Origin(w) <= next <= End(w) && Story(w, next, es)
    ensures var v, n := FinalLog(w, next, es), FinalNext(next, es);
      && v.segs != [] && Origin(v) <= next <= n <= End(v)
      && Delivered(es) == Concat(Slice(v, next, n))
    decreases |es|
  {
    hide Good, TailClean, Flat, Slice, Step, Allowed, Yields;
    if es == [] {
      EmptySlice(w, next);
    } else {
      EventKeeps(w, next, es[0]);
      var w1, n1 := LogAfter(w, es[0]), NextAfter(next, es[0]);
      ReaderSeesAll(w1, n1, es[1..]);
      SliceStableRun(w1, n1, es[1..], next, n1);
      SliceJoin(FinalLog(w1, n1, es[1..]), next, n1, FinalNext(n1, es[1..]));
    }
  }
}
