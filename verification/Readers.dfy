/**
 Readers and subscribers: what a connection is sent of the log, however the
 key index narrowed its walk and whatever the log did meanwhile.
 */
module Readers {
  import opened Bytes
  import opened Record
  import opened Cursor
  import Msg

  /** What a reader asks for: one key, or every record. */
  datatype Want = Want(all: bool, key: u64)

  predicate Wants(q: Want, img: seq<byte>) {
    |img| >= HEADER && (q.all || Decode(img).key == q.key)
  }

  /** The records asked for, in order. */
  function Pick(q: Want, imgs: seq<seq<byte>>): seq<seq<byte>> {
    if imgs == [] then []
    else Pick(q, imgs[..|imgs| - 1]) + if Wants(q, imgs[|imgs| - 1]) then [imgs[|imgs| - 1]] else []
  }

  /** A record as a frame on the wire: its own sequence, key and type, and its payload. */
  function Notice(img: seq<byte>): seq<byte> {
    if |img| < HEADER then []
    else
      var r := Decode(img);
      Msg.Encode(Msg.New(Msg.OP_NOTIFY, r.recordType, 0, r.len, r.key, r.seqno))
      + if HEADER + r.len <= |img| then img[HEADER..HEADER + r.len] else []
  }

  function Notices(imgs: seq<seq<byte>>): seq<byte> {
    if imgs == [] then [] else Notices(imgs[..|imgs| - 1]) + Notice(imgs[|imgs| - 1])
  }

  /** A sequence as the wire carries it; sequences stay below the limit. */
  function Word(n: nat): u64 {
    if n < U64_LIMIT then n else 0
  }

  /** The empty frame that ends a read. */
  function LastFrame(until: nat): seq<byte> {
    Msg.Encode(Msg.New(Msg.OP_NOTIFY, 0, Msg.FLAG_LAST, 0, 0, Word(until)))
  }

  // ---- picking ----

  lemma PickPush(q: Want, imgs: seq<seq<byte>>, img: seq<byte>)
    ensures Pick(q, imgs + [img]) == Pick(q, imgs) + if Wants(q, img) then [img] else []
  {
    assert (imgs + [img])[..|imgs|] == imgs;
  }

  lemma {:induction false} PickJoin(q: Want, a: seq<seq<byte>>, b: seq<seq<byte>>)
    ensures Pick(q, a + b) == Pick(q, a) + Pick(q, b)
    decreases |b|
  {
    if b == [] {
      assert a + b == a;
      assert Pick(q, a) + [] == Pick(q, a);
    } else {
      var n := |b| - 1;
      PickJoin(q, a, b[..n]);
      assert a + b == (a + b[..n]) + [b[n]];
      PickPush(q, a + b[..n], b[n]);
    }
  }

  lemma {:induction false} PickNone(q: Want, imgs: seq<seq<byte>>)
    requires forall i :: 0 <= i < |imgs| ==> !Wants(q, imgs[i])
    ensures Pick(q, imgs) == []
  {
    if imgs != [] {
      PickNone(q, imgs[..|imgs| - 1]);
    }
  }

  lemma NoticesPush(imgs: seq<seq<byte>>, img: seq<byte>)
    ensures Notices(imgs + [img]) == Notices(imgs) + Notice(img)
  {
    hide Notice;
    assert (imgs + [img])[..|imgs|] == imgs;
  }

  lemma {:induction false} NoticesJoin(a: seq<seq<byte>>, b: seq<seq<byte>>)
    ensures Notices(a + b) == Notices(a) + Notices(b)
    decreases |b|
  {
    hide Notice;
    if b == [] {
      assert a + b == a;
      assert Notices(a) + [] == Notices(a);
    } else {
      var n := |b| - 1;
      NoticesJoin(a, b[..n]);
      assert a + b == (a + b[..n]) + [b[n]];
      NoticesPush(a + b[..n], b[n]);
    }
  }

  /** A record takes less room on the wire than it does on disk. */
  lemma NoticeSmaller(img: seq<byte>)
    requires Whole(img)
    ensures |Notice(img)| == Msg.HEADER + Decode(img).len <= |img|
  {}

  /** Whatever is read from the log fits where it is sent from, if the read fitted. */
  lemma {:induction false} NoticesFit(q: Want, imgs: seq<seq<byte>>)
    requires forall i :: 0 <= i < |imgs| ==> Whole(imgs[i])
    ensures |Notices(Pick(q, imgs))| <= |Concat(imgs)|
  {
    hide Notice, Wants, Whole;
    if imgs != [] {
      var n := |imgs| - 1;
      NoticesFit(q, imgs[..n]);
      NoticeSmaller(imgs[n]);
      ConcatPush(imgs, n);
      assert imgs[..n + 1] == imgs;
      NoticesPush(Pick(q, imgs[..n]), imgs[n]);
      assert Pick(q, imgs[..n]) + [] == Pick(q, imgs[..n]);
    }
  }

  lemma PickedNext(q: Want, imgs: seq<seq<byte>>, n: nat)
    requires n < |imgs| && Whole(imgs[n])
    ensures var img, r := imgs[n], Decode(imgs[n]);
      Notices(Pick(q, imgs[..n + 1])) == Notices(Pick(q, imgs[..n])) +
        if q.all || r.key == q.key then
          Msg.Encode(Msg.New(Msg.OP_NOTIFY, r.recordType, 0, r.len, r.key, r.seqno)) + img[HEADER..HEADER + r.len]
        else []
  {
    hide Pick, Notices, Decode;
    var img := imgs[n];
    assert imgs[..n + 1] == imgs[..n] + [img];
    PickPush(q, imgs[..n], img);
    NoticesPush(Pick(q, imgs[..n]), img);
    assert Pick(q, imgs[..n]) + [] == Pick(q, imgs[..n]);
    var before := Notices(Pick(q, imgs[..n]));
    assert before + [] == before;
    NoticeSmaller(img);
  }

  /** Where record n of a block lies in it. */
  lemma BlockNext(imgs: seq<seq<byte>>, n: nat)
    requires n < |imgs| && Whole(imgs[n])
    ensures var block, at, img := Concat(imgs), |Concat(imgs[..n])|, imgs[n];
      && HEADER + Decode(img).len <= |img| && at + |img| <= |block|
      && |Concat(imgs[..n + 1])| == at + |img| && SizeOf(Decode(img)) == |img|
      && Decode(block[at..]) == Decode(img)
      && block[at + HEADER..at + HEADER + Decode(img).len] == img[HEADER..HEADER + Decode(img).len]
  {
    hide Concat;
    var block, at, img := Concat(imgs), |Concat(imgs[..n])|, imgs[n];
    ConcatPush(imgs, n);
    assert imgs == imgs[..n + 1] + imgs[n + 1..];
    ConcatAppend(imgs[..n + 1], imgs[n + 1..]);
    RecordLen(img);
    InMiddle(Concat(imgs[..n]), img, Concat(imgs[n + 1..]), block);
    hide Decode;
    DecodePrefix(block[at..], img);
    assert block[at..][HEADER..HEADER + Decode(img).len] == block[at + HEADER..at + HEADER + Decode(img).len];
    assert block[at..][..|img|][HEADER..HEADER + Decode(img).len] == block[at..][HEADER..HEADER + Decode(img).len];
  }

  lemma RecordLen(img: seq<byte>)
    requires Whole(img)
    ensures HEADER + Decode(img).len <= |img| && SizeOf(Decode(img)) == |img|
  {
    hide Decode, Verify;
  }

  lemma InMiddle(a: seq<byte>, b: seq<byte>, c: seq<byte>, all: seq<byte>)
    requires all == a + b + c
    ensures all[|a|..][..|b|] == b
    ensures forall k :: 0 <= k <= |b| ==> all[|a|..][..k] == b[..k]
  {
    assert all[|a|..] == b + c;
  }

  lemma AllTaken(imgs: seq<seq<byte>>, n: nat)
    requires n <= |imgs| && (forall i :: 0 <= i < |imgs| ==> Whole(imgs[i]))
    requires |Concat(imgs[..n])| >= |Concat(imgs)|
    ensures imgs[..n] == imgs
  {
    hide Concat, Whole, Decode;
    if n < |imgs| {
      BlockNext(imgs, n);
    }
  }

  lemma NothingPicked(q: Want, imgs: seq<seq<byte>>)
    requires imgs == []
    ensures Notices(Pick(q, imgs)) == []
  {}

  lemma FitsSoFar(q: Want, imgs: seq<seq<byte>>, n: nat)
    requires n <= |imgs| && forall i :: 0 <= i < |imgs| ==> Whole(imgs[i])
    ensures |Notices(Pick(q, imgs[..n]))| <= |Concat(imgs[..n])|
  {
    hide Decode, Notices, Pick, Concat;
    NoticesFit(q, imgs[..n]);
  }

  // ---- the loop over one block ----

  /** A connection's outgoing bytes. */
  class Outgoing {
    const buf: array<byte>
    var len: nat

    ghost predicate Valid()
      reads this
    {
      len <= buf.Length
    }

    ghost function Staged(): seq<byte>
      requires Valid()
      reads this, buf
    {
      buf[..len]
    }

    constructor (cap: nat)
      ensures Valid() && Staged() == [] && buf.Length == cap && fresh(buf)
    {
      buf := new byte[cap](_ => 0);
      len := 0;
    }

    /** The bytes an answer comes to: a header and a payload, or nothing when there is no room. */
    function WouldStage(op: u16, flags: u16, sequence: u64, payload: seq<byte>): seq<byte>
      requires |payload| <= Msg.MAX_PAYLOAD && len <= buf.Length
      reads this
    {
      if buf.Length - len < Msg.HEADER + |payload| then []
      else Msg.Encode(Msg.New(op, 0, flags, |payload|, 0, sequence)) + payload
    }

    /** Any answer but a record. */
    method Reply(op: u16, flags: u16, sequence: u64, payload: seq<byte>) returns (ok: bool)
      requires Valid() && |payload| <= Msg.MAX_PAYLOAD
      modifies this, buf
      ensures Valid() && (ok <==> buf.Length - old(len) >= Msg.HEADER + |payload|)
      ensures Staged() == old(Staged()) + old(WouldStage(op, flags, sequence, payload))
    {
      hide Msg.Encode;
      if buf.Length - len < Msg.HEADER + |payload| {
        assert Staged() + [] == Staged();
        return false;
      }
      var h := Msg.Encode(Msg.New(op, 0, flags, |payload|, 0, sequence));
      ghost var was := buf[..];
      MemPut(buf, len, h + payload);
      len := len + Msg.HEADER + |payload|;
      assert buf[..][..len] == was[..old(len)] + (h + payload);
      ok := true;
    }

    /** A record on its way to a reader; false, and nothing staged, when there is no room. */
    method ReplyRecord(r: Rec, payload: seq<byte>) returns (ok: bool)
      requires Valid() && |payload| == r.len
      modifies this, buf
      ensures Valid() && (ok <==> buf.Length - old(len) >= Msg.HEADER + |payload|)
      ensures Staged() == old(Staged()) + if ok then
        Msg.Encode(Msg.New(Msg.OP_NOTIFY, r.recordType, 0, r.len, r.key, r.seqno)) + payload else []
    {
      hide Msg.Encode;
      var room := buf.Length - len;
      if room < Msg.HEADER + |payload| {
        assert Staged() + [] == Staged();
        return false;
      }
      var h := Msg.Encode(Msg.New(Msg.OP_NOTIFY, r.recordType, 0, r.len, r.key, r.seqno));
      ghost var was := buf[..];
      MemPut(buf, len, h + payload);
      len := len + Msg.HEADER + |payload|;
      assert buf[..][..len] == was[..old(len)] + (h + payload);
      ok := true;
    }

    /**
     Every record of a block that the reader asked for, as frames: none is
     dropped, since the block was no larger than the room.
     */
    method PushBlock(q: Want, block: seq<byte>, ghost imgs: seq<seq<byte>>)
      requires Valid() && |block| <= buf.Length - len
      requires block == Concat(imgs) && forall i :: 0 <= i < |imgs| ==> Whole(imgs[i])
      modifies this, buf
      ensures Valid() && Staged() == old(Staged()) + Notices(Pick(q, imgs))
    {
      hide Concat, Decode, Notice, Notices, Pick, Wants, Whole, Msg.Encode;
      var at := 0;
      ghost var n := 0;
      assert imgs[..0] == [];
      ConcatNone();
      NothingPicked(q, imgs[..0]);
      assert Staged() + [] == Staged();
      while at < |block|
        invariant n <= |imgs| && at == |Concat(imgs[..n])| <= |block|
        invariant Valid() && Staged() == old(Staged()) + Notices(Pick(q, imgs[..n]))
        decreases |block| - at
      {
        assert n < |imgs| by { assert imgs[..|imgs|] == imgs; }
        BlockNext(imgs, n);
        PickedNext(q, imgs, n);
        FitsSoFar(q, imgs, n);
        if |block| - at < HEADER {
          break;
        }
        var rec := Decode(block[at..]);
        var size := Size(ToInt32(rec.len));
        if size == 0 || at + size > |block| {
          break;
        }
        if q.all || rec.key == q.key {
          var ok := ReplyRecord(rec, block[at + HEADER..at + HEADER + rec.len]);
        }
        at := at + size;
        n := n + 1;
      }
      AllTaken(imgs, n);
    }
  }
}
