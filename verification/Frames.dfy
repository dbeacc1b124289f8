/**
 What a client makes of the bytes it is sent: frame by frame, the fields each
 one decodes to, and that a whole read parses into its records and its end.
 */
module Frames {
  import opened Bytes
  import opened Record
  import opened Readers
  import opened Wrappers
  import Conn
  import Cursor
  import Delivery
  import Msg
  import Passes
  import Requests
  import Store
  import Wal

  // ---- one frame ----

  /** The fields of a header that is not about a stream's own use of them. */
  ghost predicate IsHeader(h: Msg.Header, op: nat, flags: nat, recordType: nat, len: nat, key: nat, sequence: nat) {
    && h.magic == Msg.MAGIC && h.version == Msg.VERSION
    && h.op == op && h.flags == flags && h.recordType == recordType && h.payloadLen == len
    && h.key == key && h.sequence == sequence
  }

  lemma Sent(h: Msg.Header, body: seq<byte>)
    ensures var s := Msg.Encode(h) + body;
      Msg.Fields(s) == h && s[Msg.HEADER..] == body
  {
    hide Msg.Encode, Msg.Fields;
    Msg.EncodeDecodes(h, body);
  }

  /** A record's frame names the record: its own type, length, key and sequence, and carries its payload. */
  lemma NoticeIs(img: seq<byte>)
    requires Whole(img)
    ensures var s, r := Notice(img), Decode(img);
      && HEADER + r.len <= |img| && |s| == Msg.HEADER + r.len
      && IsHeader(Msg.Fields(s), Msg.OP_NOTIFY, 0, r.recordType, r.len, r.key, r.seqno)
      && s[Msg.HEADER..] == img[HEADER..HEADER + r.len]
  {
    hide Msg.Encode, Msg.Fields, Decode;
    NoticeSmaller(img);
    var r := Decode(img);
    Sent(Msg.New(Msg.OP_NOTIFY, r.recordType, 0, r.len, r.key, r.seqno), img[HEADER..HEADER + r.len]);
  }

  /** The closing frame names the read's end, says that it is the last, and carries nothing. */
  lemma LastIs(until: nat)
    requires until < U64_LIMIT
    ensures |LastFrame(until)| == Msg.HEADER
    ensures IsHeader(Msg.Fields(LastFrame(until)), Msg.OP_NOTIFY, Msg.FLAG_LAST, 0, 0, 0, until)
  {
    hide Msg.Encode, Msg.Fields;
    Sent(Msg.New(Msg.OP_NOTIFY, 0, Msg.FLAG_LAST, 0, 0, until), []);
    assert LastFrame(until) + [] == LastFrame(until);
  }

  /** Any other answer names the sequence it is about, and no key. */
  lemma ReplyIs(o: Outgoing, op: u16, flags: u16, sequence: u64, payload: seq<byte>)
    requires |payload| <= Msg.MAX_PAYLOAD && o.len <= o.buf.Length
    ensures var s := o.WouldStage(op, flags, sequence, payload);
      if o.buf.Length - o.len < Msg.HEADER + |payload| then s == []
      else
        && |s| == Msg.HEADER + |payload|
        && IsHeader(Msg.Fields(s), op, flags, 0, |payload|, 0, sequence) && s[Msg.HEADER..] == payload
  {
    hide Msg.Encode, Msg.Fields;
    Sent(Msg.New(op, 0, flags, |payload|, 0, sequence), payload);
  }

  /** The body of a refusal: its code, and no text. */
  lemma ErrorIs(code: u16)
    ensures Msg.Le16(Msg.ErrBody(code)[0..2]) == code
    ensures forall k :: 2 <= k < 8 ==> Msg.ErrBody(code)[k] == 0
  {
    hide Msg.Le16;
    assert Msg.ErrBody(code)[0..2] == ToLe(code, 2);
    Msg.LeBack16(code);
    ZeroLe(2);
    ZeroLe(4);
    hide ToLe;
  }

  lemma {:induction false} ZeroLe(n: nat)
    ensures AllZero(ToLe(0, n))
  {
    if n > 0 {
      ZeroLe(n - 1);
    }
  }

  // ---- all that a read is sent ----

  /** A record, as the frame that tells of it. */
  function Told(img: seq<byte>): Conn.Action
    requires Whole(img)
  {
    var r := Decode(img);
    RecordLen(img);
    Conn.Frame(Msg.New(Msg.OP_NOTIFY, r.recordType, 0, r.len, r.key, r.seqno), img[HEADER..HEADER + r.len])
  }

  function AllTold(imgs: seq<seq<byte>>): (f: seq<Conn.Action>)
    requires forall i :: 0 <= i < |imgs| ==> Whole(imgs[i])
    ensures |f| == |imgs| && forall i :: 0 <= i < |imgs| ==> f[i] == Told(imgs[i])
  {
    seq(|imgs|, i requires 0 <= i < |imgs| => Told(imgs[i]))
  }

  function Ending(until: u64): Conn.Action {
    Conn.Frame(Msg.New(Msg.OP_NOTIFY, 0, Msg.FLAG_LAST, 0, 0, until), [])
  }

  /** A frame's own bytes. */
  function BytesOf(f: Conn.Action): seq<byte> {
    if f.Frame? then Msg.Encode(f.header) + f.payload else []
  }

  lemma WireCons(f: Conn.Action, rest: seq<Conn.Action>)
    ensures Conn.Wire([f] + rest) == BytesOf(f) + Conn.Wire(rest)
  {
    hide Msg.Encode;
    assert ([f] + rest)[1..] == rest;
  }

  lemma NoWire(frames: seq<Conn.Action>)
    requires frames == []
    ensures Conn.Wire(frames) == []
  {}

  lemma {:induction false} WirePush(frames: seq<Conn.Action>, f: Conn.Action)
    ensures Conn.Wire(frames + [f]) == Conn.Wire(frames) + BytesOf(f)
  {
    hide BytesOf, Conn.Wire;
    if frames == [] {
      NoWire(frames);
      WireCons(f, frames);
      assert frames + [f] == [f] + frames;
      assert [] + BytesOf(f) == BytesOf(f) + [];
    } else {
      WireCons(frames[0], frames[1..]);
      WireCons(frames[0], frames[1..] + [f]);
      assert frames + [f] == [frames[0]] + (frames[1..] + [f]) && frames == [frames[0]] + frames[1..];
      WirePush(frames[1..], f);
      assert BytesOf(frames[0]) + (Conn.Wire(frames[1..]) + BytesOf(f))
          == (BytesOf(frames[0]) + Conn.Wire(frames[1..])) + BytesOf(f);
    }
  }

  lemma {:induction false} ToldWire(imgs: seq<seq<byte>>)
    requires forall i :: 0 <= i < |imgs| ==> Whole(imgs[i])
    ensures Conn.Wire(AllTold(imgs)) == Notices(imgs)
  {
    hide Whole, Notice, Told, Conn.Wire, BytesOf;
    if imgs == [] {
      NoWire(AllTold(imgs));
    } else {
      var n := |imgs| - 1;
      ToldWire(imgs[..n]);
      assert AllTold(imgs) == AllTold(imgs[..n]) + [Told(imgs[n])];
      ToldNotice(imgs[n]);
      WirePush(AllTold(imgs[..n]), Told(imgs[n]));
    }
  }

  lemma ToldNotice(img: seq<byte>)
    requires Whole(img)
    ensures BytesOf(Told(img)) == Notice(img)
  {
    hide Msg.Encode, Decode;
    RecordLen(img);
  }

  /** Frames of records and an ending are legal to whoever has room for the largest of them. */
  lemma {:induction false} ToldLegal(c: Conn.Rules, begun: bool, frames: seq<Conn.Action>)
    requires !c.strict
    requires forall i :: 0 <= i < |frames| ==>
      && frames[i].Frame? && frames[i].header.op == Msg.OP_NOTIFY
      && Conn.LegalAt(c, false, frames[i].header, frames[i].payload)
    ensures Conn.Legal(c, begun, frames)
    decreases |frames|
  {
    if frames != [] {
      ToldLegal(c, begun, frames[1..]);
    }
  }

  /** What a client's parser makes of a frame that tells of this record. */
  ghost predicate TellsOf(a: Conn.Action, img: seq<byte>) {
    && IsRecord(img) && a.Frame?
    && IsHeader(a.header, Msg.OP_NOTIFY, 0, Decode(img).recordType, Decode(img).len, Decode(img).key, Decode(img).seqno)
    && a.payload == Payload(img)
  }

  ghost predicate Ends(a: Conn.Action, until: nat) {
    a.Frame? && IsHeader(a.header, Msg.OP_NOTIFY, Msg.FLAG_LAST, 0, 0, 0, until) && a.payload == []
  }

  /**
   Records as frames and a closing frame, through a parser that has room for each
   record: one frame for each of them, in order, that tells of it, and then the
   closing one; nothing else, and nothing left over.
   */
  lemma ReadParses(cap: nat, begun: bool, imgs: seq<seq<byte>>, until: nat)
    requires until < U64_LIMIT && Msg.HEADER <= cap
    requires forall i :: 0 <= i < |imgs| ==> IsRecord(imgs[i]) && Msg.HEADER + Decode(imgs[i]).len <= cap
    ensures var p := Conn.ParseAll(Conn.Rules(false, cap), begun, Notices(imgs) + LastFrame(until));
      && !p.closed && p.rest == [] && |p.actions| == |imgs| + 1
      && (forall i :: 0 <= i < |imgs| ==> TellsOf(p.actions[i], imgs[i]))
      && Ends(p.actions[|imgs|], until)
  {
    hide IsRecord, Whole, TellsOf, Told, Notices, LastFrame, Conn.ParseAll, Conn.Wire, Conn.Legal, Conn.LegalAt, Decode,
      Ending, Ends, BytesOf;
    var c := Conn.Rules(false, cap);
    EachTold(c, imgs);
    var frames := AllTold(imgs) + [Ending(until)];
    EndingIs(c, until);
    ToldWire(imgs);
    WirePush(AllTold(imgs), Ending(until));
    ToldLegal(c, begun, frames);
    Conn.WireParses(c, begun, frames);
  }

  lemma EachTold(c: Conn.Rules, imgs: seq<seq<byte>>)
    requires !c.strict && forall i :: 0 <= i < |imgs| ==> IsRecord(imgs[i]) && Msg.HEADER + Decode(imgs[i]).len <= c.cap
    ensures forall i :: 0 <= i < |imgs| ==> Whole(imgs[i])
    ensures forall i :: 0 <= i < |imgs| ==>
      && TellsOf(AllTold(imgs)[i], imgs[i])
      && AllTold(imgs)[i].Frame? && AllTold(imgs)[i].header.op == Msg.OP_NOTIFY
      && Conn.LegalAt(c, false, AllTold(imgs)[i].header, AllTold(imgs)[i].payload)
  {
    hide TellsOf, Told, Conn.LegalAt, Decode, Verify;
    forall i | 0 <= i < |imgs|
      ensures Whole(imgs[i]) && TellsOf(Told(imgs[i]), imgs[i])
      ensures Told(imgs[i]).Frame? && Told(imgs[i]).header.op == Msg.OP_NOTIFY
      ensures Conn.LegalAt(c, false, Told(imgs[i]).header, Told(imgs[i]).payload)
    {
      ToldIs(c, imgs[i]);
    }
  }

  lemma EndingIs(c: Conn.Rules, until: nat)
    requires until < U64_LIMIT && Msg.HEADER <= c.cap && !c.strict
    ensures Ending(until).Frame? && Ending(until).header.op == Msg.OP_NOTIFY
    ensures Conn.LegalAt(c, false, Ending(until).header, Ending(until).payload) && Ends(Ending(until), until)
    ensures BytesOf(Ending(until)) == LastFrame(until)
  {
    hide Msg.Encode;
    assert Msg.Encode(Ending(until).header) + [] == Msg.Encode(Ending(until).header);
  }

  lemma ToldIs(c: Conn.Rules, img: seq<byte>)
    requires IsRecord(img) && Msg.HEADER + Decode(img).len <= c.cap && !c.strict
    ensures Whole(img) && TellsOf(Told(img), img) && Told(img).Frame? && Told(img).header.op == Msg.OP_NOTIFY
    ensures Conn.LegalAt(c, false, Told(img).header, Told(img).payload)
  {
    hide Decode, Verify;
    RecordLen(img);
    LenFits(Decode(img));
  }

  lemma LenFits(r: Rec)
    requires SizeOf(r) != 0
    ensures r.len <= MAX_PAYLOAD
  {}

  // ---- a whole read, as it arrives ----

  /** Every record of an answer is one. */
  lemma AnswerRecords(q: Want, w: Store.Log, i: nat)
    requires Store.Placed(w) && i < |Delivery.Answer(q, w)|
    ensures IsRecord(Delivery.Answer(q, w)[i])
  {
    hide Store.Chain, Store.Flat, Pick, IsRecord, Concat;
    Delivery.Bounds(w);
    var a := Store.FirstSeq(w);
    var s, img := Cursor.Slice(w, a, w.durable + 1), Delivery.Answer(q, w)[i];
    Requests.PickHas(q, s, img);
    var k :| 0 <= k < |s| && s[k] == img;
    assert s[k] == Cursor.Entry(w, a + k);
    Passes.EntrySize(w, a + k);
  }

  /**
   A read that has ended, through the client's parser: one frame for each record
   asked for that was flushed when the read came, in order, that names the
   record and carries its payload; then the closing one, with the sequence the
   read went to. The parser need only have room for each of the records.
   */
  lemma ReadArrives(w: Store.Log, q: Want, range: Option<(nat, nat)>, complete: bool, room: nat, ts: seq<Passes.Turn>,
                    cap: nat, begun: bool)
    requires Store.Good(w) && Store.TailClean(w) && Wal.Headed(Store.Flat(w.segs))
    requires Delivery.IndexSays(w, q.key, Store.FirstSeq(w), range, complete)
    requires var p := Delivery.PlanRead(q, Store.FirstSeq(w), w.durable, range, complete);
      && Passes.Turns(q, w, Passes.Began(p), room, ts) && Passes.Readable(w, p, room)
      && Passes.Free(q, w, Passes.Began(p), room, ts) >= Passes.Needed(Passes.Began(p))
      && Passes.Began(p).until < U64_LIMIT
    requires Msg.HEADER <= cap && forall i :: 0 <= i < |Delivery.Answer(q, w)| ==>
      |Delivery.Answer(q, w)[i]| >= HEADER && Msg.HEADER + Decode(Delivery.Answer(q, w)[i]).len <= cap
    ensures var p, told := Delivery.PlanRead(q, Store.FirstSeq(w), w.durable, range, complete), Delivery.Answer(q, w);
      var y := Passes.After(q, w, Passes.Began(p), room, ts);
      var got := Conn.ParseAll(Conn.Rules(false, cap), begun, y.sent);
      && !y.active && !got.closed && got.rest == [] && |got.actions| == |told| + 1
      && (forall i :: 0 <= i < |told| ==> TellsOf(got.actions[i], told[i]))
      && Ends(got.actions[|told|], Passes.Began(p).until)
  {
    hide Store.Chain, Store.AllEndClean, Store.TailClean, Store.Flat, Wal.Headed, Delivery.IndexSays, Delivery.PlanRead,
      Delivery.Answer, Passes.Turns, Passes.Readable, Passes.Free, Passes.Needed, Passes.Began, Passes.After,
      Conn.ParseAll, TellsOf, Ends, IsRecord, Decode, Notices, LastFrame;
    Passes.ReadExact(w, q, range, complete, room, ts);
    var p, told := Delivery.PlanRead(q, Store.FirstSeq(w), w.durable, range, complete), Delivery.Answer(q, w);
    forall i | 0 <= i < |told|
      ensures IsRecord(told[i])
    {
      AnswerRecords(q, w, i);
    }
    ReadParses(cap, begun, told, Passes.Began(p).until);
  }
}
