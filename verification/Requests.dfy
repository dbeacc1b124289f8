/**
 What a write asks for, the record it becomes, and which reads that record
 answers once it is flushed.
 */
module Requests {
  import opened Bytes
  import opened Record
  import opened Segment
  import opened Store
  import opened Cursor
  import opened Readers
  import opened Recovery
  import opened Wrappers
  import Acks
  import Delivery
  import Msg

  /** A frame as the handlers read it. */
  datatype Request = Request(sequence: u64, recordType: u16, flags: u16, key: u64, payload: seq<byte>) {
    /** What its flags ask for. */
    function Ask(): Acks.Ask {
      Acks.Ask(Acks.Flags(Has(flags, Msg.FLAG_ACK_REQ), Has(flags, Msg.FLAG_SYNC), Has(flags, Msg.FLAG_REPLICATED),
                          false),
               Has(flags, Msg.FLAG_ALLOW_DEGRADED))
    }
  }

  predicate Has(flags: u16, flag: u16) {
    flag != 0 && flags / flag % 2 == 1
  }

  function Bit(b: bool): nat {
    if b then 1 else 0
  }

  lemma Parity(n: nat, b: bool, half: nat)
    requires n == Bit(b) + 2 * half
    ensures n / 2 == half && (n % 2 == 1 <==> b)
  {}

  /** The four lowest bits of the flags word, from the lowest up, are what a write may ask for. */
  lemma AskIs(q: Request, ackReq: bool, sync: bool, replicated: bool, degradable: bool, rest: nat)
    requires q.flags == Bit(ackReq) + 2 * Bit(sync) + 4 * Bit(replicated) + 8 * Bit(degradable) + 16 * rest
    ensures q.Ask() == Acks.Ask(Acks.Flags(ackReq, sync, replicated, false), degradable)
  {
    hide Bit;
    Parity(q.flags, ackReq, Bit(sync) + 2 * Bit(replicated) + 4 * Bit(degradable) + 8 * rest);
    Parity(q.flags / 2, sync, Bit(replicated) + 2 * Bit(degradable) + 4 * rest);
    Parity(q.flags / 4, replicated, Bit(degradable) + 2 * rest);
    Parity(q.flags / 8, degradable, rest);
  }

  /** The record a write becomes. */
  function NewRec(session: nat, q: Request): Rec
    requires session < U64_LIMIT && |q.payload| < 0x1_0000_0000
  {
    Rec(0, |q.payload|, 1, 0, session, q.sequence, q.recordType, q.flags, 0, q.key)
  }

  /** img is the record with sequence n of what was asked to be written in this session. */
  ghost predicate Carries(img: seq<byte>, session: nat, q: Request, n: nat) {
    && IsRecordAt(img, n) && Payload(img) == q.payload
    && var r := Decode(img);
       && r.key == q.key && r.session == session && r.clientSeq == q.sequence
       && r.recordType == q.recordType && r.flags == q.flags
       && r.len == |q.payload| && r.term == 1 && r.pad == 0
  }

  lemma EncodedCarries(session: nat, q: Request, n: nat)
    requires session < U64_LIMIT && |q.payload| <= MAX_PAYLOAD && n < U64_LIMIT
    ensures Carries(Encode(NewRec(session, q).(seqno := n), q.payload), session, q, n)
  {
    hide Encode, Decode, Verify, Crc32c.Sum, IsRecord;
    EncodeDecodes(NewRec(session, q).(seqno := n), q.payload);
    EncodedAt(NewRec(session, q).(seqno := n), q.payload);
  }

  /** v is w and one more record, with sequence n, that carries what was asked to be written. */
  ghost predicate Stores(w: Log, v: Log, session: nat, q: Request, n: nat) {
    && w.segs != [] && v.segs != [] && n == Next(w) == End(w) && Next(v) == n + 1
    && Flat(v.segs) == Flat(w.segs) + [Entry(v, n)] && Carries(Entry(v, n), session, q, n)
  }

  /** v and res are what taking the write comes to: an append of its record, which then carries what was written. */
  ghost predicate Takes(w: Log, session: nat, q: Request, scratch: nat, v: Log, res: Result<nat>)
    requires session < U64_LIMIT && |q.payload| < 0x1_0000_0000
  {
    && Appends(w, NewRec(session, q), q.payload, scratch, v, res)
    && (res.Ok? ==> Stores(w, v, session, q, res.value))
  }

  lemma TakesIs(w: Log, session: nat, q: Request, scratch: nat, v: Log, res: Result<nat>)
    requires Placed(w) && session < U64_LIMIT && |q.payload| < 0x1_0000_0000
    requires Appends(w, NewRec(session, q), q.payload, scratch, v, res)
    ensures Takes(w, session, q, scratch, v, res)
  {
    hide Placed, Chain, Encode, Append, Flat, SizeOf, Carries;
    AppendKeeps(w, NewRec(session, q), q.payload, scratch);
    Delivery.Bounds(w);
    Delivery.Bounds(v);
    SizeInRange(NewRec(session, q));
    if res.Ok? {
      EncodedCarries(session, q, res.value);
    }
  }

  lemma SizeInRange(r: Rec)
    ensures SizeOf(r) != 0 ==> r.len <= MAX_PAYLOAD
  {}

  // ---- who reads it ----

  lemma {:induction false} PickHas(q: Want, imgs: seq<seq<byte>>, img: seq<byte>)
    ensures img in Pick(q, imgs) <==> img in imgs && Wants(q, img)
  {
    hide Wants;
    if imgs != [] {
      var n := |imgs| - 1;
      PickHas(q, imgs[..n], img);
      assert imgs == imgs[..n] + [imgs[n]];
    }
  }

  lemma NumberedOnce(w: Log, i: nat, n: nat)
    requires Placed(w) && w.segs != [] && Origin(w) <= n < End(w) && i < |Flat(w.segs)|
    ensures Flat(w.segs)[i] == Entry(w, n) <==> i == n - Origin(w)
  {
    hide Placed, Flat, Decode;
    Delivery.HeadsInOrder(w);
  }

  /** A record of the log is in the answer to a read exactly when it is held, flushed, and of what is asked for. */
  lemma AnswersIff(w: Log, q: Want, n: nat)
    requires Placed(w) && w.segs != [] && Origin(w) <= n < End(w)
    ensures Entry(w, n) in Delivery.Answer(q, w) <==> FirstSeq(w) <= n <= w.durable && Wants(q, Entry(w, n))
  {
    hide Chain, Flat, Wants, Pick, Concat;
    Delivery.Bounds(w);
    var a, b, s := FirstSeq(w), w.durable + 1, Slice(w, FirstSeq(w), w.durable + 1);
    PickHas(q, s, Entry(w, n));
    if a <= n < b {
      assert s[n - a] == Entry(w, n);
    }
    if Entry(w, n) in s {
      var k :| 0 <= k < |s| && s[k] == Entry(w, n);
      NumberedOnce(w, a - Origin(w) + k, n);
    }
  }

  /**
   A write that was taken, whatever the log does afterwards: what it carries
   stands under its number, and it is in the answer to a read of its own key
   from when it is flushed until retention passes it, and in that of no other key.
   */
  lemma WriteIsRead(w: Log, session: nat, q: Request, n: nat, ops: seq<Op>, key: u64)
    requires Good(w) && TailClean(w) && RunAllowed(w, ops) && w.segs != [] && Origin(w) <= n < End(w)
    requires Carries(Entry(w, n), session, q, n)
    ensures var v := RunOps(w, ops);
      && v.gone < |v.segs| && Carries(Entry(v, n), session, q, n)
      && (Entry(v, n) in Delivery.Answer(Want(false, key), v) <==> key == q.key && FirstSeq(v) <= n <= v.durable)
      && (Entry(v, n) in Delivery.Answer(Want(true, key), v) <==> FirstSeq(v) <= n <= v.durable)
  {
    hide Good, TailClean, Flat, RunOps, RunAllowed, Delivery.Answer, IsRecordAt, Payload;
    RunGood(w, ops);
    var v := RunOps(w, ops);
    EntryStays(w, ops, n);
    GoodPlaced(v);
    AnswersIff(v, Want(false, key), n);
    AnswersIff(v, Want(true, key), n);
    CarriesLong(Entry(v, n), session, q, n);
  }

  lemma CarriesLong(img: seq<byte>, session: nat, q: Request, n: nat)
    requires Carries(img, session, q, n)
    ensures |img| >= HEADER
  {
    hide Decode, Verify;
  }

  lemma GoodPlaced(w: Log)
    requires Good(w)
    ensures Placed(w) && w.gone < |w.segs|
  {
    hide Chain, AllEndClean;
  }

  lemma EntryStays(w: Log, ops: seq<Op>, n: nat)
    requires Good(w) && TailClean(w) && RunAllowed(w, ops) && w.segs != [] && Origin(w) <= n < End(w)
    ensures var v := RunOps(w, ops);
      v.segs != [] && Origin(v) == Origin(w) && End(w) <= End(v) && Entry(v, n) == Entry(w, n)
  {
    hide Good, TailClean, Flat, RunOps, RunAllowed;
    Delivery.RunSlices(w, ops, n, n + 1);
    var v := RunOps(w, ops);
    assert Slice(v, n, n + 1)[0] == Entry(v, n);
    assert Slice(w, n, n + 1)[0] == Entry(w, n);
  }
}
