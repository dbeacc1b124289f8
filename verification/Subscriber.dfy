/**
 The reader's side of a connection, as the loop runs it: a READ or a SUBSCRIBE
 is placed, and each pass pushes what is flushed and fits.
 */
module Subscriber {
  import opened Bytes
  import opened Record
  import opened Wrappers
  import opened Store
  import opened Wal
  import opened Cursor
  import opened Readers
  import opened Delivery
  import Dirty
  import KeyIndex
  import Msg
  import Passes
  import Segment

  const DEADLINE_TICKS: nat := 5

  datatype Answer = Refused(code: u16) | Waiting | Started(at: nat)

  /** The answer is the table's own: whether it has the key, and whether it ever turned one away. */
  ghost predicate TableSays(w: Wal, key: u64, range: Option<(nat, nat)>, complete: bool)
    reads w, w.index, w.index.keys
    requires w.index.count <= w.index.keys.Length
  {
    && (range.Some? <==> key in KeyIndex.Keys(w.index.keys[..w.index.count]))
    && (complete <==> w.index.unknown == 0)
  }

  /** How many records the log has of a key. */
  ghost function CountIn(w: Log, key: u64): nat {
    if Headed(Flat(w.segs)) then KeyIndex.CountOf(Heads(Flat(w.segs)), key) else 0
  }

  /** A key in the table is in the log; with none turned away, one in the log is in the table. */
  lemma TableKnows(w: Wal, key: u64)
    requires w.Valid()
    ensures w.index.count <= w.index.keys.Length
    ensures key in KeyIndex.Keys(w.index.keys[..w.index.count]) ==> CountIn(w.log, key) > 0
    ensures w.index.unknown == 0 && CountIn(w.log, key) > 0 ==> key in KeyIndex.Keys(w.index.keys[..w.index.count])
  {
    hide Placed, Flat, Mirrors, HoldsFinished, Headed, Heads, KeyIndex.FirstOf, KeyIndex.LastOf, KeyIndex.CountOf,
      KeyIndex.CountOutside, Segment.IsRun;
    var keys := w.index.keys[..w.index.count];
    if key in KeyIndex.Keys(keys) {
      var i :| 0 <= i < |keys| && keys[i].key == key;
      assert KeyIndex.Describes(keys[i], w.index.log);
    } else if w.index.unknown == 0 {
      KeyIndex.CompleteKnows(keys, w.index.unknown, w.index.log, key);
    }
  }

  /** What the index says of a key, asked as both handlers ask it. */
  method AskIndex(w: Wal, key: u64, from: nat) returns (range: Option<(nat, nat)>, complete: bool)
    requires w.Valid()
    ensures Headed(Flat(w.log.segs)) && IndexSays(w.log, key, from, range, complete)
    ensures w.index.count <= w.index.keys.Length && TableSays(w, key, range, complete)
  {
    hide Placed, Flat, Mirrors, HoldsFinished, Headed, Heads, KeyIndex.FirstOf, KeyIndex.LastOf, KeyIndex.CountOf,
      KeyIndex.Keys, Segment.IsRun;
    range := w.index.Range(key, from);
    complete := w.index.Complete();
    if range.None? && complete {
      KeyIndex.CompleteKnows(w.index.keys[..w.index.count], w.index.unknown, w.index.log, key);
    }
  }

  /** The first sequence the log holds and the last it has flushed. */
  method Ends(w: Wal) returns (first: nat, durable: nat)
    requires w.Valid()
    ensures w.log.gone < |w.log.segs| && Headed(Flat(w.log.segs)) && Placed(w.log)
    ensures first == FirstSeq(w.log) == FirstOf(w) && durable as int == w.log.durable
  {
    hide Chain, Flat, HoldsFinished, Headed, Heads, KeyIndex.Accounts, Segment.IsRun, Concat;
    FirstIs(w);
    first, durable := w.table.bases[0], w.active.durableSeq;
  }

  lemma Silent(w: Log, key: u64, from: nat)
    requires Headed(Flat(w.segs))
    ensures IndexSays(w, key, from, None, false)
  {}

  /** Where a read of this log starts and stops. */
  method PlanTheRead(w: Wal, q: Want) returns (plan: Plan, range: Option<(nat, nat)>, complete: bool)
    requires w.Valid()
    ensures w.log.gone < |w.log.segs| && Headed(Flat(w.log.segs))
    ensures IndexSays(w.log, q.key, FirstSeq(w.log), range, complete)
    ensures plan == PlanRead(q, FirstSeq(w.log), w.log.durable, range, complete)
    ensures plan.Walk? ==> FirstSeq(w.log) <= plan.from <= Next(w.log) && 0 <= plan.until <= w.log.durable
    ensures w.index.count <= w.index.keys.Length && (!q.all ==> TableSays(w, q.key, range, complete))
    ensures plan.Nothing? <==> !q.all && w.index.unknown == 0 && CountIn(w.log, q.key) == 0
  {
    hide Placed, Flat, Mirrors, HoldsFinished, Headed, Heads, KeyIndex.Accounts, Segment.IsRun, IndexSays,
      KeyIndex.Keys, CountIn;
    TableKnows(w, q.key);
    var from, until := Ends(w);
    Silent(w.log, q.key, from);
    range, complete := None, false;
    if !q.all {
      range, complete := AskIndex(w, q.key, from);
    }
    ReadPlaced(w.log, q, range, complete);
    if !q.all {
      if range.Some? {
        from := range.value.0;
        if range.value.1 < until {
          until := range.value.1;
        }
      } else if complete {
        return Nothing, range, complete;
      }
    }
    plan := Walk(from, until);
  }

  class Subscriber {
    var cursor: Cursor
    const out: Outgoing
    var want: Want
    var once: bool
    var active: bool
    var waiting: bool
    var closing: bool
    var minSeq: nat
    var until: nat
    var deadline: nat

    constructor (cap: nat)
      ensures fresh(out) && fresh(out.buf) && fresh(cursor) && out.Valid() && out.Staged() == []
      ensures !once && !active && !waiting && !closing && out.buf.Length == cap
    {
      cursor := new Cursor();
      out := new Outgoing(cap);
      want, once, active, waiting, closing := Want(false, 0), false, false, false, false;
      minSeq, until, deadline := 0, 0, 0;
    }

    /** Put the cursor at a sequence, and start or wait for the node to reach `min`. */
    method Place(w: Wal, from: nat, reached: nat, min: nat, tick: nat, scratch: array<byte>) returns (r: Answer)
      requires w.Valid() && scratch.Length >= HEADER && scratch !in w.Repr() && !active && !waiting
      modifies this, scratch
      ensures w.log.gone < |w.log.segs| && fresh(cursor)
      ensures want == old(want) && once == old(once) && until == old(until) && closing == old(closing)
      ensures if FirstSeq(w.log) <= from <= Next(w.log) then
          && cursor.open && cursor.nextSeq == from && Stands(w.log, cursor.segBase, cursor.off, cursor.nextSeq)
          && minSeq == min && waiting == (min > reached) && active == (min <= reached)
          && (waiting ==> deadline == tick + DEADLINE_TICKS)
          && r == if min > reached then Waiting else Started(from)
        else r == Refused(Msg.ERR_NO_HISTORY) && !active && !waiting
    {
      hide Wal.Valid, Placed, Flat, Stands;
      NotEmptyLog(w);
      cursor := new Cursor();
      var placed := cursor.Seek(w, from, scratch);
      if placed.Err? {
        return Refused(Msg.ERR_NO_HISTORY);
      }
      minSeq := min;
      if min > reached {
        waiting, deadline := true, tick + DEADLINE_TICKS;
        return Waiting;
      }
      active := true;
      r := Started(cursor.nextSeq);
    }

    /**
     READ: placed where the index says, to end at what is flushed now. Never
     refused for history. The sequence it waits for is not looked at if and only
     if it asks for one key, the index never turned a key away, and the log has
     no record of that one.
     */
    method HandleRead(w: Wal, q: Want, payload: seq<byte>, tick: nat, scratch: array<byte>)
        returns (r: Answer, ghost plan: Plan, ghost range: Option<(nat, nat)>, ghost complete: bool)
      requires w.Valid() && scratch.Length >= HEADER && scratch !in w.Repr()
      modifies this, cursor, scratch
      ensures w.log.gone < |w.log.segs| && Headed(Flat(w.log.segs))
      ensures closing == (old(closing) || |payload| < Msg.READ_SIZE) && (cursor == old(cursor) || fresh(cursor))
      ensures |payload| < Msg.READ_SIZE ==>
        r == Refused(Msg.ERR_PAYLOAD_TOO_BIG) && unchanged(this`active, this`waiting, this`once, this`want, this`until)
      ensures |payload| >= Msg.READ_SIZE && old(active || waiting) ==>
        r == Refused(Msg.ERR_UNSUPPORTED) && unchanged(this)
      ensures |payload| >= Msg.READ_SIZE && !old(active || waiting) ==>
        && IndexSays(w.log, q.key, FirstSeq(w.log), range, complete)
        && plan == PlanRead(q, FirstSeq(w.log), w.log.durable, range, complete)
        && w.index.count <= w.index.keys.Length && (!q.all ==> TableSays(w, q.key, range, complete))
        && (plan.Nothing? <==> !q.all && w.index.unknown == 0 && CountIn(w.log, q.key) == 0)
        && want == q && once
      ensures |payload| >= Msg.READ_SIZE && !old(active || waiting) && Msg.ReadMin(payload).value > w.log.durable ==>
        (active <==> !q.all && w.index.unknown == 0 && CountIn(w.log, q.key) == 0)
      ensures |payload| >= Msg.READ_SIZE && !old(active || waiting) && plan.Nothing? ==>
        active && !waiting && until == 0 && cursor.nextSeq == 1 && r == Started(0)
      ensures |payload| >= Msg.READ_SIZE && !old(active || waiting) && plan.Walk? ==>
        var min := Msg.ReadMin(payload).value;
        && until == plan.until && minSeq == min && cursor.open && cursor.nextSeq == plan.from
        && Stands(w.log, cursor.segBase, cursor.off, cursor.nextSeq)
        && waiting == (min > until) && active == (min <= until)
        && r == if min > until then Waiting else Started(plan.from)
    {
      hide Wal.Valid, Placed, Flat, Headed, IndexSays, Stands, PlanRead, Msg.Le64, CountIn, TableSays;
      var _, _ := Ends(w);
      var asked := Msg.ReadMin(payload);
      if asked.None? {
        closing := true;
        return Refused(Msg.ERR_PAYLOAD_TOO_BIG), Plan.Nothing, None, false;
      }
      if active || waiting {
        return Refused(Msg.ERR_UNSUPPORTED), Plan.Nothing, None, false;
      }
      var p, answer, all := PlanTheRead(w, q);
      plan, range, complete := p, answer, all;
      want, minSeq, once := q, asked.value, true;
      if p.Nothing? {
        until, cursor.nextSeq, active := 0, 1, true;
        return Started(0), plan, range, complete;
      }
      until := p.until;
      r := Place(w, p.from, until, asked.value, tick, scratch);
    }

    /** SUBSCRIBE: from where it asks, or from the key's first record when that is later; 0 is live only. */
    method HandleSubscribe(w: Wal, q: Want, payload: seq<byte>, tick: nat, scratch: array<byte>)
        returns (r: Answer, ghost range: Option<(nat, nat)>, ghost complete: bool)
      requires w.Valid() && scratch.Length >= HEADER && scratch !in w.Repr()
      modifies this, scratch
      ensures w.log.gone < |w.log.segs| && Headed(Flat(w.log.segs))
      ensures closing == (old(closing) || |payload| < Msg.SUBSCRIBE_SIZE) && (cursor == old(cursor) || fresh(cursor))
      ensures |payload| < Msg.SUBSCRIBE_SIZE ==>
        r == Refused(Msg.ERR_PAYLOAD_TOO_BIG) && unchanged(this`active, this`waiting, this`once, this`want, this`until)
      ensures |payload| >= Msg.SUBSCRIBE_SIZE && old(active || waiting) ==>
        r == Refused(Msg.ERR_UNSUPPORTED) && unchanged(this)
      ensures |payload| >= Msg.SUBSCRIBE_SIZE && !old(active || waiting) ==>
        var from, min := Msg.SubscribeFrom(payload), Msg.SubscribeMin(payload).value;
        var asked := if from == 0 then Next(w.log) else from;
        var start := PlanSubscribe(q, asked, range);
        && IndexSays(w.log, q.key, asked, range, complete) && once == old(once) && until == old(until)
        && w.index.count <= w.index.keys.Length && (!q.all ==> TableSays(w, q.key, range, complete))
        && if FirstSeq(w.log) <= start <= Next(w.log) then
             && cursor.open && cursor.nextSeq == start && Stands(w.log, cursor.segBase, cursor.off, cursor.nextSeq)
             && want == q && waiting == (min > w.log.durable) && active == (min <= w.log.durable) && minSeq == min
             && r == if min > w.log.durable then Waiting else Started(start)
           else r == Refused(Msg.ERR_NO_HISTORY) && !active && !waiting && want == old(want)
    {
      hide Wal.Valid, Placed, Flat, Headed, IndexSays, Stands, TableSays;
      TableKnows(w, q.key);
      var _, durable := Ends(w);
      range, complete := None, false;
      var asked := Msg.SubscribeMin(payload);
      if asked.None? {
        closing := true;
        return Refused(Msg.ERR_PAYLOAD_TOO_BIG), range, complete;
      }
      if active || waiting {
        return Refused(Msg.ERR_UNSUPPORTED), range, complete;
      }
      ActiveNext(w);
      var from := Msg.SubscribeFrom(payload);
      var start := if from == 0 then w.active.nextSeq else from;
      Silent(w.log, q.key, start);
      if !q.all {
        var answer, all := AskIndex(w, q.key, start);
        range, complete := answer, all;
        if answer.Some? {
          start := answer.value.0;
        }
      }
      r := Place(w, start, durable, asked.value, tick, scratch);
      if !r.Refused? {
        want := q;
      }
    }

    /**
     One read within the limit and the room, and every record of it that was
     asked for on its way; false when the read is refused and the stream ends.
     `at` and `k` are where the read was made, `imgs` what it brought.
     */
    method PushRead(w: Wal, limit: nat, room: nat, scratch: array<byte>)
        returns (ok: bool, ghost at: nat, ghost k: nat, ghost imgs: seq<seq<byte>>)
      requires w.Valid() && scratch !in w.Repr() && !closing
      requires out.Valid() && out.buf !in w.Repr() && out.buf != scratch
      requires room <= scratch.Length && room <= out.buf.Length - out.len
      requires cursor.open && Stands(w.log, cursor.segBase, cursor.off, cursor.nextSeq)
      modifies this`closing, cursor, out, out.buf, scratch
      ensures out.Valid() && w.log.gone < |w.log.segs| && closing == !ok && cursor.open
      ensures old(cursor.nextSeq) < FirstSeq(w.log) ==> !ok
      ensures FirstSeq(w.log) <= old(cursor.nextSeq) <= limit ==>
        && ReadsAt(w.log, old(cursor.segBase), old(cursor.off), old(cursor.nextSeq), at, k, limit, room)
        && (Foul(w.log.segs[at], k, limit, room) ==> !ok)
        && (Stale(w.log.segs[at], k, limit, room) && ok ==> |imgs| > |w.log.segs[at].images| - k)
      ensures
        var fair := old(cursor.nextSeq) <= limit ==> Fair(w.log, at, k, limit, room);
        FirstSeq(w.log) <= old(cursor.nextSeq) && fair ==>
        && ok && Yields(w.log, old(cursor.nextSeq), limit, room, cursor.nextSeq, Concat(imgs))
        && Stands(w.log, cursor.segBase, cursor.off, cursor.nextSeq)
        && imgs == Slice(w.log, old(cursor.nextSeq), cursor.nextSeq)
      ensures ok ==>
        out.Staged() == old(out.Staged()) + Notices(Pick(want, imgs)) && cursor.nextSeq == old(cursor.nextSeq) + |imgs|
      ensures !ok ==>
        var next := Word(cursor.nextSeq);
        out.Staged() == old(out.Staged()) + old(out.WouldStage(Msg.OP_ERR, 0, next, Msg.ErrBody(Msg.ERR_NO_HISTORY)))
    {
      hide Wal.Valid, Placed, Flat, Stands, Slice, Pick, Notices, Yields, Whole, Concat, Foul, Stale, Decode;
      var got;
      got, at, k, imgs := cursor.Read(w, limit, scratch, room);
      if got.Err? {
        var told := out.Reply(Msg.OP_ERR, 0, Word(cursor.nextSeq), Msg.ErrBody(Msg.ERR_NO_HISTORY));
        closing := true;
        return false, at, k, imgs;
      }
      out.PushBlock(want, scratch[..got.value], imgs);
      ok := true;
    }

    /** A stream held for its barrier starts once the node reaches it, or is refused when time is up. */
    method PushWaiting(durable: nat, tick: nat)
      requires waiting && out.Valid()
      modifies this, cursor, out, out.buf
      ensures out.Valid() && cursor == old(cursor) && once == old(once) && want == old(want) && closing == old(closing)
      ensures durable >= minSeq ==> active && !waiting && until == if once then durable else old(until)
      ensures durable < minSeq ==> until == old(until)
      ensures durable >= minSeq ==> cursor.nextSeq == old(cursor.nextSeq) && cursor.open == old(cursor.open)
      ensures durable < minSeq && tick >= deadline ==> !waiting && active == old(active) && !cursor.open
      ensures durable < minSeq && tick < deadline ==>
        unchanged(this) && unchanged(cursor) && out.Staged() == old(out.Staged())
      ensures minSeq == old(minSeq) && deadline == old(deadline)
      ensures durable >= minSeq ==>
        out.Staged() == old(out.Staged()) + old(out.WouldStage(Msg.OP_ACK, 0, Word(cursor.nextSeq), []))
      ensures durable < minSeq && tick >= deadline ==>
        var told := old(out.WouldStage(Msg.OP_ERR, 0, Word(minSeq), Msg.ErrBody(Msg.ERR_BEHIND)));
        out.Staged() == old(out.Staged()) + told
    {
      if durable >= minSeq {
        waiting, active := false, true;
        if once {
          until := durable;
        }
        var _ := out.Reply(Msg.OP_ACK, 0, Word(cursor.nextSeq), []);
      } else if tick >= deadline {
        waiting := false;
        var _ := out.Reply(Msg.OP_ERR, 0, Word(minSeq), Msg.ErrBody(Msg.ERR_BEHIND));
        cursor.open := false;
      }
    }

    /** Whether this pass has records to read for this connection. */
    ghost predicate Due(wantOut: bool)
      reads this, cursor, out
    {
      && !closing && !waiting && active && !wantOut && out.len + Msg.HEADER <= out.buf.Length
      && (once ==> cursor.nextSeq <= until)
    }

    /** Whether this pass finds a read that has delivered all it had to. */
    ghost predicate AtEnd(wantOut: bool)
      reads this, cursor, out
    {
      && !closing && !waiting && active && !wantOut && out.len + Msg.HEADER <= out.buf.Length
      && once && until < cursor.nextSeq
    }

    /** How much one pass may read: the room there is, and no more than the scratch holds. */
    function Room(scratch: nat): nat
      reads out
      requires out.len <= out.buf.Length
    {
      if out.buf.Length - out.len > scratch then scratch else out.buf.Length - out.len
    }

    /**
     One connection's turn of a pass. `durable` is what the pass may read up to
     and `left` what it leaves for the connections after this one. A read that
     meets nothing it should not brings the log's next records; one that is
     refused ends the stream.
     */
    method Push(w: Wal, durable: nat, wantOut: bool, tick: nat, scratch: array<byte>)
        returns (left: nat, ghost at: nat, ghost k: nat, ghost imgs: seq<seq<byte>>)
      requires w.Valid() && scratch !in w.Repr()
      requires out.Valid() && out.buf !in w.Repr() && out.buf != scratch
      requires Due(wantOut) ==> cursor.open && Stands(w.log, cursor.segBase, cursor.off, cursor.nextSeq)
      modifies this, cursor, out, out.buf, scratch
      ensures out.Valid() && w.log.gone < |w.log.segs| && cursor == old(cursor)
      ensures left == if old(Due(wantOut)) && once && until < durable then until else durable
      ensures old(Due(wantOut)) && old(cursor.nextSeq) < FirstSeq(w.log) ==> closing
      ensures old(Due(wantOut)) && FirstSeq(w.log) <= old(cursor.nextSeq) <= left ==>
        var room := old(Room(scratch.Length));
        && ReadsAt(w.log, old(cursor.segBase), old(cursor.off), old(cursor.nextSeq), at, k, left, room)
        && (Foul(w.log.segs[at], k, left, room) ==> closing)
        && (Stale(w.log.segs[at], k, left, room) && !closing ==> |imgs| > |w.log.segs[at].images| - k)
      ensures
        var fair := old(cursor.nextSeq) <= left ==> Fair(w.log, at, k, left, old(Room(scratch.Length)));
        old(Due(wantOut)) && FirstSeq(w.log) <= old(cursor.nextSeq) && fair ==>
        && !closing && Stands(w.log, cursor.segBase, cursor.off, cursor.nextSeq)
        && Yields(w.log, old(cursor.nextSeq), left, old(Room(scratch.Length)), cursor.nextSeq, Concat(imgs))
        && imgs == Slice(w.log, old(cursor.nextSeq), cursor.nextSeq)
      ensures old(Due(wantOut)) ==> active && !waiting
      ensures old(active) ==> (active <==> !old(AtEnd(wantOut)))
      ensures old(Due(wantOut)) && !closing ==>
        out.Staged() == old(out.Staged()) + Notices(Pick(want, imgs)) && cursor.nextSeq == old(cursor.nextSeq) + |imgs|
      ensures old(Due(wantOut)) && closing ==>
        var next := Word(cursor.nextSeq);
        out.Staged() == old(out.Staged()) + old(out.WouldStage(Msg.OP_ERR, 0, next, Msg.ErrBody(Msg.ERR_NO_HISTORY)))
      ensures old(AtEnd(wantOut)) ==>
        && !active && !waiting && closing == old(closing) && cursor.nextSeq == old(cursor.nextSeq) && !cursor.open
        && out.Staged() == old(out.Staged()) + LastFrame(until)
      ensures (old(closing) || !old(waiting)) && !old(Due(wantOut)) && !old(AtEnd(wantOut)) ==>
        unchanged(this) && unchanged(cursor) && out.Staged() == old(out.Staged())
      ensures
        var idle := wantOut || !old(active) || old(closing) || out.buf.Length - old(out.len) < Msg.HEADER;
        idle && (old(closing) || !old(waiting)) ==>
        unchanged(this) && unchanged(cursor) && out.Staged() == old(out.Staged())
      ensures want == old(want) && once == old(once) && (!old(waiting) ==> until == old(until))
      ensures old(waiting) && !old(closing) && durable >= old(minSeq) ==>
        active && !waiting && until == if once then durable else old(until)
      ensures old(waiting) && !old(closing) && durable < old(minSeq) ==> until == old(until)
    {
      hide Wal.Valid, Placed, Flat, Stands, Slice, Pick, Notices, Yields, Msg.Encode, Foul, Stale, Concat;
      NotEmptyLog(w);
      left, at, k, imgs := durable, 0, 0, [];
      if closing {
        return;
      }
      if waiting {
        PushWaiting(durable, tick);
        return;
      }
      if !active || wantOut {
        return;
      }
      var room := out.buf.Length - out.len;
      if room < Msg.HEADER {
        return;
      }
      if room > scratch.Length {
        room := scratch.Length;
      }
      if once {
        if cursor.nextSeq > until {
          var _ := out.Reply(Msg.OP_NOTIFY, Msg.FLAG_LAST, Word(until), []);
          active := false;
          cursor.open := false;
          assert LastFrame(until) + [] == LastFrame(until);
          return;
        }
        if left > until {
          left := until;
        }
      }
      var ok;
      ok, at, k, imgs := PushRead(w, left, room, scratch);
    }

    /** This read, with `sent` already on the wire. */
    ghost function View(sent: seq<byte>): Passes.Reading
      reads this, cursor
    {
      Passes.Reading(cursor.nextSeq, until, active, sent)
    }

    /**
     A read's turn when all that was staged before has been sent: the move of
     it that the account of whole reads goes by.
     */
    method PassOfRead(w: Wal, durable: nat, tick: nat, scratch: array<byte>, ghost sent: seq<byte>)
        returns (left: nat, ghost t: Passes.Turn)
      requires w.Valid() && scratch !in w.Repr() && out.buf !in w.Repr() && out.buf != scratch
      requires once && !waiting && !closing && out.len == 0 && Msg.HEADER <= out.buf.Length
      requires durable as int <= w.log.durable
      requires active && cursor.nextSeq <= until ==>
        && cursor.open && Stands(w.log, cursor.segBase, cursor.off, cursor.nextSeq)
        && Clean(w.log) && w.log.gone < |w.log.segs| && FirstSeq(w.log) <= cursor.nextSeq
      modifies this, cursor, out, out.buf, scratch
      ensures out.Valid() && once && !waiting && !closing && want == old(want) && cursor == old(cursor)
      ensures t.Pass? && Passes.Moves(w.log, old(View(sent)), old(Room(scratch.Length)), t)
      ensures View(sent + out.Staged()) == Passes.XAfter(want, w.log, old(View(sent)), t)
      ensures old(active && cursor.nextSeq <= until) && until <= durable ==> t.limit == until
      ensures active && cursor.nextSeq <= until ==> Stands(w.log, cursor.segBase, cursor.off, cursor.nextSeq)
    {
      hide Wal.Valid, Placed, Flat, Stands, Slice, Pick, Notices, Yields, LastFrame, Foul, Stale, Concat, Good,
        EndsClean, Fair, StandsAt, Over;
      ghost var x := View(sent);
      assert out.Staged() == [];
      ghost var at, k, imgs;
      left, at, k, imgs := Push(w, durable, false, tick, scratch);
      t := Passes.Pass(left, cursor.nextSeq, Concat(imgs));
      if Passes.Due(x) && x.next <= left { Dirty.CleanRead(w.log, at, k, left, old(Room(scratch.Length))); }
      assert [] + LastFrame(until) == LastFrame(until);
      assert sent + [] == sent;
      assert [] + Notices(Pick(want, imgs)) == Notices(Pick(want, imgs));
    }
  }

  // ---- a whole pass ----

  /** What connections leave of a pass's limit, each its end if it is reading towards one. */
  function LimitAfter(durable: nat, ends: seq<Option<nat>>): nat {
    if ends == [] then durable
    else
      var before, e := LimitAfter(durable, ends[..|ends| - 1]), ends[|ends| - 1];
      if e.Some? && e.value < before then e.value else before
  }

  /** The limit is still what is flushed if and only if none of them ends below that; it is the lowest end otherwise. */
  lemma {:induction false} LimitIff(durable: nat, ends: seq<Option<nat>>)
    ensures LimitAfter(durable, ends) <= durable
    ensures LimitAfter(durable, ends) == durable <==>
      forall j :: 0 <= j < |ends| && ends[j].Some? ==> durable <= ends[j].value
    ensures forall j :: 0 <= j < |ends| && ends[j].Some? ==> LimitAfter(durable, ends) <= ends[j].value
    ensures LimitAfter(durable, ends) < durable ==>
      exists j :: 0 <= j < |ends| && ends[j].Some? && ends[j].value == LimitAfter(durable, ends)
  {
    if ends != [] {
      var n := |ends| - 1;
      LimitIff(durable, ends[..n]);
      assert forall j :: 0 <= j < n ==> ends[..n][j] == ends[j];
      if LimitAfter(durable, ends) < durable && LimitAfter(durable, ends) == LimitAfter(durable, ends[..n]) {
        var j :| 0 <= j < n && ends[..n][j].Some? && ends[..n][j].value == LimitAfter(durable, ends[..n]);
        assert ends[j].Some?;
      }
    }
  }

  /** Where a connection that is due reads to, if it is to stop there. */
  ghost function EndOf(s: Subscriber, wantOut: bool): Option<nat>
    reads s, s.cursor, s.out
  {
    if s.Due(wantOut) && s.once then Some(s.until) else None
  }

  ghost function EndsOf(subs: seq<Subscriber>, wantOut: seq<bool>): (e: seq<Option<nat>>)
    requires |subs| == |wantOut|
    reads subs, set i | 0 <= i < |subs| :: subs[i].cursor, set i | 0 <= i < |subs| :: subs[i].out
    ensures |e| == |subs| && forall i :: 0 <= i < |e| ==> e[i] == EndOf(subs[i], wantOut[i])
  {
    seq(|subs|, i requires 0 <= i < |subs|
                  reads subs, set i | 0 <= i < |subs| :: subs[i].cursor, set i | 0 <= i < |subs| :: subs[i].out
                => EndOf(subs[i], wantOut[i]))
  }

  ghost function Parts(s: Subscriber): set<object>
    reads s
  {
    {s, s.cursor, s.out, s.out.buf}
  }

  ghost function AllParts(subs: seq<Subscriber>): set<object>
    reads subs
  {
    set i, o | 0 <= i < |subs| && o in Parts(subs[i]) :: o
  }

  /** Connections share nothing with each other, with the log or with the scratch. */
  ghost predicate Apart(subs: seq<Subscriber>, w: Wal, scratch: array<byte>)
    reads subs, w
  {
    && (forall i, j :: 0 <= i < j < |subs| ==> Parts(subs[i]) !! Parts(subs[j]))
    && forall i :: 0 <= i < |subs| ==> Parts(subs[i]) !! w.Repr() && scratch !in Parts(subs[i])
  }

  /** A connection that may have its turn. */
  ghost predicate Ready(s: Subscriber, w: Wal, wantOut: bool)
    reads s, s.cursor, s.out, w
  {
    && s.out.Valid()
    && (s.Due(wantOut) ==> s.cursor.open && Stands(w.log, s.cursor.segBase, s.cursor.off, s.cursor.nextSeq))
  }

  /** One connection's turn, as the pass needs it. */
  method Turn(w: Wal, s: Subscriber, wantOut: bool, limit: nat, tick: nat, scratch: array<byte>) returns (left: nat)
    requires w.Valid() && scratch !in w.Repr() && Parts(s) !! w.Repr() && scratch !in Parts(s) && Ready(s, w, wantOut)
    modifies Parts(s), scratch
    ensures Parts(s) == old(Parts(s))
    ensures left == LimitAfter(limit, [old(EndOf(s, wantOut))])
    ensures old(s.waiting && !s.closing && s.once) ==> Released(old(s.minSeq), old(s.until), limit, s)
  {
    hide Wal.Valid, Stands, ReadsAt, Fair, Foul, Stale, Yields, Slice, Pick, Notices, LastFrame, Concat;
    ghost var at, k, imgs;
    NoEnds(limit, [EndOf(s, wantOut)][..0]);
    left, at, k, imgs := s.Push(w, limit, wantOut, tick, scratch);
  }

  /** A held read once it has had its turn under this limit. */
  ghost predicate Released(minSeq: nat, until: nat, limit: nat, s: Subscriber)
    reads s
  {
    s.once && if limit >= minSeq then s.active && !s.waiting && s.until == limit else s.until == until
  }

  lemma LimitNext(durable: nat, ends: seq<Option<nat>>, i: nat)
    requires i < |ends|
    ensures LimitAfter(durable, ends[..i + 1]) == LimitAfter(LimitAfter(durable, ends[..i]), [ends[i]])
  {
    var one := [ends[i]];
    assert ends[..i + 1][..i] == ends[..i];
    NoEnds(LimitAfter(durable, ends[..i]), one[..0]);
  }

  /**
   A whole pass: every connection has its turn, under what those before it left
   of the limit. A read held for its barrier is released by that limit, and it is
   where it will end.
   */
  method SubsPush(w: Wal, subs: seq<Subscriber>, wantOut: seq<bool>, durable: nat, tick: nat, scratch: array<byte>)
    requires w.Valid() && scratch !in w.Repr() && |subs| == |wantOut| && Apart(subs, w, scratch)
    requires forall i :: 0 <= i < |subs| ==> Ready(subs[i], w, wantOut[i])
    modifies AllParts(subs), scratch
    ensures forall i :: 0 <= i < |subs| && old(subs[i].waiting && !subs[i].closing && subs[i].once) ==>
      Released(old(subs[i].minSeq), old(subs[i].until), LimitAfter(durable, old(EndsOf(subs, wantOut))[..i]), subs[i])
  {
    hide Wal.Valid, Ready, EndOf, Released, LimitAfter, AllParts;
    ghost var ends, all, repr := EndsOf(subs, wantOut), AllParts(subs), w.Repr();
    AllOf(subs);
    var left := durable;
    NoEnds(durable, ends[..0]);
    for i := 0 to |subs|
      invariant left == LimitAfter(durable, ends[..i])
      invariant w.Valid() && w.Repr() == repr && unchanged(w)
      invariant forall j :: 0 <= j < |subs| ==> Parts(subs[j]) == old(Parts(subs[j]))
      invariant forall j :: i <= j < |subs| ==>
        && unchanged(subs[j]) && unchanged(subs[j].cursor) && unchanged(subs[j].out) && unchanged(subs[j].out.buf)
      invariant forall j :: 0 <= j < i && old(subs[j].waiting && !subs[j].closing && subs[j].once) ==>
        Released(old(subs[j].minSeq), old(subs[j].until), LimitAfter(durable, ends[..j]), subs[j])
    {
      LimitNext(durable, ends, i);
      left := Turn(w, subs[i], wantOut[i], left, tick, scratch);
    }
  }

  lemma AllOf(subs: seq<Subscriber>)
    ensures forall i :: 0 <= i < |subs| ==> Parts(subs[i]) <= AllParts(subs)
  {}

  lemma NoEnds(durable: nat, ends: seq<Option<nat>>)
    requires ends == []
    ensures LimitAfter(durable, ends) == durable
  {}
}
