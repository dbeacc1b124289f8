/**
 The leader's routines for its replicas, as the loop runs them on its own
 fields: a stream opened, a confirmation taken in, the next flushed records
 read for the wire, and segments let go.
 */
module LeaderLoop {
  import opened Bytes
  import opened Record
  import opened Wrappers
  import opened Store
  import opened Wal
  import opened Cursor
  import opened Acks
  import Durability
  import Replication
  import Stray

  datatype Start = NotLeader | NoSlot | NoHistory | Streaming(slot: nat)

  /**
   The first free slot has been taken for a replica that streams on this
   connection from `seqno`, and is held to have everything before that; nothing
   else has changed.
   */
  ghost predicate Started(before: seq<Option<Peer>>, after: seq<Option<Peer>>, slot: nat, conn: nat, seqno: nat) {
    && slot < |before| == |after| && before[slot].None? && (forall k :: 0 <= k < slot ==> before[k].Some?)
    && (forall k :: 0 <= k < |after| && k != slot ==> after[k] == before[k])
    && after[slot].Some?
    && var p := after[slot].value; p.conn == conn && p.cursor == seqno && p.durable + 1 == seqno
  }

  /** A system in which a new connection asks this leader to stream. */
  ghost predicate Depicts(s: Replication.System, c: nat, peers: seq<Option<Peer>>, want: nat, floor: nat, first: nat,
                          next: nat)
  {
    && c < |s.conns| && !s.conns[c].greeted && Replication.SlotOf(s.leader.peers, c) == |s.leader.peers|
    && s.leader.peers == peers && s.want == want && s.leader.floor == floor
    && s.leader.bases != [] && s.leader.bases[0] == first && Replication.Next(s.leader.node) == next
  }

  /** A system in which the replica in slot i streams from this leader on connection c. */
  ghost predicate Serving(s: Replication.System, c: nat, i: nat, peers: seq<Option<Peer>>, want: nat, floor: nat) {
    s.leader.peers == peers && s.want == want && s.leader.floor == floor && Replication.SlotOf(peers, c) == i
  }

  /** What the routine leaves is what the system's step leaves. */
  lemma StartIsAttach(s: Replication.System, c: nat, seqno: nat, first: nat, next: nat, r: Start,
                      before: seq<Option<Peer>>, after: seq<Option<Peer>>, was: nat, floor: nat)
    requires Depicts(s, c, before, s.want, was, first, next) && 0 < first
    requires r.Streaming? <==> Replication.FreeSlot(before) < |before| && first <= seqno <= next
    requires r.Streaming? ==> Started(before, after, r.slot, c, seqno) && floor == Floor(s.want, was, after)
    requires !r.Streaming? ==> after == before && floor == was
    ensures var t := Replication.Attach(s, c, seqno).leader; t.peers == after && t.floor == floor
  {
    hide Floor;
    if r.Streaming? {
      FreeSlotAt(before, r.slot);
      assert after == before[r.slot := Some(Peer(c, seqno, seqno - 1))];
    }
  }

  class Leader {
    const slots: Replicas
    var streams: seq<Cursor>
    var keepSegments: int
    var retainFailed: bool
    var seenSegs: nat

    ghost predicate Valid()
      reads this, slots
    {
      slots.Valid() && |streams| == MAX_REPLICAS
    }

    constructor (want: nat, keepSegments: int)
      ensures Valid() && slots.Peers() == [None, None] && slots.want == want && slots.floor == 0
      ensures this.keepSegments == keepSegments && !retainFailed
      ensures fresh(slots) && fresh(slots.live) && fresh(slots.durable) && fresh(slots.cursor) && fresh(slots.conn)
    {
      slots := new Replicas(want);
      var a := new Cursor();
      var b := new Cursor();
      streams := [a, b];
      this.keepSegments, retainFailed, seenSegs := keepSegments, false, 0;
    }

    /** The first slot that nobody holds. */
    method FindSlot() returns (i: nat)
      requires Valid()
      ensures i == Replication.FreeSlot(slots.Peers()) <= MAX_REPLICAS
    {
      ghost var p := slots.Peers();
      i := 0;
      while i < MAX_REPLICAS
        invariant i <= MAX_REPLICAS && forall k :: 0 <= k < i ==> p[k].Some?
      {
        if !slots.live[i] {
          break;
        }
        i := i + 1;
      }
      FreeSlotAt(p, i);
    }

    /** Fill slot i. */
    method Take(i: nat, p: Peer)
      requires Valid() && i < MAX_REPLICAS
      modifies slots.live, slots.durable, slots.cursor, slots.conn
      ensures Valid() && slots.Peers() == old(slots.Peers())[i := Some(p)]
    {
      slots.live[i] := true;
      slots.durable[i] := p.durable;
      slots.cursor[i] := p.cursor;
      slots.conn[i] := p.conn;
      assert slots.Peers() == old(slots.Peers())[i := Some(p)];
    }

    /** REPL_START: a slot, a cursor where the replica asked, and everything before that taken as confirmed. */
    method HandleReplStart(w: Wal, follower: bool, conn: nat, seqno: nat, scratch: array<byte>) returns (r: Start)
      requires Valid() && w.Valid() && scratch.Length >= HEADER && scratch !in w.Repr()
      modifies this, slots, slots.live, slots.durable, slots.cursor, slots.conn, scratch
      ensures Valid() && w.log.gone < |w.log.segs| && 0 < FirstSeq(w.log)
      ensures r.Streaming? ==> Started(old(slots.Peers()), slots.Peers(), r.slot, conn, seqno)
      ensures !r.Streaming? ==> slots.Peers() == old(slots.Peers())
      ensures !follower ==>
        forall s :: Depicts(s, conn, old(slots.Peers()), slots.want, old(slots.floor), FirstSeq(w.log), Next(w.log)) ==>
          && Replication.Attach(s, conn, seqno).leader.peers == slots.Peers()
          && Replication.Attach(s, conn, seqno).leader.floor == slots.floor
      ensures slots.floor ==
        if r.Streaming? then Floor(slots.want, old(slots.floor), slots.Peers()) else old(slots.floor)
      ensures slots.want == old(slots.want)
      ensures forall k :: 0 <= k < MAX_REPLICAS && k != Replication.FreeSlot(old(slots.Peers())) ==>
        streams[k] == old(streams)[k]
      ensures r.Streaming? ==> r.slot < MAX_REPLICAS && fresh(streams[r.slot])
      ensures follower ==> r == NotLeader
      ensures !follower && Replication.FreeSlot(old(slots.Peers())) == MAX_REPLICAS ==> r == NoSlot
      ensures !follower && Replication.FreeSlot(old(slots.Peers())) < MAX_REPLICAS ==>
        if FirstSeq(w.log) <= seqno <= Next(w.log) then
          && r == Streaming(Replication.FreeSlot(old(slots.Peers())))
          && var c := streams[r.slot]; c.open && c.nextSeq == seqno && Stands(w.log, c.segBase, c.off, c.nextSeq)
        else r == NoHistory
    {
      hide Wal.Valid, Placed, Flat, Stands, Floor, Replication.FreeSlot, Depicts, Started, Replication.Attach;
      NotEmptyLog(w);
      FirstPositive(w);
      ghost var before, was := slots.Peers(), slots.floor;
      if follower {
        return NotLeader;
      }
      var i := FindSlot();
      Replies(before, slots.want, was, conn, seqno, FirstSeq(w.log), Next(w.log));
      if i >= MAX_REPLICAS {
        return NoSlot;
      }
      var stream := new Cursor();
      streams := streams[i := stream];
      var placed := stream.Seek(w, seqno, scratch);
      if placed.Err? {
        return NoHistory;
      }
      Take(i, Peer(conn, seqno, seqno - 1));
      FreeIs(before, i, conn, seqno);
      slots.RetainFloorUpdate();
      r := Streaming(i);
      Serves(before, slots.want, was, conn, seqno, FirstSeq(w.log), Next(w.log), slots.Peers(), i);
    }

    /** REPL_ACK: what the replica in slot i has flushed. */
    method HandleReplAck(i: nat, durable: nat)
      requires Valid() && i < MAX_REPLICAS && slots.Peers()[i].Some?
      modifies slots, slots.durable
      ensures Valid() && slots.want == old(slots.want)
      ensures slots.Peers() == old(slots.Peers())[i := Some(old(slots.Peers()[i].value).(durable := durable))]
      ensures slots.floor == Floor(slots.want, old(slots.floor), slots.Peers())
      ensures forall s, c :: Serving(s, c, i, old(slots.Peers()), slots.want, old(slots.floor)) ==>
        && Replication.Confirm(s, c, durable).leader.peers == slots.Peers()
        && Replication.Confirm(s, c, durable).leader.floor == slots.floor
    {
      hide Floor;
      slots.durable[i] := durable;
      assert slots.Peers() == old(slots.Peers())[i := Some(old(slots.Peers()[i].value).(durable := durable))];
      slots.RetainFloorUpdate();
    }

    /** A connection is gone: its replica's slot is free, and the floor stays where it is. */
    method ReplicaRelease(i: int)
      requires Valid() && forall a, b :: 0 <= a < b < |streams| ==> streams[a] != streams[b]
      modifies streams, slots.live, slots.durable
      ensures Valid() && slots.floor == old(slots.floor)
      ensures 0 <= i < MAX_REPLICAS ==> !streams[i].open
      ensures forall k :: 0 <= k < MAX_REPLICAS && k != i ==> unchanged(streams[k])
      ensures slots.Peers() == if 0 <= i < MAX_REPLICAS then old(slots.Peers())[i := None] else old(slots.Peers())
      ensures forall s, c ::
        0 <= i < MAX_REPLICAS && Serving(s, c, i, old(slots.Peers()), slots.want, old(slots.floor)) ==>
        Replication.Release(s.leader.peers, c) == slots.Peers()
    {
      if i < 0 || i >= MAX_REPLICAS {
        return;
      }
      streams[i].open := false;
      slots.live[i] := false;
      slots.durable[i] := 0;
      assert slots.Peers() == old(slots.Peers())[i := None];
    }

    /**
     The next flushed records for the replica in slot i, as many as its buffer
     takes, when the read meets nothing it should not; false ends the stream.
     What is sent is in any case what the read takes: past the end of a finished
     segment, all of its records from there on and then those left behind it.
     */
    method ReplStream(w: Wal, i: nat, buf: array<byte>, room: nat)
        returns (ok: bool, n: nat, ghost at: nat, ghost k: nat, ghost imgs: seq<seq<byte>>)
      requires Valid() && w.Valid() && i < MAX_REPLICAS && slots.Peers()[i].Some?
      requires buf !in w.Repr() && room <= buf.Length
      requires var c := streams[i];
        c.open && Stands(w.log, c.segBase, c.off, c.nextSeq) && c.nextSeq == slots.Peers()[i].value.cursor
      modifies streams[i], slots.cursor, buf
      ensures Valid() && w.log.gone < |w.log.segs| && streams[i] == old(streams[i]) && n <= room && 0 <= w.log.durable
      ensures old(streams[i].nextSeq) < FirstSeq(w.log) ==> !ok
      ensures FirstSeq(w.log) <= old(streams[i].nextSeq) <= w.log.durable ==>
        var c, limit := streams[i], w.log.durable as nat;
        && ReadsAt(w.log, old(c.segBase), old(c.off), old(c.nextSeq), at, k, limit, room)
        && Meets(w.log, at, k, limit, room) == Seen(imgs, ok)
        && (Foul(w.log.segs[at], k, limit, room) ==> !ok)
        && Stray.Reads(w.log, at, k, limit)
        && (Stray.Within(w.log, at, k, limit, room) <==> !Stale(w.log.segs[at], k, limit, room))
        && (Stale(w.log.segs[at], k, limit, room) ==>
              && |imgs| > |w.log.segs[at].images| - k
              && imgs[..|w.log.segs[at].images| - k] == w.log.segs[at].images[k..])
      ensures ok ==>
        var c, p := streams[i], old(slots.Peers()[i].value);
        && buf[..n] == Concat(imgs) && c.nextSeq == old(c.nextSeq) + |imgs|
        && slots.Peers() == old(slots.Peers())[i := Some(p.(cursor := c.nextSeq))]
      ensures
        var fair := old(streams[i].nextSeq) <= w.log.durable ==> Fair(w.log, at, k, w.log.durable, room);
        FirstSeq(w.log) <= old(streams[i].nextSeq) && fair ==>
        var c, p := streams[i], old(slots.Peers()[i].value);
        && ok && Stands(w.log, c.segBase, c.off, c.nextSeq)
        && Yields(w.log, p.cursor, w.log.durable, room, c.nextSeq, buf[..n])
      ensures !ok ==> slots.Peers() == old(slots.Peers())
    {
      hide Wal.Valid, Placed, Flat, Stands, StandsAt, Yields, Foul, Stale, Concat, Slice, Whole, Over, Meets,
        Stray.Within;
      NotEmptyLog(w);
      DurableIs(w);
      DurableReached(w);
      var got;
      ghost var from := streams[i].nextSeq;
      got, at, k, imgs := streams[i].Read(w, w.active.durableSeq, buf, room);
      if FirstSeq(w.log) <= from <= w.active.durableSeq {
        Stray.WithinIs(w.log, at, k, w.active.durableSeq, room);
      }
      if got.Err? {
        return false, 0, at, k, imgs;
      }
      slots.cursor[i] := streams[i].nextSeq;
      assert slots.Peers() == old(slots.Peers())[i := Some(old(slots.Peers()[i].value).(cursor := streams[i].nextSeq))];
      ok, n := true, got.value;
    }

    /** The end of a pass: segments below what must be kept are unlinked, unless the last try failed. */
    method RetainPass(w: Wal, fails: nat) returns (tried: bool, ghost keep: nat)
      requires Valid() && w.Valid()
      modifies `retainFailed, `seenSegs, w.Repr()
      ensures w.Valid() && w.Repr() == old(w.Repr())
      ensures keep == Replication.Bound(slots.want, slots.floor, Store.RetainMark(old(w.table.Bases()), keepSegments))
      ensures tried ==> Retains(old(w.log), keep, fails, w.log)
      ensures !tried ==> w.log == old(w.log)
      ensures tried <==>
        && keepSegments > 0 && old(!retainFailed || seenSegs != w.table.count)
        && Store.RetainMark(old(w.table.Bases()), keepSegments) > 0 && old(FirstOf(w)) < keep
      ensures retainFailed == if tried then fails < DropCount(old(w.table.Bases()), keep)
        else old(retainFailed) && (keepSegments <= 0 || old(seenSegs == w.table.count))
    {
      hide Wal.Valid, Placed, Flat, DropCount, Store.RetainMark, Store.Retain;
      NotEmptyLog(w);
      FirstIs(w);
      TableValid(w);
      tried := false;
      keep := Replication.Bound(slots.want, slots.floor, Store.RetainMark(w.table.Bases(), keepSegments));
      if keepSegments <= 0 {
        return;
      }
      var segments := w.table.count;
      if retainFailed {
        if segments == seenSegs {
          return;
        }
        retainFailed := false;
      }
      seenSegs := segments;
      var from := w.RetainMark(keepSegments);
      if from == 0 {
        return;
      }
      if slots.want > 0 && slots.floor + 1 < from {
        from := slots.floor + 1;
      }
      if from <= w.table.bases[0] {
        return;
      }
      tried := true;
      var res, removed := w.Retain(from, fails);
      if res.Err? {
        retainFailed := true;
      }
    }
  }

  lemma FreeIs(before: seq<Option<Peer>>, i: nat, conn: nat, seqno: nat)
    requires i < |before| && i == Replication.FreeSlot(before) && 0 < seqno
    ensures Started(before, before[i := Some(Peer(conn, seqno, seqno - 1))], i, conn, seqno)
  {
    Durability.FreeSlotIs(before);
  }

  /** Every system this leader may be part of takes a refusal the same way. */
  lemma Replies(before: seq<Option<Peer>>, want: nat, was: nat, conn: nat, seqno: nat, first: nat, next: nat)
    requires 0 < first
    ensures !(Replication.FreeSlot(before) < |before| && first <= seqno <= next) ==>
      forall s :: Depicts(s, conn, before, want, was, first, next) ==>
        && Replication.Attach(s, conn, seqno).leader.peers == before
        && Replication.Attach(s, conn, seqno).leader.floor == was
  {
    if !(Replication.FreeSlot(before) < |before| && first <= seqno <= next) {
      forall s | Depicts(s, conn, before, want, was, first, next)
        ensures Replication.Attach(s, conn, seqno).leader.peers == before
        ensures Replication.Attach(s, conn, seqno).leader.floor == was
      {
        StartIsAttach(s, conn, seqno, first, next, NoSlot, before, before, was, was);
      }
    }
  }

  /** And a slot. */
  lemma Serves(before: seq<Option<Peer>>, want: nat, was: nat, conn: nat, seqno: nat, first: nat, next: nat,
               after: seq<Option<Peer>>, i: nat)
    requires 0 < first && Replication.FreeSlot(before) < |before| && first <= seqno <= next
    requires Started(before, after, i, conn, seqno)
    ensures forall s :: Depicts(s, conn, before, want, was, first, next) ==>
      && Replication.Attach(s, conn, seqno).leader.peers == after
      && Replication.Attach(s, conn, seqno).leader.floor == Floor(want, was, after)
  {
    hide Floor, Started;
    forall s | Depicts(s, conn, before, want, was, first, next)
      ensures Replication.Attach(s, conn, seqno).leader.peers == after
      ensures Replication.Attach(s, conn, seqno).leader.floor == Floor(want, was, after)
    {
      StartIsAttach(s, conn, seqno, first, next, Streaming(i), before, after, was, Floor(want, was, after));
    }
  }

  lemma {:induction false} FreeSlotAt(p: seq<Option<Peer>>, i: nat)
    requires i <= |p| && (forall k :: 0 <= k < i ==> p[k].Some?) && (i < |p| ==> p[i].None?)
    ensures Replication.FreeSlot(p) == i
    decreases i
  {
    if i > 0 {
      FreeSlotAt(p[1..], i - 1);
    }
  }

  lemma FirstPositive(w: Wal)
    requires w.Valid()
    ensures w.log.gone < |w.log.segs| && 0 < FirstSeq(w.log)
  {
    ActiveNext(w);
    hide Wal.Valid, Concat;
    assert SegOk(w.log.segs[w.log.gone], w.log.cap);
  }

  lemma DurableIs(w: Wal)
    requires w.Valid()
    ensures w.active.durableSeq as int == w.log.durable
  {
    ActiveNext(w);
    hide Placed, Flat, HoldsFinished, Headed, Heads;
  }

  lemma DurableReached(w: Wal)
    requires w.Valid()
    ensures Placed(w.log) && w.log.segs != [] && w.log.durable < Next(w.log)
  {
    hide Chain, Flat, HoldsFinished, Headed, Heads, Concat;
  }

  lemma TableValid(w: Wal)
    requires w.Valid()
    ensures w.table.Valid()
  {
    hide Placed, Flat, HoldsFinished, Headed, Heads;
  }
}
