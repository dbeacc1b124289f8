/**
 A reader pass by pass: when a read ends and what it has been sent by then, and
 how far a subscription gets, for every run of the log beside it.
 */
module Passes {
  import opened Bytes
  import opened Record
  import opened Wrappers
  import opened Store
  import opened Recovery
  import opened Wal
  import opened Cursor
  import opened Readers
  import opened Delivery
  import Conn
  import Crc32c
  import KeyIndex
  import Msg

  /** Every record from a to b is no larger than what one pass can read. */
  ghost predicate AllFit(w: Log, a: nat, b: nat, room: nat) {
    forall n :: a <= n <= b ==> |Entry(w, n)| <= room
  }

  /** What a record comes to on disk: its header and its payload, padded. */
  lemma EntrySize(w: Log, n: nat)
    requires Placed(w) && w.segs != [] && Origin(w) <= n < End(w)
    ensures |Entry(w, n)| >= HEADER && |Entry(w, n)| == HEADER + Padded(Decode(Entry(w, n)).len)
    ensures Decode(Entry(w, n)).seqno == n && IsRecord(Entry(w, n))
  {
    hide Chain, Flat, Verify, Decode;
    FlatDense(w.segs, w.cap);
    assert IsRecordAt(Flat(w.segs)[n - Origin(w)], Origin(w) + (n - Origin(w)));
  }

  lemma EntryStable(w: Log, op: Op, n: nat)
    requires Good(w) && TailClean(w) && Allowed(w, op) && w.segs != [] && Origin(w) <= n < End(w)
    ensures Step(w, op).segs != [] && Entry(Step(w, op), n) == Entry(w, n)
  {
    hide Good, TailClean, Allowed, Step;
    SliceStable(w, op, n, n + 1);
    var v := Step(w, op);
    hide Flat;
    assert Slice(w, n, n + 1)[0] == Entry(w, n) && Slice(v, n, n + 1)[0] == Entry(v, n);
  }

  lemma FitStable(w: Log, op: Op, a: nat, b: nat, room: nat)
    requires Good(w) && TailClean(w) && Allowed(w, op) && w.segs != [] && Origin(w) <= a && b < End(w)
    ensures AllFit(Step(w, op), a, b, room) <==> AllFit(w, a, b, room)
  {
    hide Good, TailClean, Allowed, Step, Entry, End;
    forall n | a <= n <= b
      ensures Entry(Step(w, op), n) == Entry(w, n)
    {
      EntryStable(w, op, n);
    }
  }

  /** Records that a read takes are each no larger than its room. */
  lemma TakenFit(w: Log, next: nat, limit: nat, room: nat, upto: nat, out: seq<byte>, n: nat)
    requires Yields(w, next, limit, room, upto, out) && next <= n < upto
    ensures |Entry(w, n)| <= room
  {
    hide Flat, Concat;
    var s := Slice(w, next, upto);
    assert s[n - next] == Entry(w, n);
    PartOfConcat(s, n - next);
  }

  lemma {:induction false} PartOfConcat(imgs: seq<seq<byte>>, i: nat)
    requires i < |imgs|
    ensures |imgs[i]| <= |Concat(imgs)|
  {
    if i > 0 {
      PartOfConcat(imgs[1..], i - 1);
    }
  }

  // ---- one connection's turns ----

  /** A read as a connection holds it; `sent` is what its passes have put on the wire. */
  datatype Reading = Reading(next: nat, until: nat, active: bool, sent: seq<byte>)

  /** The log moves on, or the connection has its turn of a pass. */
  datatype Turn = Log(op: Op) | Pass(limit: nat, upto: nat, block: seq<byte>)

  ghost predicate Due(x: Reading) {
    x.active && x.next <= x.until
  }

  ghost predicate Moves(w: Log, x: Reading, room: nat, t: Turn) {
    match t
    case Log(op) => Allowed(w, op)
    case Pass(limit, upto, block) => Due(x) ==>
      && limit <= x.until && limit as int <= w.durable && w.gone < |w.segs| && FirstSeq(w) <= x.next
      && Yields(w, x.next, limit, room, upto, block)
  }

  function WAfter(w: Log, t: Turn): Log
    requires t.Log? ==> Allowed(w, t.op)
  {
    if t.Log? then Step(w, t.op) else w
  }

  /** A pass sends what it read, or the closing frame when there is nothing left to read. */
  ghost function XAfter(q: Want, w: Log, x: Reading, t: Turn): Reading {
    if t.Log? || !x.active then x
    else if x.next > x.until then x.(active := false, sent := x.sent + LastFrame(x.until))
    else x.(next := t.upto, sent := x.sent + Notices(Pick(q, Slice(w, x.next, t.upto))))
  }

  ghost predicate Turns(q: Want, w: Log, x: Reading, room: nat, ts: seq<Turn>)
    decreases |ts|
  {
    ts == [] || (Moves(w, x, room, ts[0]) && Turns(q, WAfter(w, ts[0]), XAfter(q, w, x, ts[0]), room, ts[1..]))
  }

  ghost function After(q: Want, w: Log, x: Reading, room: nat, ts: seq<Turn>): Reading
    requires Turns(q, w, x, room, ts)
    decreases |ts|
  {
    if ts == [] then x else After(q, WAfter(w, ts[0]), XAfter(q, w, x, ts[0]), room, ts[1..])
  }

  /** Passes that no connection before this one held back. */
  ghost function Free(q: Want, w: Log, x: Reading, room: nat, ts: seq<Turn>): nat
    requires Turns(q, w, x, room, ts)
    decreases |ts|
  {
    if ts == [] then 0
    else
      (if ts[0].Pass? && (Due(x) ==> ts[0].limit == x.until) then 1 else 0)
      + Free(q, WAfter(w, ts[0]), XAfter(q, w, x, ts[0]), room, ts[1..])
  }

  /** The reads among the turns, as a story of the cursor. */
  ghost function Reads(q: Want, w: Log, x: Reading, room: nat, ts: seq<Turn>): seq<Event>
    requires Turns(q, w, x, room, ts)
    decreases |ts|
  {
    if ts == [] then []
    else
      var rest := Reads(q, WAfter(w, ts[0]), XAfter(q, w, x, ts[0]), room, ts[1..]);
      if ts[0].Log? then [Do(ts[0].op)] + rest
      else if Due(x) then [Take(ts[0].limit, room, ts[0].upto, ts[0].block)] + rest
      else rest
  }

  /** What the turns send is what the story tells, and the closing frame once it is over. */
  lemma {:induction false} TurnsTell(q: Want, w: Log, x: Reading, room: nat, ts: seq<Turn>)
    requires Turns(q, w, x, room, ts)
    ensures var es, y := Reads(q, w, x, room, ts), After(q, w, x, room, ts);
      && Story(w, x.next, es) && Paced(w, x.next, es, Some(x.until as int))
      && FinalNext(x.next, es) == y.next && y.until == x.until && (!x.active ==> y == x)
      && (x.active && !y.active ==> y.next > y.until)
      && y.sent == x.sent + Notices(Told(q, w, x.next, es)) + if x.active && !y.active then LastFrame(x.until) else []
    decreases |ts|
  {
    hide Step, Allowed, Yields, Slice, Pick, Notices, LastFrame;
    NothingTold(x.sent);
    if ts != [] {
      var t := ts[0];
      var w1, x1 := WAfter(w, t), XAfter(q, w, x, t);
      TurnsTell(q, w1, x1, room, ts[1..]);
      var rest := Reads(q, w1, x1, room, ts[1..]);
      if t.Log? {
        StoryCons(w, x.next, Do(t.op), rest, x.until);
        assert [] + Told(q, w1, x.next, rest) == Told(q, w1, x.next, rest);
        assert Told(q, w, x.next, [Do(t.op)] + rest) == Told(q, w1, x.next, rest);
      } else if Due(x) {
        var e := Take(t.limit, room, t.upto, t.block);
        StoryCons(w, x.next, e, rest, x.until);
        NoticesJoin(Pick(q, Slice(w, x.next, t.upto)), Told(q, w1, t.upto, rest));
        assert Told(q, w, x.next, [e] + rest) == Pick(q, Slice(w, x.next, t.upto)) + Told(q, w1, t.upto, rest);
      }
    }
  }

  lemma NothingTold(s: seq<byte>)
    ensures Notices([]) == [] && s + [] + [] == s && s + [] == s
  {}

  lemma StoryCons(w: Log, next: nat, e: Event, es: seq<Event>, until: nat)
    requires Happens(w, next, e) && Story(LogAfter(w, e), NextAfter(next, e), es)
    requires Paced(LogAfter(w, e), NextAfter(next, e), es, Some(until as int))
    requires e.Take? ==> e.limit as int <= w.durable && next <= until && e.limit <= until
    ensures Story(w, next, [e] + es) && Paced(w, next, [e] + es, Some(until as int))
    ensures FinalNext(next, [e] + es) == FinalNext(NextAfter(next, e), es)
  {
    hide Yields, Allowed, Step;
    assert ([e] + es)[1..] == es;
  }

  lemma TurnKeeps(q: Want, w: Log, x: Reading, room: nat, t: Turn)
    requires Good(w) && TailClean(w) && w.segs != [] && Origin(w) <= x.next <= End(w) && Moves(w, x, room, t)
    ensures var v, y := WAfter(w, t), XAfter(q, w, x, t);
      && Good(v) && TailClean(v) && v.segs != [] && Origin(v) == Origin(w) && End(w) <= End(v)
      && x.next <= y.next <= End(v) && y.until == x.until
  {
    hide Good, TailClean, Step, Allowed, Slice, Pick, Notices, LastFrame, Flat;
    if t.Log? {
      EventKeeps(w, x.next, Do(t.op));
      EventGrows(w, x.next, Do(t.op));
    }
  }

  /**
   How many more free passes a read can need: one for each sequence it has not
   passed, and one to say so.
   */
  function Needed(x: Reading): nat {
    if !x.active then 0 else if x.next <= x.until then x.until - x.next + 2 else 1
  }

  /** While every record fits, each free pass brings a read nearer its end. */
  lemma {:induction false} ReadEnds(q: Want, w: Log, x: Reading, room: nat, ts: seq<Turn>)
    requires Good(w) && TailClean(w) && w.segs != [] && Origin(w) <= x.next <= End(w) && x.until < End(w)
    requires Turns(q, w, x, room, ts) && AllFit(w, x.next, x.until, room)
    requires Free(q, w, x, room, ts) >= Needed(x)
    ensures !After(q, w, x, room, ts).active
    decreases |ts|
  {
    hide Good, TailClean, Step, Allowed, Slice, Pick, Notices, LastFrame, Flat, AllFit, Entry, End;
    if ts != [] {
      var t := ts[0];
      var w1, x1 := WAfter(w, t), XAfter(q, w, x, t);
      TurnKeeps(q, w, x, room, t);
      FitAfter(w, x, t, room, x1);
      if t.Pass? && Due(x) && t.limit == x.until { Advances(w, x, t, room); }
      ReadEnds(q, w1, x1, room, ts[1..]);
    }
  }

  lemma FitAfter(w: Log, x: Reading, t: Turn, room: nat, y: Reading)
    requires Good(w) && TailClean(w) && w.segs != [] && Origin(w) <= x.next && x.until < End(w)
    requires t.Log? ==> Allowed(w, t.op)
    requires AllFit(w, x.next, x.until, room) && y.until == x.until && x.next <= y.next
    ensures AllFit(WAfter(w, t), y.next, y.until, room)
  {
    hide Good, TailClean, Step, Allowed, Entry, End;
    if t.Log? { FitStable(w, t.op, x.next, x.until, room); }
  }

  lemma Advances(w: Log, x: Reading, t: Turn, room: nat)
    requires t.Pass? && Due(x) && Moves(w, x, room, t) && t.limit == x.until < End(w) && w.segs != []
    requires AllFit(w, x.next, x.until, room)
    ensures x.next < t.upto
  {
    hide Slice, Flat, Concat, Entry;
  }

  /** A record too large for one pass is never got past. */
  lemma {:induction false} ReadStuck(q: Want, w: Log, x: Reading, room: nat, ts: seq<Turn>, n: nat)
    requires Good(w) && TailClean(w) && w.segs != [] && Origin(w) <= x.next <= n <= x.until && n < End(w)
    requires x.next <= End(w) && x.active && |Entry(w, n)| > room && Turns(q, w, x, room, ts)
    ensures var y := After(q, w, x, room, ts); y.active && y.next <= n
    decreases |ts|
  {
    hide Good, TailClean, Step, Allowed, Slice, Pick, Notices, LastFrame, Flat, Entry, End, Yields;
    if ts != [] {
      var t := ts[0];
      TurnKeeps(q, w, x, room, t);
      if t.Log? {
        EntryStable(w, t.op, n);
      } else if t.upto > n {
        TakenFit(w, x.next, t.limit, room, t.upto, t.block, n);
      }
      ReadStuck(q, WAfter(w, t), XAfter(q, w, x, t), room, ts[1..], n);
    }
  }

  // ---- whole reads ----

  /** A read as the handler leaves it; one with nothing to read is past its end already. */
  function Began(p: Plan): Reading {
    match p
    case Walk(from, until) => Reading(from, if until < 0 then 0 else until, true, [])
    case Nothing => Reading(1, 0, true, [])
  }

  /** Whether one pass can read each record the read has to walk over. */
  ghost predicate Readable(w: Log, p: Plan, room: nat) {
    p.Walk? ==> forall n: nat :: p.from <= n <= p.until ==> |Entry(w, n)| <= room
  }

  lemma PlanBounds(w: Log, q: Want, range: Option<(nat, nat)>, complete: bool)
    requires Placed(w) && Headed(Flat(w.segs)) && IndexSays(w, q.key, FirstSeq(w), range, complete)
    ensures var p := PlanRead(q, FirstSeq(w), w.durable, range, complete);
      && w.segs != []
      && (p.Walk? ==> Origin(w) <= p.from <= End(w) && 0 <= p.until < End(w))
  {
    hide Chain, Flat, Headed, IndexSays, Concat;
    Bounds(w);
    ReadPlaced(w, q, range, complete);
    var a, b := RangeFacts(w, q.key, FirstSeq(w), range, complete);
    OriginPositive(w);
  }

  /**
   A read, from the request to its end, with the send buffer drained between
   passes and retention not overtaking it. Given enough passes that no earlier
   connection holds back, it ends if and only if each record it has to walk over
   is no larger than one pass can read; and when it ends it has put on the wire
   exactly the frames of the records asked for that were flushed when it came,
   each once and in order, and then the closing frame.
   */
  lemma ReadExact(w: Log, q: Want, range: Option<(nat, nat)>, complete: bool, room: nat, ts: seq<Turn>)
    requires Good(w) && TailClean(w) && Headed(Flat(w.segs)) && IndexSays(w, q.key, FirstSeq(w), range, complete)
    requires var p := PlanRead(q, FirstSeq(w), w.durable, range, complete);
      Turns(q, w, Began(p), room, ts) && Free(q, w, Began(p), room, ts) >= Needed(Began(p))
    ensures var p := PlanRead(q, FirstSeq(w), w.durable, range, complete);
      var y := After(q, w, Began(p), room, ts);
      && (!y.active <==> Readable(w, p, room)) && y.until == Began(p).until
      && (!y.active ==> y.sent == Notices(Answer(q, w)) + LastFrame(y.until))
  {
    hide Chain, AllEndClean, TailClean, Flat, Slice, Pick, Notices, Answer, IndexSays, Turns, After, Free, PlanRead,
      Headed, LastFrame, End, Entry;
    PlanBounds(w, q, range, complete);
    var p := PlanRead(q, FirstSeq(w), w.durable, range, complete);
    if p.Walk? {
      ReadOutcome(w, q, range, complete, p, room, ts);
    } else {
      PlanLosesNothing(w, q, range, complete);
      NothingToRead(q, w, Began(p), room, ts);
      NothingTold([]);
    }
  }

  lemma ReadOutcome(w: Log, q: Want, range: Option<(nat, nat)>, complete: bool, p: Plan, room: nat, ts: seq<Turn>)
    requires Good(w) && TailClean(w) && Headed(Flat(w.segs)) && IndexSays(w, q.key, FirstSeq(w), range, complete)
    requires p == PlanRead(q, FirstSeq(w), w.durable, range, complete) && p.Walk? && p.until >= 0
    requires w.segs != [] && Origin(w) <= p.from <= End(w) && p.until < End(w)
    requires Turns(q, w, Began(p), room, ts) && Free(q, w, Began(p), room, ts) >= Needed(Began(p))
    ensures var y := After(q, w, Began(p), room, ts);
      && (!y.active <==> Readable(w, p, room)) && y.until == Began(p).until
      && (!y.active ==> y.sent == Notices(Answer(q, w)) + LastFrame(y.until))
  {
    hide Chain, AllEndClean, TailClean, Flat, Slice, Pick, Notices, Answer, IndexSays, Turns, After, Free, PlanRead,
      Headed, LastFrame, End, Entry;
    PlanLosesNothing(w, q, range, complete);
    hide Placed;
    WalkOutcome(w, q, Began(p), room, ts);
  }

  /** A walk, wherever it starts and whatever its end, once it has had the passes it can need. */
  lemma WalkOutcome(w: Log, q: Want, x: Reading, room: nat, ts: seq<Turn>)
    requires Good(w) && TailClean(w) && w.segs != [] && Origin(w) <= x.next <= End(w) && x.until < End(w)
    requires x.active && x.sent == []
    requires Turns(q, w, x, room, ts) && Free(q, w, x, room, ts) >= Needed(x)
    ensures var y := After(q, w, x, room, ts);
      && y.until == x.until
      && (!y.active <==> AllFit(w, x.next, x.until, room))
      && (!y.active ==> y.sent == Notices(Asked(q, w, x.next, x.until)) + LastFrame(x.until))
  {
    hide Good, TailClean, Flat, Slice, Pick, Notices, Turns, After, Free, LastFrame, End, Entry, Story, Paced,
      FinalNext, Told, Reads;
    var y, es := After(q, w, x, room, ts), Reads(q, w, x, room, ts);
    TurnsTell(q, w, x, room, ts);
    if AllFit(w, x.next, x.until, room) {
      ReadEnds(q, w, x, room, ts);
    } else {
      var n: nat :| x.next <= n <= x.until && |Entry(w, n)| > room;
      ReadStuck(q, w, x, room, ts, n);
    }
    if !y.active {
      WalkTold(w, q, x.next, x.until, es);
      var told := Notices(Told(q, w, x.next, es));
      assert [] + told == told;
    }
  }

  /**
   A read that was held for its barrier. It came while the log was w, and was
   placed by what the index said then; it is released when the log is v, in a
   pass that reads up to d. From there it ends if and only if each record it has
   to walk over fits one pass, and when it ends it has put on the wire exactly
   the frames of the records asked for from the first sequence there was when it
   came up to d, each once and in order, and then the closing frame.
   */
  lemma WaitedRead(w: Log, q: Want, range: Option<(nat, nat)>, complete: bool, ops: seq<Op>, d: nat, room: nat,
                   ts: seq<Turn>)
    requires Good(w) && TailClean(w) && Headed(Flat(w.segs)) && IndexSays(w, q.key, FirstSeq(w), range, complete)
    requires PlanRead(q, FirstSeq(w), w.durable, range, complete).Walk?
    requires RunAllowed(w, ops) && d as int <= RunOps(w, ops).durable
    requires var v, x := RunOps(w, ops), Released(PlanRead(q, FirstSeq(w), w.durable, range, complete), d);
      Turns(q, v, x, room, ts) && Free(q, v, x, room, ts) >= Needed(x)
    ensures var p, v := PlanRead(q, FirstSeq(w), w.durable, range, complete), RunOps(w, ops);
      var y := After(q, v, Released(p, d), room, ts);
      && (!y.active <==> AllFit(v, p.from, d, room))
      && (!y.active ==> y.sent == Notices(Asked(q, v, FirstSeq(w), d)) + LastFrame(d))
  {
    RunGood(w, ops);
    LaterAsked(w, q, range, complete, ops, d);
    hide Good, TailClean, Flat, Headed, IndexSays, PlanRead, RunOps, RunAllowed, Turns, After, Free, Asked, AllFit,
      LastFrame, End;
    var p := PlanRead(q, FirstSeq(w), w.durable, range, complete);
    WalkOutcome(RunOps(w, ops), q, Released(p, d), room, ts);
  }

  /** A held read when it starts: at the place it was given, to end at what this pass reads up to. */
  function Released(p: Plan, d: nat): Reading
    requires p.Walk?
  {
    Reading(p.from, d, true, [])
  }

  /** A read past its end from the start sends the closing frame and nothing else. */
  lemma {:induction false} NothingToRead(q: Want, w: Log, x: Reading, room: nat, ts: seq<Turn>)
    requires Turns(q, w, x, room, ts) && Free(q, w, x, room, ts) >= 1 && x.active && x.next > x.until
    ensures After(q, w, x, room, ts) == x.(active := false, sent := x.sent + LastFrame(x.until))
    decreases |ts|
  {
    hide Step, Allowed, LastFrame;
    var t := ts[0];
    if t.Log? {
      NothingToRead(q, WAfter(w, t), x, room, ts[1..]);
    } else {
      OverStays(q, WAfter(w, t), XAfter(q, w, x, t), room, ts[1..]);
    }
  }

  lemma {:induction false} OverStays(q: Want, w: Log, x: Reading, room: nat, ts: seq<Turn>)
    requires Turns(q, w, x, room, ts) && !x.active
    ensures After(q, w, x, room, ts) == x
    decreases |ts|
  {
    hide Step, Allowed;
    if ts != [] {
      OverStays(q, WAfter(w, ts[0]), x, room, ts[1..]);
    }
  }

  // ---- subscriptions ----

  /** Every read of the story had all of the room. */
  predicate AllRoom(es: seq<Event>, room: nat) {
    forall i :: 0 <= i < |es| && es[i].Take? ==> es[i].room == room
  }

  /** Passes whose limit reached sequence t, or that came once it was passed. */
  function FreeTo(next: nat, es: seq<Event>, t: nat): nat
    decreases |es|
  {
    if es == [] then 0
    else
      (if es[0].Take? && (next <= t ==> t <= es[0].limit) then 1 else 0)
      + FreeTo(NextAfter(next, es[0]), es[1..], t)
  }

  /** While every record up to t fits, each free pass brings the cursor nearer. */
  lemma {:induction false} CursorReaches(w: Log, next: nat, es: seq<Event>, t: nat, room: nat)
    requires Good(w) && TailClean(w) && w.segs != [] && Origin(w) <= next <= End(w) && t < End(w)
    requires Story(w, next, es) && AllRoom(es, room) && AllFit(w, next, t, room)
    requires FreeTo(next, es, t) >= if next <= t then t + 1 - next else 0
    ensures FinalNext(next, es) > t
    decreases |es|
  {
    hide Good, TailClean, Step, Allowed, Slice, Flat, AllFit, Entry, End, Yields;
    if es != [] {
      var e := es[0];
      EventKeeps(w, next, e);
      EventGrows(w, next, e);
      assert forall i :: 0 <= i < |es[1..]| ==> es[1..][i] == es[i + 1];
      FitAfterEvent(w, next, e, t, room);
      if e.Take? && next <= t <= e.limit { TakeAdvances(w, next, e, t, room); }
      CursorReaches(LogAfter(w, e), NextAfter(next, e), es[1..], t, room);
    }
  }

  lemma FitAfterEvent(w: Log, next: nat, e: Event, t: nat, room: nat)
    requires Good(w) && TailClean(w) && w.segs != [] && Origin(w) <= next <= NextAfter(next, e) && t < End(w)
    requires Happens(w, next, e) && AllFit(w, next, t, room)
    ensures AllFit(LogAfter(w, e), NextAfter(next, e), t, room)
  {
    hide Good, TailClean, Step, Allowed, Entry, End, Yields;
    if e.Do? { FitStable(w, e.op, next, t, room); }
  }

  lemma TakeAdvances(w: Log, next: nat, e: Event, t: nat, room: nat)
    requires e.Take? && Happens(w, next, e) && next <= t <= e.limit && t < End(w) && w.segs != [] && e.room == room
    requires AllFit(w, next, t, room)
    ensures next < e.upto
  {
    hide Slice, Flat, Concat, Entry;
  }

  /** A record too large for one pass is never got past. */
  lemma {:induction false} CursorStuck(w: Log, next: nat, es: seq<Event>, n: nat, room: nat)
    requires Good(w) && TailClean(w) && w.segs != [] && Origin(w) <= next <= n < End(w)
    requires Story(w, next, es) && AllRoom(es, room) && |Entry(w, n)| > room
    ensures FinalNext(next, es) <= n
    decreases |es|
  {
    hide Good, TailClean, Step, Allowed, Slice, Flat, Entry, End, Yields;
    if es != [] {
      var e := es[0];
      EventKeeps(w, next, e);
      EventGrows(w, next, e);
      assert forall i :: 0 <= i < |es[1..]| ==> es[1..][i] == es[i + 1];
      if e.Do? {
        EntryStable(w, e.op, n);
      } else if e.upto > n {
        TakenFit(w, next, e.limit, e.room, e.upto, e.out, n);
      }
      CursorStuck(LogAfter(w, e), NextAfter(next, e), es[1..], n, room);
    }
  }

  /**
   How far a subscription gets, with the send buffer drained between passes:
   given enough passes that reach sequence t, it gets past t if and only if each
   record from where it started to t is no larger than one pass can read.
   */
  lemma SubscriptionReaches(w: Log, q: Want, from: nat, range: Option<(nat, nat)>, es: seq<Event>, t: nat, room: nat)
    requires Good(w) && TailClean(w)
    requires var start := PlanSubscribe(q, from, range);
      && FirstSeq(w) <= start <= t < Next(w) && Story(w, start, es) && AllRoom(es, room)
      && FreeTo(start, es, t) >= t + 1 - start
    ensures var start := PlanSubscribe(q, from, range);
      FinalNext(start, es) > t <==> AllFit(w, start, t, room)
  {
    hide Chain, AllEndClean, TailClean, Story, AllRoom, FreeTo, FinalNext, Entry;
    Bounds(w);
    hide Placed, End;
    var start := PlanSubscribe(q, from, range);
    if AllFit(w, start, t, room) {
      CursorReaches(w, start, es, t, room);
    } else {
      var n: nat :| start <= n <= t && |Entry(w, n)| > room;
      CursorStuck(w, start, es, n, room);
    }
  }

  // ---- a read that never ends ----

  const RECV_CAP: nat := 8192
  const SEND_CAP: nat := 8192

  /** A log of one write with the largest payload a client's connection lets in, flushed. */
  function OneLarge(cap: nat, r: Rec, payload: seq<byte>): Store.Log
    requires HEADER <= cap && |payload| == r.len
  {
    Sync(Append(Store.Log(cap, [Seg(1, [], Zeros(cap))], 0, 0, 0, 0), r, payload, MAX_SIZE).0)
  }

  /** The append finds an empty segment with room, and fills the front of it. */
  lemma LargeAppended(w: Store.Log, cap: nat, r: Rec, payload: seq<byte>)
    requires w == Store.Log(cap, [Seg(1, [], Zeros(cap))], 0, 0, 0, 0)
    requires |payload| == r.len == RECV_CAP - Msg.HEADER && HEADER + r.len <= cap
    ensures 0 < SizeOf(r) <= cap && SizeOf(r) <= MAX_SIZE && HasRoom(w, SizeOf(r))
    ensures var v := Append(w, r, payload, MAX_SIZE).0;
      && v.gone == 0 && |v.segs| == 1 && v.segs[0].base == 1
      && v.segs[0].images == [Encode(r.(seqno := 1), payload)]
      && |Encode(r.(seqno := 1), payload)| == HEADER + r.len
  {
    hide Encode, WriteAt, Zeros;
    assert [] + [Encode(r.(seqno := 1), payload)] == [Encode(r.(seqno := 1), payload)];
  }

  lemma OneLargeIs(cap: nat, r: Rec, payload: seq<byte>)
    requires |payload| == r.len == RECV_CAP - Msg.HEADER && HEADER + r.len <= cap
    ensures var w := OneLarge(cap, r, payload);
      && Good(w) && TailClean(w) && w.gone < |w.segs| && FirstSeq(w) == Origin(w) == 1 && End(w) == 2 && w.durable == 1
      && |Entry(w, 1)| == HEADER + r.len && Flat(w.segs) == [Encode(r.(seqno := 1), payload)]
  {
    hide Chain, AllEndClean, TailClean, Append, Encode, SizeOf, HasRoom;
    var w0 := Store.Log(cap, [Seg(1, [], Zeros(cap))], 0, 0, 0, 0);
    FirstLog(cap);
    hide Placed;
    LargeAppended(w0, cap, r, payload);
    AppendKeeps(w0, r, payload, MAX_SIZE);
    var w1 := Append(w0, r, payload, MAX_SIZE).0;
    SyncPlaced(w1);
    FlatOne(w1.segs[0]);
    assert w1.segs == [w1.segs[0]];
  }

  /** A turn of a read that has no room for its next record leaves it as it was. */
  lemma {:induction false} NothingMoves(q: Want, w: Store.Log, x: Reading, room: nat, ts: seq<Turn>)
    requires Good(w) && TailClean(w) && w.segs != [] && Origin(w) <= x.next <= x.until && x.next < End(w)
    requires x.active && |Entry(w, x.next)| > room && Turns(q, w, x, room, ts)
    ensures After(q, w, x, room, ts) == x
    decreases |ts|
  {
    hide Good, TailClean, Step, Allowed, Slice, Pick, Notices, LastFrame, Flat, Entry, End, Yields;
    if ts != [] {
      var t := ts[0];
      TurnKeeps(q, w, x, room, t);
      if t.Log? {
        EntryStable(w, t.op, x.next);
      } else {
        if t.upto > x.next { TakenFit(w, x.next, t.limit, room, t.upto, t.block, x.next); }
        NothingTaken(q, w, x.next, t.upto);
        NothingTold(x.sent);
      }
      NothingMoves(q, WAfter(w, t), XAfter(q, w, x, t), room, ts[1..]);
    }
  }

  lemma NothingTaken(q: Want, w: Store.Log, a: nat, b: nat)
    ensures b <= a ==> Slice(w, a, b) == [] && Pick(q, Slice(w, a, b)) == []
  {}

  lemma KeyOf(r: Rec, payload: seq<byte>)
    requires |payload| == r.len <= MAX_PAYLOAD
    ensures |Encode(r, payload)| >= HEADER
    ensures Decode(Encode(r, payload)).key == r.key && Decode(Encode(r, payload)).seqno == r.seqno
  {
    EncodeDecodes(r, payload);
    hide Encode, Crc32c.Sum;
  }

  lemma OneHead(log: seq<Rec>, h: Rec)
    requires log == [h]
    ensures KeyIndex.FirstOf(log, h.key) == KeyIndex.LastOf(log, h.key) == Some(h.seqno)
    ensures KeyIndex.CountOf(log, h.key) == 1
  {
    assert log[..0] == [];
    assert KeyIndex.FirstOf([], h.key) == None && KeyIndex.CountOf([], h.key) == 0;
  }

  /** Whoever asks for all keys or for that one walks from the record to itself. */
  lemma MeetsIt(w: Store.Log, img: seq<byte>, q: Want, range: Option<(nat, nat)>, complete: bool)
    requires Flat(w.segs) == [img] && |img| >= HEADER && Decode(img).seqno == 1
    requires q.all || q.key == Decode(img).key
    requires Headed(Flat(w.segs)) && IndexSays(w, q.key, 1, range, complete)
    ensures PlanRead(q, 1, 1, range, complete) == Walk(1, 1)
  {
    hide Decode, KeyIndex.FirstOf, KeyIndex.LastOf, KeyIndex.CountOf;
    assert Heads(Flat(w.segs)) == [Decode(img)];
    OneHead(Heads(Flat(w.segs)), Decode(img));
  }

  /**
   A client's connection takes a WRITE of 8160 bytes, which comes to 8216 on
   disk. No read of that key, or of all keys, ever ends, whoever asks: its send
   buffer is smaller than that, and every pass reads nothing.
   */
  lemma StuckRead(cap: nat, r: Rec, payload: seq<byte>, h: Msg.Header, q: Want, range: Option<(nat, nat)>,
                  complete: bool, ts: seq<Turn>)
    requires |payload| == r.len == RECV_CAP - Msg.HEADER && HEADER + r.len <= cap
    requires h == Msg.New(Msg.OP_WRITE, r.recordType, h.flags, r.len, r.key, r.clientSeq)
    requires q.all || q.key == r.key
    requires var w := OneLarge(cap, r, payload);
      && Headed(Flat(w.segs)) && IndexSays(w, q.key, 1, range, complete)
      && Turns(q, w, Began(PlanRead(q, 1, 1, range, complete)), SEND_CAP, ts)
    ensures Conn.LegalAt(Conn.Rules(true, RECV_CAP), true, h, payload)
    ensures var w, x := OneLarge(cap, r, payload), Began(PlanRead(q, 1, 1, range, complete));
      && Good(w) && TailClean(w) && w.gone < |w.segs| && FirstSeq(w) == 1 && w.durable == 1
      && |Entry(w, 1)| == 8216 > SEND_CAP
      && After(q, w, x, SEND_CAP, ts) == x == Reading(1, 1, true, [])
  {
    hide OneLarge, Good, TailClean, Turns, After, Entry, End, PlanRead, IndexSays, Headed, Encode, Decode;
    OneLargeIs(cap, r, payload);
    KeyOf(r.(seqno := 1), payload);
    MeetsIt(OneLarge(cap, r, payload), Encode(r.(seqno := 1), payload), q, range, complete);
    NothingMoves(q, OneLarge(cap, r, payload), Reading(1, 1, true, []), SEND_CAP, ts);
  }
}
