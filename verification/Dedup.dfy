/**
 A cluster of nodes taking writes: sessions opened and resumed, writes and
 resends, passes that flush once, replies leaving, eviction, replicas following
 whatever leader takes them, crashes, restarts and promotions. Nothing a client
 is told about its own sequence leaves a node before it is stored and flushed.
 */
module Dedup {
  import opened Wrappers
  import opened Sessions
  import opened SessionLog

  /** Draining: the pass's events. Settled: flushed. Served: everything answered. */
  datatype Phase = Draining | Settled | Served

  /**
   A client's connection: its session, the client sequence each acknowledgement
   slot waits to name, and the client sequences named in bytes not yet sent.
   `wantOut` is a send left incomplete, which the next pass's events may resume.
   */
  datatype Conn = Conn(greeted: bool, session: nat, local: Option<nat>, repl: Option<nat>, staged: seq<nat>,
                       wantOut: bool)

  const CLOSED := Conn(false, 0, None, None, [], false)

  /** What a client has been sent: its session holds this sequence. */
  datatype Told = Told(session: nat, clientSeq: nat)

  /**
   `source` is the node whose stream this one is taking, while it has one. `left`
   is what stands behind finished segments, each with its place: the number of
   records it would come after.
   */
  datatype Server = Server(log: seq<Sent>, first: nat, durable: nat, table: seq<Sess>, conns: seq<Conn>,
                           follower: bool, source: Option<nat>, dirty: bool, phase: Phase, sent: seq<Told>,
                           left: set<(nat, Sent)>)

  datatype Answer = Wait | Confirmed | Refused

  datatype Event =
    | Hello(i: nat, id: nat, draws: seq<nat>)
    | Write(i: nat, clientSeq: nat, ackReq: bool, replicated: bool, refused: bool, fails: bool,
            rolls: Option<seq<Sent>>)
    | Attach(to: nat)
    | Detach
    | Take(r: Sent, rolls: Option<seq<Sent>>)
    | Flush
    | Emit(i: nat, answer: Answer)
    | Serve
    | Arm(i: nat, n: nat)
    | Resume(i: nat, n: nat)
    | Close(i: nat)
    | Begin
    | Forget(upTo: nat)
    | Restart(kept: nat, extra: seq<Sent>, from: nat, follower: bool)

  function Max(a: Option<nat>, b: nat): Option<nat> {
    if a.Some? && a.value > b then a else Some(b)
  }

  function Owed(c: Conn, replicated: bool, clientSeq: nat): Conn {
    if replicated then c.(repl := Max(c.repl, clientSeq)) else c.(local := Max(c.local, clientSeq))
  }

  /** The opening frame: a new session, a resumed one, or a refusal. */
  function Greeted(s: Server, i: nat, id: nat, draws: seq<nat>): Server
    requires i < |s.conns| && |draws| == DRAWS
  {
    var c := s.conns[i].(greeted := true);
    if id == 0 then
      var d := Drawn(s.table, draws, DRAWS);
      if d.None? then s.(conns := s.conns[i := c])
      else s.(table := Opened(s.table, d.value),
              conns := s.conns[i := c.(session := d.value, staged := c.staged + [0])])
    else
      var k := Find(s.table, id);
      if k == |s.table| then s.(conns := s.conns[i := c])
      else s.(conns := s.conns[i := c.(session := id, staged := c.staged + [s.table[k].mark])])
  }

  /** Records behind a segment that ends after k of them, each with its place. */
  function LeftBehind(k: nat, leaves: seq<Sent>): set<(nat, Sent)> {
    set i | 0 <= i < |leaves| :: (k + i, leaves[i])
  }

  /** A rollover, if there is one: all is flushed, and what is behind the segment stays there. */
  function Rolled(s: Server, rolls: Option<seq<Sent>>): Server {
    if rolls.Some? then s.(durable := |s.log|, left := s.left + LeftBehind(|s.log|, rolls.value)) else s
  }

  /** A write: refused, answered as a resend, or appended. */
  function Written(s: Server, i: nat, clientSeq: nat, ackReq: bool, replicated: bool, refused: bool, fails: bool,
                   rolls: Option<seq<Sent>>): Server
    requires i < |s.conns|
  {
    var c := s.conns[i];
    var k := Find(s.table, c.session);
    if c.session == 0 || k == |s.table| || s.follower || refused then s
    else if clientSeq <= s.table[k].mark then
      if ackReq then s.(conns := s.conns[i := Owed(c, replicated, s.table[k].mark)]) else s
    else
      var t := Rolled(s, rolls);
      if fails then t
      else t.(log := s.log + [Sent(c.session, clientSeq)], dirty := true, table := Raised(s.table, k, clientSeq),
              conns := if ackReq then s.conns[i := Owed(c, replicated, clientSeq)] else s.conns)
  }

  /** A replica takes the next record of the stream. */
  function Taken(s: Server, r: Sent, rolls: Option<seq<Sent>>): Server {
    Rolled(s, rolls).(log := s.log + [r], dirty := true, table := Observed(s.table, r.session, r.clientSeq))
  }

  function Emitted(c: Conn, answer: Answer): Conn {
    var staged := c.staged + if c.local.Some? then [c.local.value] else [];
    c.(staged := staged + if c.repl.Some? && answer == Confirmed then [c.repl.value] else [],
       local := None, repl := if answer == Wait then c.repl else None)
  }

  /** n of the staged replies go out whole. */
  function Sending(s: Server, i: nat, n: nat): Server
    requires i < |s.conns| && n <= |s.conns[i].staged|
  {
    var c := s.conns[i];
    s.(sent := s.sent + seq(n, j requires 0 <= j < n => Told(c.session, c.staged[j])),
       conns := s.conns[i := c.(staged := c.staged[n..], wantOut := n < |c.staged|)])
  }

  /**
   A restart: what was flushed and whatever else survived, behind that whatever
   left-over records the scan takes for the next ones, and the table from the
   records there are. Segments whose unlinking was undone are held again.
   */
  function Restarted(s: Server, kept: nat, extra: seq<Sent>, from: nat, follower: bool): Server
    requires from <= kept <= |s.log|
  {
    var log := s.log[..kept] + extra;
    s.(log := log, first := from, durable := |log|, table := Fold(log[from..]),
       conns := seq(|s.conns|, _ => CLOSED), follower := follower, source := None, dirty := false,
       phase := Served)
  }

  predicate Enabled(nodes: seq<Server>, n: nat, e: Event)
  {
    n < |nodes| && var s := nodes[n];
    match e
    case Hello(i, id, draws) =>
      && s.phase == Draining && i < |s.conns| && !s.conns[i].greeted && |draws| == DRAWS
      && (id == 0 && Drawn(s.table, draws, DRAWS).Some? ==> Unused(s.log, Drawn(s.table, draws, DRAWS).value))
    case Write(i, _, _, _, _, _, _) => s.phase == Draining && i < |s.conns| && s.conns[i].greeted
    case Attach(m) =>
      && s.follower && m < |nodes| && m != n && !nodes[m].follower
      && nodes[m].first <= |s.log| <= |nodes[m].log|
    case Detach => true
    case Take(r, _) =>
      && s.phase == Draining && s.source.Some? && s.source.value < |nodes|
      && var m := nodes[s.source.value];
         |s.log| < m.durable <= |m.log| && (r == m.log[|s.log|] || (|s.log|, r) in m.left)
    case Flush => s.phase == Draining
    case Emit(i, _) => s.phase == Settled && i < |s.conns|
    case Serve => s.phase == Settled
    case Arm(i, k) => s.phase == Served && i < |s.conns| && s.conns[i].greeted && k <= |s.conns[i].staged|
    case Resume(i, k) => s.phase == Draining && i < |s.conns| && s.conns[i].wantOut && k <= |s.conns[i].staged|
    case Close(i) => s.phase == Served && i < |s.conns|
    case Begin => s.phase == Served
    case Forget(k) => s.phase == Served && s.first <= k <= s.durable
    case Restart(k, _, from, _) => s.durable <= k <= |s.log| && from <= s.first <= k
  }

  /** No record of this session has ever been in the log. */
  predicate Unused(log: seq<Sent>, id: nat) {
    forall i :: 0 <= i < |log| ==> log[i].session != id
  }

  function Step(nodes: seq<Server>, n: nat, e: Event): Server
    requires Enabled(nodes, n, e)
  {
    var s := nodes[n];
    match e
    case Hello(i, id, draws) => Greeted(s, i, id, draws)
    case Write(i, cs, ackReq, replicated, refused, fails, rolls) =>
      Written(s, i, cs, ackReq, replicated, refused, fails, rolls)
    case Attach(m) => s.(source := Some(m))
    case Detach => s.(source := None)
    case Take(r, rolls) => Taken(s, r, rolls)
    case Flush => s.(durable := if s.dirty then |s.log| else s.durable, phase := Settled)
    case Emit(i, a) => s.(conns := s.conns[i := Emitted(s.conns[i], a)])
    case Serve => s.(phase := Served)
    case Arm(i, k) => Sending(s, i, k)
    case Resume(i, k) => Sending(s, i, k)
    case Close(i) => s.(conns := s.conns[i := CLOSED])
    case Begin => s.(phase := Draining, dirty := false)
    case Forget(k) => s.(first := k)
    case Restart(k, extra, from, f) => Restarted(s, k, extra, from, f)
  }

  // ---- what every step keeps ----

  /** The session has stored this sequence among these records; 0 is none yet. */
  predicate Stored(log: seq<Sent>, session: nat, clientSeq: nat) {
    clientSeq == 0 || Sent(session, clientSeq) in log
  }

  /** Every mark in the table is a sequence the session has stored. */
  ghost predicate Marked(t: seq<Sess>, log: seq<Sent>) {
    forall k :: 0 <= k < |t| ==> t[k].id != 0 && Stored(log, t[k].id, t[k].mark)
  }

  ghost predicate ConnOk(c: Conn, log: seq<Sent>, durable: nat, quiet: bool)
    requires durable <= |log|
  {
    && (!c.greeted ==> c == CLOSED)
    && (c.local.Some? ==> Stored(log, c.session, c.local.value))
    && (c.repl.Some? ==> Stored(log, c.session, c.repl.value))
    && (forall j :: 0 <= j < |c.staged| ==> Stored(log, c.session, c.staged[j]))
    && (quiet || c.wantOut ==> forall j :: 0 <= j < |c.staged| ==> Stored(log[..durable], c.session, c.staged[j]))
  }

  ghost predicate Ok(s: Server) {
    && s.first <= s.durable <= |s.log|
    && Marked(s.table, s.log)
    && (s.phase != Draining || !s.dirty ==> s.durable == |s.log|)
    && (forall j :: 0 <= j < |s.sent| ==> Stored(s.log[..s.durable], s.sent[j].session, s.sent[j].clientSeq))
    && (forall i :: 0 <= i < |s.conns| ==> ConnOk(s.conns[i], s.log, s.durable, s.phase != Draining))
  }

  // ---- the table and the log ----

  lemma MarkedOpened(t: seq<Sess>, log: seq<Sent>, id: nat)
    requires Marked(t, log) && id != 0
    ensures Marked(Opened(t, id), log)
  {}

  lemma MarkedMore(t: seq<Sess>, log: seq<Sent>, more: seq<Sent>)
    requires Marked(t, log) && log <= more
    ensures Marked(t, more)
  {
    hide Stored;
    forall k | 0 <= k < |t|
      ensures Stored(more, t[k].id, t[k].mark)
    {
      StoredMore(log, more, t[k].id, t[k].mark);
    }
  }

  lemma MarkedRaised(t: seq<Sess>, log: seq<Sent>, k: nat, clientSeq: nat)
    requires Marked(t, log) && k < |t| && Stored(log, t[k].id, clientSeq)
    ensures Marked(Raised(t, k, clientSeq), log)
  {
    hide Stored;
  }

  lemma MarkedPush(t: seq<Sess>, log: seq<Sent>, x: Sess)
    requires Marked(t, log) && x.id != 0 && Stored(log, x.id, x.mark)
    ensures Marked(t + [x], log)
  {
    hide Stored;
  }

  lemma MarkedEvict(t: seq<Sess>, log: seq<Sent>)
    requires Marked(t, log)
    ensures Marked(Evict(t), log)
  {
    hide Stored;
  }

  lemma MarkedObserved(t: seq<Sess>, log: seq<Sent>, r: Sent)
    requires Marked(t, log) && Stored(log, r.session, r.clientSeq)
    ensures Marked(Observed(t, r.session, r.clientSeq), log)
  {
    hide Stored, Marked, Evict, Drop;
    var k := Find(t, r.session);
    if r.session != 0 && k < |t| {
      MarkOf(t, log, k);
      MarkedRaised(t, log, k, if r.clientSeq > t[k].mark then r.clientSeq else t[k].mark);
    } else if r.session != 0 {
      MarkedEvict(t, log);
      MarkedPush(Evict(t), log, Sess(r.session, r.clientSeq));
    }
  }

  lemma {:induction false} MarkedFold(log: seq<Sent>)
    ensures Marked(Fold(log), log)
  {
    hide Marked, Observed, Stored;
    if log == [] {
      NoMarks(Fold(log), log);
    } else {
      var init, r := log[..|log| - 1], log[|log| - 1];
      MarkedFold(init);
      JustStored(init, r);
      assert init + [r] == log;
      MarkedMore(Fold(init), init, log);
      MarkedObserved(Fold(init), log, r);
    }
  }

  lemma NoMarks(t: seq<Sess>, log: seq<Sent>)
    requires t == []
    ensures Marked(t, log)
  {}

  lemma MarkedPart(t: seq<Sess>, log: seq<Sent>, first: nat)
    requires first <= |log| && Marked(t, log[first..])
    ensures Marked(t, log)
  {
    forall k | 0 <= k < |t|
      ensures Stored(log, t[k].id, t[k].mark)
    {
      assert Stored(log[first..], t[k].id, t[k].mark);
      if t[k].mark != 0 {
        var i :| 0 <= i < |log[first..]| && log[first..][i] == Sent(t[k].id, t[k].mark);
        assert log[first + i] == Sent(t[k].id, t[k].mark);
      }
    }
  }

  // ---- each step ----

  /** Replies leave in the order they were staged, each once, in the session of their connection. */
  lemma SendingMoves(s: Server, i: nat, n: nat)
    requires i < |s.conns| && n <= |s.conns[i].staged|
    ensures var t, c := Sending(s, i, n), s.conns[i];
      && |t.sent| == |s.sent| + n && s.sent <= t.sent && |t.conns| == |s.conns|
      && (forall j :: |s.sent| <= j < |t.sent| ==> t.sent[j].session == c.session)
      && seq(n, j requires 0 <= j < n => t.sent[|s.sent| + j].clientSeq) + t.conns[i].staged == c.staged
      && (t.conns[i].wantOut <==> t.conns[i].staged != [])
      && t == s.(sent := t.sent, conns := s.conns[i := c.(staged := t.conns[i].staged, wantOut := t.conns[i].wantOut)])
  {}

  lemma StoredMore(log: seq<Sent>, more: seq<Sent>, session: nat, clientSeq: nat)
    requires log <= more && Stored(log, session, clientSeq)
    ensures Stored(more, session, clientSeq)
  {
    if clientSeq != 0 {
      var i :| 0 <= i < |log| && log[i] == Sent(session, clientSeq);
      assert more[i] == log[i];
    }
  }

  lemma ConnMore(c: Conn, log: seq<Sent>, durable: nat, more: seq<Sent>, d: nat, quiet: bool)
    requires durable <= |log| && durable <= d <= |more| && log <= more && ConnOk(c, log, durable, quiet)
    ensures ConnOk(c, more, d, quiet)
  {
    hide Stored;
    assert log[..durable] <= more[..d];
    if c.local.Some? { StoredMore(log, more, c.session, c.local.value); }
    if c.repl.Some? { StoredMore(log, more, c.session, c.repl.value); }
    forall j | 0 <= j < |c.staged|
      ensures Stored(more, c.session, c.staged[j])
      ensures quiet || c.wantOut ==> Stored(more[..d], c.session, c.staged[j])
    {
      StoredMore(log, more, c.session, c.staged[j]);
      if quiet || c.wantOut { StoredMore(log[..durable], more[..d], c.session, c.staged[j]); }
    }
  }

  /** More log, more of it flushed, in the same phase: what was true of replies stays true. */
  lemma LogMore(s: Server, t: Server)
    requires Ok(s) && t.sent == s.sent && t.conns == s.conns && t.phase == s.phase
    requires s.log <= t.log && s.durable <= t.durable <= |t.log|
    requires t.first <= t.durable && Marked(t.table, t.log)
    requires t.phase != Draining || !t.dirty ==> t.durable == |t.log|
    ensures Ok(t)
  {
    hide Stored, Marked, ConnOk;
    assert s.log[..s.durable] <= t.log[..t.durable];
    forall j | 0 <= j < |t.sent|
      ensures Stored(t.log[..t.durable], t.sent[j].session, t.sent[j].clientSeq)
    {
      StoredMore(s.log[..s.durable], t.log[..t.durable], s.sent[j].session, s.sent[j].clientSeq);
    }
    forall i | 0 <= i < |t.conns|
      ensures ConnOk(t.conns[i], t.log, t.durable, t.phase != Draining)
    {
      ConnMore(s.conns[i], s.log, s.durable, t.log, t.durable, s.phase != Draining);
    }
  }

  /** One connection changed for another that is as sound. */
  lemma ConnPut(s: Server, i: nat, c: Conn)
    requires Ok(s) && i < |s.conns| && ConnOk(c, s.log, s.durable, s.phase != Draining)
    ensures Ok(s.(conns := s.conns[i := c]))
  {
    hide ConnOk, Marked, Stored;
  }

  lemma MarkOf(t: seq<Sess>, log: seq<Sent>, k: nat)
    requires Marked(t, log) && k < |t|
    ensures Stored(log, t[k].id, t[k].mark)
  {}

  lemma OwedOk(c: Conn, log: seq<Sent>, durable: nat, replicated: bool, clientSeq: nat)
    requires durable <= |log| && ConnOk(c, log, durable, false) && c.greeted && Stored(log, c.session, clientSeq)
    ensures ConnOk(Owed(c, replicated, clientSeq), log, durable, false)
  {
    hide Stored;
  }

  lemma WriteOk(s: Server, e: Event)
    requires Ok(s) && e.Write? && s.phase == Draining && e.i < |s.conns| && s.conns[e.i].greeted
    ensures Ok(Written(s, e.i, e.clientSeq, e.ackReq, e.replicated, e.refused, e.fails, e.rolls))
  {
    hide Stored, Marked, ConnOk, Raised, Owed;
    var c, k := s.conns[e.i], Find(s.table, s.conns[e.i].session);
    var u := Rolled(s, e.rolls);
    if c.session == 0 || k == |s.table| || s.follower || e.refused {
    } else if e.clientSeq <= s.table[k].mark {
      MarkOf(s.table, s.log, k);
      OwedOk(c, s.log, s.durable, e.replicated, s.table[k].mark);
      ConnPut(s, e.i, Owed(c, e.replicated, s.table[k].mark));
    } else if e.fails {
      LogMore(s, u);
    } else {
      var r := Sent(c.session, e.clientSeq);
      JustStored(s.log, r);
      MarkedMore(s.table, s.log, s.log + [r]);
      MarkedRaised(s.table, s.log + [r], k, e.clientSeq);
      var t := u.(log := s.log + [r], dirty := true, table := Raised(s.table, k, e.clientSeq));
      LogMore(s, t);
      OwedOk(c, t.log, t.durable, e.replicated, e.clientSeq);
      ConnPut(t, e.i, Owed(c, e.replicated, e.clientSeq));
    }
  }

  lemma JustStored(log: seq<Sent>, r: Sent)
    ensures Stored(log + [r], r.session, r.clientSeq)
  {
    assert (log + [r])[|log|] == r;
  }

  lemma HelloOk(s: Server, i: nat, id: nat, draws: seq<nat>)
    requires Ok(s) && s.phase == Draining && i < |s.conns| && !s.conns[i].greeted && |draws| == DRAWS
    ensures Ok(Greeted(s, i, id, draws))
  {
    hide Marked, Opened, Drawn;
    assert ConnOk(s.conns[i], s.log, s.durable, false);
    var c := CLOSED.(greeted := true);
    DrawnIs(s.table, draws, DRAWS);
    var d, k := Drawn(s.table, draws, DRAWS), Find(s.table, id);
    if id == 0 && d.Some? {
      MarkedOpened(s.table, s.log, d.value);
      ConnPut(s, i, c.(session := d.value, staged := [0]));
    } else if id != 0 && k < |s.table| {
      MarkOf(s.table, s.log, k);
      ConnPut(s, i, c.(session := id, staged := [s.table[k].mark]));
    } else {
      ConnPut(s, i, c);
    }
    assert [] + [0] == [0];
    if k < |s.table| { assert [] + [s.table[k].mark] == [s.table[k].mark]; }
  }

  lemma TakeOk(s: Server, r: Sent, rolls: Option<seq<Sent>>)
    requires Ok(s) && s.phase == Draining
    ensures Ok(Taken(s, r, rolls))
  {
    hide Stored, Marked, ConnOk;
    JustStored(s.log, r);
    MarkedMore(s.table, s.log, s.log + [r]);
    MarkedObserved(s.table, s.log + [r], r);
    LogMore(s, Taken(s, r, rolls));
  }

  lemma FlushOk(s: Server)
    requires Ok(s) && s.phase == Draining
    ensures Ok(s.(durable := if s.dirty then |s.log| else s.durable, phase := Settled))
  {
    hide Stored, Marked;
    var t := s.(durable := |s.log|);
    LogMore(s, t);
    forall i | 0 <= i < |s.conns|
      ensures ConnOk(s.conns[i], s.log, |s.log|, true)
    {
      assert ConnOk(t.conns[i], t.log, t.durable, false);
      assert s.log[..|s.log|] == s.log;
    }
  }

  lemma EmitOk(s: Server, i: nat, a: Answer)
    requires Ok(s) && s.phase == Settled && i < |s.conns|
    ensures Ok(s.(conns := s.conns[i := Emitted(s.conns[i], a)]))
  {
    hide Stored, Marked;
    assert ConnOk(s.conns[i], s.log, s.durable, true);
    assert s.log[..s.durable] == s.log;
    ConnPut(s, i, Emitted(s.conns[i], a));
  }

  lemma SendOk(s: Server, i: nat, n: nat)
    requires Ok(s) && i < |s.conns| && s.conns[i].greeted && n <= |s.conns[i].staged|
    requires s.phase != Draining || s.conns[i].wantOut
    ensures Ok(Sending(s, i, n))
  {
    hide Stored, Marked;
    var c := s.conns[i];
    assert ConnOk(c, s.log, s.durable, s.phase != Draining);
    ConnPut(s, i, c.(staged := c.staged[n..], wantOut := n < |c.staged|));
    var t := Sending(s, i, n);
    forall j | 0 <= j < |t.sent|
      ensures Stored(t.log[..t.durable], t.sent[j].session, t.sent[j].clientSeq)
    {
      if j >= |s.sent| { assert t.sent[j] == Told(c.session, c.staged[j - |s.sent|]); }
    }
  }

  lemma RestartOk(s: Server, kept: nat, extra: seq<Sent>, from: nat, follower: bool)
    requires Ok(s) && s.durable <= kept <= |s.log| && from <= s.first
    ensures Ok(Restarted(s, kept, extra, from, follower))
  {
    hide Stored, Marked, Fold, ConnOk;
    var t := Restarted(s, kept, extra, from, follower);
    MarkedFold(t.log[from..]);
    MarkedPart(t.table, t.log, from);
    assert t.log[..|t.log|] == t.log && s.log[..s.durable] <= t.log;
    forall j | 0 <= j < |t.sent|
      ensures Stored(t.log[..t.durable], t.sent[j].session, t.sent[j].clientSeq)
    {
      StoredMore(s.log[..s.durable], t.log, s.sent[j].session, s.sent[j].clientSeq);
    }
    assert forall i :: 0 <= i < |t.conns| ==> t.conns[i] == CLOSED;
    ClosedOk(t.log, t.durable);
  }

  lemma ClosedOk(log: seq<Sent>, durable: nat)
    requires durable <= |log|
    ensures forall quiet :: ConnOk(CLOSED, log, durable, quiet)
  {}

  lemma QuietOk(s: Server, e: Event)
    requires Ok(s) && s.phase != Draining
    ensures Ok(s.(phase := Served))
    ensures Ok(s.(phase := Draining, dirty := false))
    ensures e.Close? && e.i < |s.conns| ==> Ok(s.(conns := s.conns[e.i := CLOSED]))
    ensures e.Forget? && e.upTo <= s.durable ==> Ok(s.(first := e.upTo))
  {
    hide Stored, Marked;
  }

  lemma StepOk(nodes: seq<Server>, n: nat, e: Event)
    requires n < |nodes| && Ok(nodes[n]) && Enabled(nodes, n, e)
    ensures Ok(Step(nodes, n, e))
  {
    hide Ok, Written, Greeted, Taken, Emitted, Sending, Restarted;
    var s := nodes[n];
    match e
    case Hello(i, id, draws) => HelloOk(s, i, id, draws);
    case Write(_, _, _, _, _, _, _) => WriteOk(s, e);
    case Attach(m) => SourceOk(s, Some(m));
    case Detach => SourceOk(s, None);
    case Take(r, rolls) => TakeOk(s, r, rolls);
    case Flush => FlushOk(s);
    case Emit(i, a) => EmitOk(s, i, a);
    case Serve => QuietOk(s, e);
    case Arm(i, k) => SendOk(s, i, k);
    case Resume(i, k) => Greets(s); SendOk(s, i, k);
    case Close(_) => QuietOk(s, e);
    case Begin => QuietOk(s, e);
    case Forget(_) => QuietOk(s, e);
    case Restart(k, extra, from, f) => RestartOk(s, k, extra, from, f);
  }

  lemma SourceOk(s: Server, source: Option<nat>)
    requires Ok(s)
    ensures Ok(s.(source := source))
  {
    hide Stored, Marked, ConnOk;
  }

  lemma Greets(s: Server)
    requires Ok(s)
    ensures forall i :: 0 <= i < |s.conns| && s.conns[i].wantOut ==> s.conns[i].greeted
  {
    hide Marked, Stored;
    forall i | 0 <= i < |s.conns| && s.conns[i].wantOut
      ensures s.conns[i].greeted
    {
      assert ConnOk(s.conns[i], s.log, s.durable, s.phase != Draining);
    }
  }

  // ---- whole runs ----

  ghost predicate RunsTo(nodes: seq<Server>, es: seq<(nat, Event)>)
    decreases |es|
  {
    es == [] || (Enabled(nodes, es[0].0, es[0].1) && RunsTo(After(nodes, es[0]), es[1..]))
  }

  function After(nodes: seq<Server>, e: (nat, Event)): seq<Server>
    requires Enabled(nodes, e.0, e.1)
  {
    nodes[e.0 := Step(nodes, e.0, e.1)]
  }

  function EndOf(nodes: seq<Server>, es: seq<(nat, Event)>): seq<Server>
    requires RunsTo(nodes, es)
    decreases |es|
  {
    if es == [] then nodes else EndOf(After(nodes, es[0]), es[1..])
  }

  ghost predicate AllOk(nodes: seq<Server>) {
    forall i :: 0 <= i < |nodes| ==> Ok(nodes[i])
  }

  lemma {:induction false} RunOk(nodes: seq<Server>, es: seq<(nat, Event)>)
    requires AllOk(nodes) && RunsTo(nodes, es)
    ensures AllOk(EndOf(nodes, es))
    decreases |es|
  {
    hide Ok, Enabled, Step;
    if es != [] {
      AfterOk(nodes, es[0]);
      RunOk(After(nodes, es[0]), es[1..]);
    }
  }

  lemma AfterOk(nodes: seq<Server>, e: (nat, Event))
    requires AllOk(nodes) && Enabled(nodes, e.0, e.1)
    ensures AllOk(After(nodes, e))
  {
    hide Ok, Step;
    StepOk(nodes, e.0, e.1);
  }

  /** Nothing stored, nobody connected. */
  predicate Fresh(nodes: seq<Server>) {
    forall n :: 0 <= n < |nodes| ==>
      && nodes[n].log == [] && nodes[n].first == nodes[n].durable == 0 && nodes[n].table == []
      && nodes[n].source.None? && !nodes[n].dirty && nodes[n].sent == [] && nodes[n].left == {}
      && forall i :: 0 <= i < |nodes[n].conns| ==> nodes[n].conns[i] == CLOSED
  }

  lemma FreshOk(nodes: seq<Server>)
    requires Fresh(nodes)
    ensures AllOk(nodes)
  {
    forall n | 0 <= n < |nodes|
      ensures Ok(nodes[n])
    {
      ClosedOk(nodes[n].log, 0);
    }
  }

  /**
   Whatever a client has been sent about its own sequence, by an
   acknowledgement or in answer to its opening frame, is stored and flushed on
   the node that said so, then and ever after, whatever that node has followed.
   */
  lemma ToldIsStored(nodes: seq<Server>, es: seq<(nat, Event)>, n: nat, t: Told)
    requires Fresh(nodes) && RunsTo(nodes, es) && n < |EndOf(nodes, es)| && t in EndOf(nodes, es)[n].sent
    ensures var s := EndOf(nodes, es)[n];
      s.durable <= |s.log| && (t.clientSeq > 0 ==> Sent(t.session, t.clientSeq) in s.log[..s.durable])
  {
    FreshOk(nodes);
    RunOk(nodes, es);
    hide EndOf, RunsTo, Marked, ConnOk;
    var s := EndOf(nodes, es)[n];
    assert Ok(s);
    var j :| 0 <= j < |s.sent| && s.sent[j] == t;
  }
}
