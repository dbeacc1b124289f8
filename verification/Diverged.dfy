/**
 A run in which a write is stored twice: a leader stops with a flushed write
 its replica never got, the promoted replica stores something else and then the
 client's resend, and the old leader comes back to follow from where its own
 log ends.
 */
module Diverged {
  import opened Wrappers
  import opened Sessions
  import opened SessionLog
  import opened Dedup
  import opened Following

  /** es leads from a to b. */
  ghost predicate Reaches(a: seq<Server>, es: seq<(nat, Event)>, b: seq<Server>) {
    RunsTo(a, es) && EndOf(a, es) == b
  }

  lemma Stays(a: seq<Server>, es: seq<(nat, Event)>)
    requires es == []
    ensures Reaches(a, es, a)
  {}

  lemma {:induction false} OneMore(a: seq<Server>, es: seq<(nat, Event)>, b: seq<Server>, e: (nat, Event))
    requires Reaches(a, es, b) && Enabled(b, e.0, e.1)
    ensures Reaches(a, es + [e], After(b, e))
    decreases |es|
  {
    hide Enabled, After;
    if es == [] {
      assert es + [e] == [e] && [e][1..] == [];
      Stays(After(b, e), [e][1..]);
    } else {
      OneMore(After(a, es[0]), es[1..], b, e);
      assert (es + [e])[1..] == es[1..] + [e];
    }
  }

  const FIRST := Sent(7, 1)
  const SECOND := Sent(7, 2)
  const OTHER := Sent(9, 1)

  function Draws(id: nat): (d: seq<nat>)
    ensures |d| == DRAWS
  {
    seq(DRAWS, _ => id)
  }

  /** A write that asks for no answer and that the log takes. */
  function Plain(i: nat, clientSeq: nat): Event {
    Write(i, clientSeq, false, false, false, false, None)
  }

  function Client(session: nat, told: nat): Conn {
    Conn(true, session, None, None, [told], false)
  }

  /** A leader and a replica, nothing stored. */
  function Start(): seq<Server> {
    [Server([], 0, 0, [], [CLOSED], false, None, false, Draining, [], {}),
     Server([], 0, 0, [], [CLOSED, CLOSED], true, None, false, Served, [], {})]
  }

  /** The leader has one write of session 7 flushed. */
  function Written1(): seq<Server> {
    Start()[0 := Server([FIRST], 0, 1, [Sess(7, 1)], [Client(7, 0)], false, None, true, Settled, [], {})]
  }

  /** The replica has it too. */
  function Copied(): seq<Server> {
    Written1()[1 := Server([FIRST], 0, 1, [Sess(7, 1)], [CLOSED, CLOSED], true, Some(0), true, Settled, [], {})]
  }

  /** The leader has flushed a second write that goes no further. */
  function Written2(): seq<Server> {
    Copied()[0 := Server([FIRST, SECOND], 0, 2, [Sess(7, 2)], [Client(7, 0)], false, None, true, Settled, [], {})]
  }

  /** The replica, promoted, has taken another session's write and then the resend. */
  function Promoted(): seq<Server> {
    Written2()[1 := Server([FIRST, OTHER, SECOND], 0, 3, [Sess(9, 1), Sess(7, 2)], [Client(9, 0), Client(7, 1)],
                           false, None, true, Settled, [], {})]
  }

  function DivergedRun(): seq<(nat, Event)> {
    [(0, Hello(0, 0, Draws(7))), (0, Plain(0, 1)), (0, Flush),
     (1, Attach(0)), (1, Begin), (1, Take(FIRST, None)), (1, Flush),
     (0, Serve), (0, Begin), (0, Plain(0, 2)), (0, Flush),
     (1, Restart(1, [], 0, false)), (1, Begin), (1, Hello(0, 0, Draws(9))), (1, Plain(0, 1)),
     (1, Hello(1, 7, Draws(9))), (1, Plain(1, 2)), (1, Flush),
     (0, Restart(2, [], 0, true)), (0, Attach(1)), (0, Begin), (0, Take(SECOND, None))]
  }

  lemma DrawsIs(t: seq<Sess>, id: nat)
    requires id != 0 && Find(t, id) == |t|
    ensures Drawn(t, Draws(id), DRAWS) == Some(id)
  {
    assert Drawn(t, Draws(id), 0) == None;
    assert Drawn(t, Draws(id), 1) == Some(id);
    DrawnStays(t, Draws(id), 1, DRAWS);
  }

  // What single steps come to, on one node.

  lemma Opens(s: Server, i: nat, id: nat)
    requires i < |s.conns| && s.conns[i] == CLOSED && id != 0 && Find(s.table, id) == |s.table| < SESSION_MAX
    ensures Greeted(s, i, 0, Draws(id))
         == s.(table := s.table + [Sess(id, 0)], conns := s.conns[i := Client(id, 0)])
  {
    DrawsIs(s.table, id);
    assert CLOSED.staged + [0] == [0];
  }

  lemma ResumesSession(s: Server, i: nat, id: nat, k: nat)
    requires i < |s.conns| && s.conns[i] == CLOSED && id != 0 && k < |s.table| && Find(s.table, id) == k
    ensures Greeted(s, i, id, Draws(9)) == s.(conns := s.conns[i := Client(id, s.table[k].mark)])
  {
    assert CLOSED.staged + [s.table[k].mark] == [s.table[k].mark];
  }

  lemma Appends(s: Server, i: nat, clientSeq: nat, k: nat)
    requires i < |s.conns| && s.conns[i].session != 0 && !s.follower
    requires k < |s.table| && Find(s.table, s.conns[i].session) == k && s.table[k].mark < clientSeq
    ensures Written(s, i, clientSeq, false, false, false, false, None)
         == s.(log := s.log + [Sent(s.conns[i].session, clientSeq)], dirty := true,
               table := Raised(s.table, k, clientSeq))
  {}

  lemma RaisedIs(t: seq<Sess>, k: nat, clientSeq: nat)
    requires k < |t|
    ensures t == [Sess(7, t[0].mark)] ==> Raised(t, k, clientSeq) == [Sess(7, clientSeq)]
    ensures |t| == 2 && k == 1 ==> Raised(t, k, clientSeq) == [t[0], Sess(t[1].id, clientSeq)]
    ensures |t| == 2 && k == 0 ==> Raised(t, k, clientSeq) == [t[1], Sess(t[0].id, clientSeq)]
  {}

  /** One event of the run, and where it leads. */
  lemma Leads(es: seq<(nat, Event)>, b: seq<Server>, e: (nat, Event), c: seq<Server>) returns (more: seq<(nat, Event)>)
    requires Reaches(Start(), es, b) && Enabled(b, e.0, e.1) && After(b, e) == c
    ensures more == es + [e] && Reaches(Start(), more, c)
  {
    OneMore(Start(), es, b, e);
    more := es + [e];
  }

  lemma ToWritten1() returns (es: seq<(nat, Event)>)
    ensures es == DivergedRun()[..3] && Reaches(Start(), es, Written1())
  {
    hide Reaches, Greeted, Written, Drawn, Raised, Draws, Owed, Taken, Sending, Restarted, Emitted, Fold, Observed;
    var a := Start();
    Stays(a, []);
    Opens(a[0], 0, 7);
    UnusedIn([], 7);
    assert a[0].table + [Sess(7, 0)] == [Sess(7, 0)] && a[0].conns[0 := Client(7, 0)] == [Client(7, 0)];
    var b := a[0 := a[0].(table := [Sess(7, 0)], conns := [Client(7, 0)])];
    es := Leads([], a, (0, Hello(0, 0, Draws(7))), b);
    Appends(b[0], 0, 1, 0);
    RaisedIs(b[0].table, 0, 1);
    assert b[0].log + [FIRST] == [FIRST];
    var c := b[0 := b[0].(log := [FIRST], dirty := true, table := [Sess(7, 1)])];
    es := Leads(es, b, (0, Plain(0, 1)), c);
    es := Leads(es, c, (0, Flush), Written1());
  }

  lemma FoldFirst()
    ensures Fold([FIRST]) == [Sess(7, 1)] && Observed([], 7, 1) == [Sess(7, 1)]
  {
    assert [FIRST][..0] == [];
    assert Fold([]) == [];
    assert Evict([]) + [Sess(7, 1)] == [Sess(7, 1)];
  }

  lemma ToCopied(before: seq<(nat, Event)>) returns (es: seq<(nat, Event)>)
    requires Reaches(Start(), before, Written1())
    ensures es == before + [(1, Attach(0)), (1, Begin), (1, Take(FIRST, None)), (1, Flush)]
    ensures Reaches(Start(), es, Copied())
  {
    hide Reaches, Observed;
    FoldFirst();
    var a := Written1();
    var b := a[1 := a[1].(source := Some(0))];
    es := Leads(before, a, (1, Attach(0)), b);
    var c := b[1 := b[1].(phase := Draining)];
    es := Leads(es, b, (1, Begin), c);
    assert c[1].log + [FIRST] == [FIRST];
    var d := c[1 := c[1].(log := [FIRST], dirty := true, table := [Sess(7, 1)])];
    es := Leads(es, c, (1, Take(FIRST, None)), d);
    es := Leads(es, d, (1, Flush), Copied());
    assert before + [(1, Attach(0))] + [(1, Begin)] + [(1, Take(FIRST, None))] + [(1, Flush)]
        == before + [(1, Attach(0)), (1, Begin), (1, Take(FIRST, None)), (1, Flush)];
  }

  lemma ToWritten2(before: seq<(nat, Event)>) returns (es: seq<(nat, Event)>)
    requires Reaches(Start(), before, Copied())
    ensures es == before + [(0, Serve), (0, Begin), (0, Plain(0, 2)), (0, Flush)] && Reaches(Start(), es, Written2())
  {
    hide Reaches, Written, Raised;
    var a := Copied();
    var b := a[0 := a[0].(phase := Served)];
    es := Leads(before, a, (0, Serve), b);
    var c := b[0 := b[0].(phase := Draining, dirty := false)];
    es := Leads(es, b, (0, Begin), c);
    Appends(c[0], 0, 2, 0);
    RaisedIs(c[0].table, 0, 2);
    assert c[0].log + [SECOND] == [FIRST, SECOND];
    var d := c[0 := c[0].(log := [FIRST, SECOND], dirty := true, table := [Sess(7, 2)])];
    es := Leads(es, c, (0, Plain(0, 2)), d);
    es := Leads(es, d, (0, Flush), Written2());
    assert before + [(0, Serve)] + [(0, Begin)] + [(0, Plain(0, 2))] + [(0, Flush)]
        == before + [(0, Serve), (0, Begin), (0, Plain(0, 2)), (0, Flush)];
  }

  /** The replica as a leader of its own, one session opened and one resumed. */
  function Leading(): seq<Server> {
    Written2()[1 := Server([FIRST], 0, 1, [Sess(7, 1)], [CLOSED, CLOSED], false, None, false, Draining, [], {})]
  }

  lemma ToLeading(before: seq<(nat, Event)>) returns (es: seq<(nat, Event)>)
    requires Reaches(Start(), before, Written2())
    ensures es == before + [(1, Restart(1, [], 0, false)), (1, Begin)] && Reaches(Start(), es, Leading())
  {
    hide Reaches, Fold;
    FoldFirst();
    var a := Written2();
    assert a[1].log[..1] + [] == [FIRST] && [FIRST][0..] == [FIRST];
    assert seq(2, _ => CLOSED) == [CLOSED, CLOSED];
    var b := Leading()[1 := Leading()[1].(phase := Served)];
    es := Leads(before, a, (1, Restart(1, [], 0, false)), b);
    es := Leads(es, b, (1, Begin), Leading());
    assert before + [(1, Restart(1, [], 0, false))] + [(1, Begin)]
        == before + [(1, Restart(1, [], 0, false)), (1, Begin)];
  }

  /** Another session has written. */
  function Ahead(): seq<Server> {
    Leading()[1 := Server([FIRST, OTHER], 0, 1, [Sess(7, 1), Sess(9, 1)], [Client(9, 0), CLOSED], false, None, true,
                          Draining, [], {})]
  }

  lemma ToAhead(before: seq<(nat, Event)>) returns (es: seq<(nat, Event)>)
    requires Reaches(Start(), before, Leading())
    ensures es == before + [(1, Hello(0, 0, Draws(9))), (1, Plain(0, 1))] && Reaches(Start(), es, Ahead())
  {
    hide Reaches, Greeted, Written, Drawn, Raised;
    var a := Leading();
    Opens(a[1], 0, 9);
    DrawsIs(a[1].table, 9);
    UnusedIn([FIRST], 9);
    assert a[1].table + [Sess(9, 0)] == [Sess(7, 1), Sess(9, 0)];
    assert a[1].conns[0 := Client(9, 0)] == [Client(9, 0), CLOSED];
    var b := a[1 := a[1].(table := [Sess(7, 1), Sess(9, 0)], conns := [Client(9, 0), CLOSED])];
    es := Leads(before, a, (1, Hello(0, 0, Draws(9))), b);
    Appends(b[1], 0, 1, 1);
    RaisedIs(b[1].table, 1, 1);
    assert b[1].log + [OTHER] == [FIRST, OTHER];
    es := Leads(es, b, (1, Plain(0, 1)), Ahead());
    assert before + [(1, Hello(0, 0, Draws(9)))] + [(1, Plain(0, 1))]
        == before + [(1, Hello(0, 0, Draws(9))), (1, Plain(0, 1))];
  }

  lemma ToPromoted(before: seq<(nat, Event)>) returns (es: seq<(nat, Event)>)
    requires Reaches(Start(), before, Ahead())
    ensures es == before + [(1, Hello(1, 7, Draws(9))), (1, Plain(1, 2)), (1, Flush)]
    ensures Reaches(Start(), es, Promoted())
  {
    hide Reaches, Greeted, Written, Raised;
    var a := Ahead();
    ResumesSession(a[1], 1, 7, 0);
    assert a[1].conns[1 := Client(7, 1)] == [Client(9, 0), Client(7, 1)];
    var b := a[1 := a[1].(conns := [Client(9, 0), Client(7, 1)])];
    es := Leads(before, a, (1, Hello(1, 7, Draws(9))), b);
    Appends(b[1], 1, 2, 0);
    RaisedIs(b[1].table, 0, 2);
    assert b[1].log + [SECOND] == [FIRST, OTHER, SECOND];
    var c := Promoted()[1 := Promoted()[1].(durable := 1, phase := Draining)];
    es := Leads(es, b, (1, Plain(1, 2)), c);
    es := Leads(es, c, (1, Flush), Promoted());
    assert before + [(1, Hello(1, 7, Draws(9)))] + [(1, Plain(1, 2))] + [(1, Flush)]
        == before + [(1, Hello(1, 7, Draws(9))), (1, Plain(1, 2)), (1, Flush)];
  }

  /** The former leader, back as a replica, follows the one that replaced it. */
  function Attached(): seq<Server> {
    Promoted()[0 := Server([FIRST, SECOND], 0, 2, Fold([FIRST, SECOND]), [CLOSED], true, Some(1), false, Served,
                         [], {})]
  }

  lemma ToAttached(before: seq<(nat, Event)>) returns (es: seq<(nat, Event)>)
    requires Reaches(Start(), before, Promoted())
    ensures es == before + [(0, Restart(2, [], 0, true)), (0, Attach(1))] && Reaches(Start(), es, Attached())
  {
    hide Reaches, Fold;
    var a := Promoted();
    assert a[0].log[..2] + [] == [FIRST, SECOND] && [FIRST, SECOND][0..] == [FIRST, SECOND];
    assert seq(1, _ => CLOSED) == [CLOSED];
    var b := a[0 := Attached()[0].(source := None)];
    es := Leads(before, a, (0, Restart(2, [], 0, true)), b);
    es := Leads(es, b, (0, Attach(1)), Attached());
    assert before + [(0, Restart(2, [], 0, true))] + [(0, Attach(1))]
        == before + [(0, Restart(2, [], 0, true)), (0, Attach(1))];
  }

  lemma ToStoredTwice(before: seq<(nat, Event)>) returns (es: seq<(nat, Event)>, end: seq<Server>)
    requires Reaches(Start(), before, Attached())
    ensures es == before + [(0, Begin), (0, Take(SECOND, None))]
    ensures Reaches(Start(), es, end) && |end| == 2 && end[0].log == [FIRST, SECOND, SECOND]
  {
    hide Reaches, Fold, Observed;
    var c := Attached();
    var d := c[0 := c[0].(phase := Draining)];
    es := Leads(before, c, (0, Begin), d);
    end := After(d, (0, Take(SECOND, None)));
    assert d[0].log + [SECOND] == [FIRST, SECOND, SECOND];
    es := Leads(es, d, (0, Take(SECOND, None)), end);
    assert before + [(0, Begin)] + [(0, Take(SECOND, None))] == before + [(0, Begin), (0, Take(SECOND, None))];
  }

  lemma ToFollowing() returns (run: seq<(nat, Event)>)
    ensures run + [(0, Begin), (0, Take(SECOND, None))] == DivergedRun() && Reaches(Start(), run, Attached())
  {
    hide Reaches, Start, Leading, Ahead, Promoted, Copied, Written1, Written2, Attached;
    run := ToWritten1();
    run := ToCopied(run);
    run := ToWritten2(run);
    run := ToLeading(run);
    run := ToAhead(run);
    run := ToPromoted(run);
    run := ToAttached(run);
    assert run + [(0, Begin), (0, Take(SECOND, None))] == DivergedRun();
  }

  lemma Compose() returns (run: seq<(nat, Event)>, end: seq<Server>)
    ensures run == DivergedRun() && Reaches(Start(), run, end)
    ensures |end| == 2 && end[0].log == [FIRST, SECOND, SECOND]
  {
    hide Reaches, Start, DivergedRun, Attached;
    run := ToFollowing();
    run, end := ToStoredTwice(run);
  }

  /**
   The run happens, from nothing stored, with every drawn id new; and at its
   end one write is stored twice. What lets it happen is that the log attached
   to did not fit.
   */
  lemma StoredTwice() returns (run: seq<(nat, Event)>, end: seq<Server>)
    ensures run == DivergedRun() && Fresh(Start()) && Reaches(Start(), run, end)
    ensures |end| == 2 && end[0].log == [FIRST, SECOND, SECOND] && !Increasing(end[0].log)
    ensures !Fitting(Start(), run)
  {
    run, end := Compose();
    StartFresh();
    hide Start, DivergedRun, RunsTo, EndOf, Fitting;
    assert end[0].log[1] == end[0].log[2];
    if Fitting(Start(), run) {
      StoredOnce(Start(), run, 0);
    }
  }

  lemma StartFresh()
    ensures Fresh(Start())
  {}

  lemma UnusedIn(log: seq<Sent>, id: nat)
    requires forall i :: 0 <= i < |log| ==> log[i].session != id
    ensures Unused(log, id)
  {}
}
