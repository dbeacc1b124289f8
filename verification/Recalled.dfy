/**
 A run on one node, with no replica anywhere, in which a write is stored twice:
 a crash loses a record and keeps the one after it, the kept one's client sends
 it again, and the next restart takes the copy left behind for a new record.
 */
module Recalled {
  import opened Wrappers
  import opened Sessions
  import opened SessionLog
  import opened Dedup
  import opened Following
  import opened Diverged

  function Alone(s: Server): seq<Server> {
    [s]
  }

  /** One node that leads, two connections to it, nothing stored. */
  function Start(): seq<Server> {
    Alone(Server([], 0, 0, [], [CLOSED, CLOSED], false, None, false, Draining, [], {}))
  }

  /** One write of session 7, flushed. */
  function Stored1(): seq<Server> {
    Alone(Server([FIRST], 0, 1, [Sess(7, 1)], [Client(7, 0), CLOSED], false, None, true, Settled, [], {}))
  }

  /** Behind it another session's write and the next of session 7, neither flushed. */
  function Three(): seq<Server> {
    Alone(Server([FIRST, OTHER, SECOND], 0, 1, [Sess(9, 1), Sess(7, 2)], [Client(7, 0), Client(9, 0)], false, None,
                 true, Draining, [], {}))
  }

  /** After the crash: what was flushed. */
  function Back(): seq<Server> {
    Alone(Server([FIRST], 0, 1, [Sess(7, 1)], [CLOSED, CLOSED], false, None, false, Served, [], {}))
  }

  /** The resend, flushed. */
  function Stored2(): seq<Server> {
    Alone(Server([FIRST, SECOND], 0, 2, [Sess(7, 2)], [Client(7, 1), CLOSED], false, None, true, Settled, [], {}))
  }

  /** After the next restart: what was flushed, and the copy behind it. */
  function Twice(): seq<Server> {
    Alone(Server([FIRST, SECOND, SECOND], 0, 3, Fold([FIRST, SECOND, SECOND]), [CLOSED, CLOSED], false, None, false,
                 Served, [], {}))
  }

  function RecalledRun(): seq<(nat, Event)> {
    [(0, Hello(0, 0, Draws(7))), (0, Plain(0, 1)), (0, Flush),
     (0, Serve), (0, Begin), (0, Hello(1, 0, Draws(9))), (0, Plain(1, 1)), (0, Plain(0, 2)),
     (0, Restart(1, [], 0, false)),
     (0, Begin), (0, Hello(0, 7, Draws(9))), (0, Plain(0, 2)), (0, Flush),
     (0, Restart(2, [SECOND], 0, false))]
  }

  /** One event of the run, and where it leads. */
  lemma Moves(es: seq<(nat, Event)>, b: seq<Server>, e: (nat, Event), c: seq<Server>) returns (more: seq<(nat, Event)>)
    requires Reaches(Start(), es, b) && Enabled(b, e.0, e.1) && After(b, e) == c
    ensures more == es + [e] && Reaches(Start(), more, c)
  {
    hide Reaches, Enabled, After;
    OneMore(Start(), es, b, e);
    more := es + [e];
  }

  lemma ToStored1() returns (es: seq<(nat, Event)>)
    ensures es == [(0, Hello(0, 0, Draws(7))), (0, Plain(0, 1)), (0, Flush)] && Reaches(Start(), es, Stored1())
  {
    hide Reaches, Greeted, Written, Drawn, Raised, Draws, Owed, Taken, Sending, Restarted, Emitted, Fold, Observed;
    var a := Start();
    Stays(a, []);
    Opens(a[0], 0, 7);
    UnusedIn([], 7);
    assert a[0].table + [Sess(7, 0)] == [Sess(7, 0)] && a[0].conns[0 := Client(7, 0)] == [Client(7, 0), CLOSED];
    var b := Alone(a[0].(table := [Sess(7, 0)], conns := [Client(7, 0), CLOSED]));
    es := Moves([], a, (0, Hello(0, 0, Draws(7))), b);
    Appends(b[0], 0, 1, 0);
    RaisedIs(b[0].table, 0, 1);
    assert b[0].log + [FIRST] == [FIRST];
    var c := Alone(b[0].(log := [FIRST], dirty := true, table := [Sess(7, 1)]));
    es := Moves(es, b, (0, Plain(0, 1)), c);
    es := Moves(es, c, (0, Flush), Stored1());
  }

  /** Another session has been opened. */
  function Opened9(): seq<Server> {
    Alone(Server([FIRST], 0, 1, [Sess(7, 1), Sess(9, 0)], [Client(7, 0), Client(9, 0)], false, None, false,
                 Draining, [], {}))
  }

  lemma ToOpened9(before: seq<(nat, Event)>) returns (es: seq<(nat, Event)>)
    requires Reaches(Start(), before, Stored1())
    ensures es == before + [(0, Serve), (0, Begin), (0, Hello(1, 0, Draws(9)))] && Reaches(Start(), es, Opened9())
  {
    hide Reaches, Greeted, Drawn;
    var a := Stored1();
    var b := Alone(a[0].(phase := Served));
    es := Moves(before, a, (0, Serve), b);
    var c := Alone(b[0].(phase := Draining, dirty := false));
    es := Moves(es, b, (0, Begin), c);
    Opens(c[0], 1, 9);
    DrawsIs(c[0].table, 9);
    UnusedIn([FIRST], 9);
    assert c[0].table + [Sess(9, 0)] == [Sess(7, 1), Sess(9, 0)];
    assert c[0].conns[1 := Client(9, 0)] == [Client(7, 0), Client(9, 0)];
    es := Moves(es, c, (0, Hello(1, 0, Draws(9))), Opened9());
  }

  lemma ToThree(before: seq<(nat, Event)>) returns (es: seq<(nat, Event)>)
    requires Reaches(Start(), before, Opened9())
    ensures es == before + [(0, Plain(1, 1)), (0, Plain(0, 2))] && Reaches(Start(), es, Three())
  {
    hide Reaches, Written, Raised;
    var a := Opened9();
    Appends(a[0], 1, 1, 1);
    RaisedIs(a[0].table, 1, 1);
    assert a[0].log + [OTHER] == [FIRST, OTHER];
    var b := Alone(a[0].(log := [FIRST, OTHER], dirty := true, table := [Sess(7, 1), Sess(9, 1)]));
    es := Moves(before, a, (0, Plain(1, 1)), b);
    Appends(b[0], 0, 2, 0);
    RaisedIs(b[0].table, 0, 2);
    assert b[0].log + [SECOND] == [FIRST, OTHER, SECOND];
    es := Moves(es, b, (0, Plain(0, 2)), Three());
  }

  lemma ToBack(before: seq<(nat, Event)>) returns (es: seq<(nat, Event)>)
    requires Reaches(Start(), before, Three())
    ensures es == before + [(0, Restart(1, [], 0, false))] && Reaches(Start(), es, Back())
  {
    hide Reaches, Fold;
    FoldFirst();
    var a := Three();
    assert a[0].log[..1] + [] == [FIRST] && [FIRST][0..] == [FIRST];
    assert seq(2, _ => CLOSED) == [CLOSED, CLOSED];
    es := Moves(before, a, (0, Restart(1, [], 0, false)), Back());
  }

  lemma ToStored2(before: seq<(nat, Event)>) returns (es: seq<(nat, Event)>)
    requires Reaches(Start(), before, Back())
    ensures es == before + [(0, Begin), (0, Hello(0, 7, Draws(9))), (0, Plain(0, 2)), (0, Flush)]
    ensures Reaches(Start(), es, Stored2())
  {
    hide Reaches, Greeted, Written, Raised;
    var a := Back();
    var b := Alone(a[0].(phase := Draining));
    es := Moves(before, a, (0, Begin), b);
    ResumesSession(b[0], 0, 7, 0);
    assert b[0].conns[0 := Client(7, 1)] == [Client(7, 1), CLOSED];
    var c := Alone(b[0].(conns := [Client(7, 1), CLOSED]));
    es := Moves(es, b, (0, Hello(0, 7, Draws(9))), c);
    Appends(c[0], 0, 2, 0);
    RaisedIs(c[0].table, 0, 2);
    assert c[0].log + [SECOND] == [FIRST, SECOND];
    var d := Alone(c[0].(log := [FIRST, SECOND], dirty := true, table := [Sess(7, 2)]));
    es := Moves(es, c, (0, Plain(0, 2)), d);
    es := Moves(es, d, (0, Flush), Stored2());
  }

  lemma ToTwice(before: seq<(nat, Event)>) returns (es: seq<(nat, Event)>)
    requires Reaches(Start(), before, Stored2())
    ensures es == before + [(0, Restart(2, [SECOND], 0, false))] && Reaches(Start(), es, Twice())
  {
    hide Reaches, Fold;
    var a := Stored2();
    var log := [FIRST, SECOND, SECOND];
    assert a[0].log[..2] + [SECOND] == log && log[0..] == log;
    assert seq(2, _ => CLOSED) == [CLOSED, CLOSED];
    es := Moves(before, a, (0, Restart(2, [SECOND], 0, false)), Twice());
  }

  lemma ComposeRecalled() returns (run: seq<(nat, Event)>)
    ensures run == RecalledRun() && Reaches(Start(), run, Twice())
  {
    hide Reaches, Start, Stored1, Opened9, Three, Back, Stored2, Twice;
    run := ToStored1();
    run := ToOpened9(run);
    run := ToThree(run);
    run := ToBack(run);
    run := ToStored2(run);
    run := ToTwice(run);
    assert run == RecalledRun();
  }

  /**
   The run happens, from nothing stored, and at its end one write is stored
   twice. What lets it happen is that the last restart did not resume the log.
   */
  lemma StoredAgain()
    ensures Dedup.Fresh(Start()) && Reaches(Start(), RecalledRun(), Twice())
    ensures Twice()[0].log == [FIRST, SECOND, SECOND] && !Increasing(Twice()[0].log)
    ensures !Fitting(Start(), RecalledRun())
  {
    var run := ComposeRecalled();
    TwiceStored();
    hide Start, Twice, RecalledRun, RunsTo, EndOf, Fitting, Increasing;
    if Fitting(Start(), run) {
      StoredOnce(Start(), run, 0);
    }
  }

  lemma TwiceStored()
    ensures |Twice()| == 1 && Twice()[0].log == [FIRST, SECOND, SECOND] && !Increasing(Twice()[0].log)
    ensures Dedup.Fresh(Start())
  {
    assert Twice()[0].log[1] == Twice()[0].log[2];
  }
}
