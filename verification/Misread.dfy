/**
 A run in which a write is stored twice by a replica that never attached to a log
 other than its leader's own and whose leader's restart brought nothing back: a
 record left behind a finished segment is streamed for the one that follows, and
 then comes in its turn.
 */
module Misread {
  import opened Wrappers
  import opened Sessions
  import opened SessionLog
  import opened Dedup
  import opened Following
  import opened Diverged
  import Changeover
  import Recalled

  const THIRD := Sent(9, 2)
  const REPLICA := Server([], 0, 0, [], [], true, None, false, Served, [], {})

  /** A node and a replica with nothing. */
  function Both(s: Server): seq<Server> {
    [s, REPLICA]
  }

  function Begun(): seq<Server> {
    Both(Recalled.Start()[0])
  }

  /** What one node does alone it does beside an idle one. */
  lemma {:induction false} Beside(a: seq<Server>, es: seq<(nat, Event)>)
    requires |a| == 1 && RunsTo(a, es)
    requires forall i :: 0 <= i < |es| ==> !es[i].1.Attach? && !es[i].1.Take?
    ensures |EndOf(a, es)| == 1
    ensures RunsTo(Both(a[0]), es) && EndOf(Both(a[0]), es) == Both(EndOf(a, es)[0])
    decreases |es|
  {
    if es != [] {
      OneStep(a, es[0]);
      hide Enabled, Step, After;
      assert forall i :: 0 <= i < |es[1..]| ==> es[1..][i] == es[i + 1];
      Beside(After(a, es[0]), es[1..]);
    }
  }

  lemma OneStep(a: seq<Server>, e: (nat, Event))
    requires |a| == 1 && Enabled(a, e.0, e.1) && !e.1.Attach? && !e.1.Take?
    ensures |After(a, e)| == 1
    ensures Enabled(Both(a[0]), e.0, e.1) && After(Both(a[0]), e) == Both(After(a, e)[0])
  {
    hide Written, Greeted, Restarted, Sending, Emitted, Drawn, Unused;
  }

  /** One event of the run, and where it leads. */
  lemma Moves(es: seq<(nat, Event)>, b: seq<Server>, e: (nat, Event), c: seq<Server>) returns (more: seq<(nat, Event)>)
    requires Reaches(Begun(), es, b) && Enabled(b, e.0, e.1) && After(b, e) == c
    ensures more == es + [e] && Reaches(Begun(), more, c)
  {
    hide Reaches, Enabled, After, Begun;
    OneMore(Begun(), es, b, e);
    more := es + [e];
  }

  /** The leader's restart over a lost record and one that was kept. */
  function Back(): seq<Server> {
    Both(Recalled.Back()[0])
  }

  function BackRun(): seq<(nat, Event)> {
    [(0, Hello(0, 0, Draws(7))), (0, Plain(0, 1)), (0, Flush),
     (0, Serve), (0, Begin), (0, Hello(1, 0, Draws(9))), (0, Plain(1, 1)), (0, Plain(0, 2)),
     (0, Restart(1, [], 0, false))]
  }

  lemma ToBack() returns (es: seq<(nat, Event)>)
    ensures es == BackRun() && Reaches(Begun(), es, Back())
  {
    hide Recalled.Start, Recalled.Stored1, Recalled.Opened9, Recalled.Three, Recalled.Back, RunsTo, EndOf;
    es := Recalled.ToStored1();
    es := Recalled.ToOpened9(es);
    es := Recalled.ToThree(es);
    es := Recalled.ToBack(es);
    assert es == BackRun();
    Shapes();
    Beside(Recalled.Start(), es);
  }

  lemma Shapes()
    ensures |Recalled.Start()| == |Recalled.Back()| == 1
    ensures forall i :: 0 <= i < |BackRun()| ==> !BackRun()[i].1.Attach? && !BackRun()[i].1.Take?
  {}

  /** Another client has a session and has filled the lost record's place. */
  function Filled(): seq<Server> {
    Both(Server([FIRST, OTHER], 0, 1, [Sess(7, 1), Sess(9, 1)], [Client(9, 0), CLOSED], false, None, true, Draining, [],
                {}))
  }

  lemma ToFilled(before: seq<(nat, Event)>) returns (es: seq<(nat, Event)>)
    requires Reaches(Begun(), before, Back())
    ensures es == before + [(0, Begin), (0, Hello(0, 0, Draws(9))), (0, Plain(0, 1))]
    ensures Reaches(Begun(), es, Filled())
  {
    hide Reaches, Greeted, Written, Drawn, Raised;
    var a := Back();
    var b := Both(a[0].(phase := Draining));
    es := Moves(before, a, (0, Begin), b);
    Opens(b[0], 0, 9);
    DrawsIs(b[0].table, 9);
    UnusedIn([FIRST], 9);
    assert b[0].table + [Sess(9, 0)] == [Sess(7, 1), Sess(9, 0)];
    assert b[0].conns[0 := Client(9, 0)] == [Client(9, 0), CLOSED];
    var c := Both(b[0].(table := [Sess(7, 1), Sess(9, 0)], conns := [Client(9, 0), CLOSED]));
    es := Moves(es, b, (0, Hello(0, 0, Draws(9))), c);
    Appends(c[0], 0, 1, 1);
    RaisedIs(c[0].table, 1, 1);
    assert c[0].log + [OTHER] == [FIRST, OTHER];
    es := Moves(es, c, (0, Plain(0, 1)), Filled());
  }

  /** Its next write has rolled over, and the lost write's client is back. */
  function Rolled1(conns: seq<Conn>): seq<Server> {
    Both(Server([FIRST, OTHER, THIRD], 0, 2, [Sess(7, 1), Sess(9, 2)], conns, false, None, true, Draining, [],
                {(2, SECOND)}))
  }

  /** A write that rolls over, leaving this behind. */
  function Rolling(i: nat, clientSeq: nat, leaves: seq<Sent>): Event {
    Write(i, clientSeq, false, false, false, false, Some(leaves))
  }

  lemma AppendsRolling(s: Server, i: nat, clientSeq: nat, k: nat, leaves: seq<Sent>)
    requires i < |s.conns| && s.conns[i].session != 0 && !s.follower
    requires k < |s.table| && Find(s.table, s.conns[i].session) == k && s.table[k].mark < clientSeq
    ensures Written(s, i, clientSeq, false, false, false, false, Some(leaves))
         == s.(log := s.log + [Sent(s.conns[i].session, clientSeq)], dirty := true, durable := |s.log|,
               left := s.left + LeftBehind(|s.log|, leaves), table := Raised(s.table, k, clientSeq))
  {
    hide LeftBehind;
  }

  lemma LeavesIs(k: nat, r: Sent)
    ensures {} + LeftBehind(k, [r]) == {(k, r)} && LeftBehind(k, []) == {}
  {
    var leaves := [r];
    assert (k + 0, leaves[0]) in LeftBehind(k, leaves);
    assert LeftBehind(k, leaves) == {(k, r)};
  }

  lemma ToRolled1(before: seq<(nat, Event)>) returns (es: seq<(nat, Event)>)
    requires Reaches(Begun(), before, Filled())
    ensures es == before + [(0, Rolling(0, 2, [SECOND])), (0, Hello(1, 7, Draws(9)))]
    ensures Reaches(Begun(), es, Rolled1([Client(9, 0), Client(7, 1)]))
  {
    hide Reaches, Greeted, Written, Raised, LeftBehind;
    var a := Filled();
    AppendsRolling(a[0], 0, 2, 1, [SECOND]);
    RaisedIs(a[0].table, 1, 2);
    LeavesIs(2, SECOND);
    assert a[0].log + [THIRD] == [FIRST, OTHER, THIRD];
    var b := Rolled1([Client(9, 0), CLOSED]);
    es := Moves(before, a, (0, Rolling(0, 2, [SECOND])), b);
    ResumesSession(b[0], 1, 7, 0);
    assert b[0].conns[1 := Client(7, 1)] == [Client(9, 0), Client(7, 1)];
    es := Moves(es, b, (0, Hello(1, 7, Draws(9))), Rolled1([Client(9, 0), Client(7, 1)]));
  }

  /** The resend is stored, in a segment of its own, and all is flushed. */
  function Leading(): Server {
    Server([FIRST, OTHER, THIRD, SECOND], 0, 4, [Sess(9, 2), Sess(7, 2)], [Client(9, 0), Client(7, 1)], false, None,
           true, Settled, [], {(2, SECOND)})
  }

  lemma ToLeading(before: seq<(nat, Event)>) returns (es: seq<(nat, Event)>)
    requires Reaches(Begun(), before, Rolled1([Client(9, 0), Client(7, 1)]))
    ensures es == before + [(0, Rolling(1, 2, [])), (0, Flush)] && Reaches(Begun(), es, Both(Leading()))
  {
    hide Reaches, Written, Raised, LeftBehind;
    var a := Rolled1([Client(9, 0), Client(7, 1)]);
    AppendsRolling(a[0], 1, 2, 0, []);
    RaisedIs(a[0].table, 0, 2);
    LeavesIs(3, SECOND);
    assert {(2, SECOND)} + {} == {(2, SECOND)};
    assert a[0].log + [SECOND] == [FIRST, OTHER, THIRD, SECOND];
    var b := Both(Leading().(durable := 3, phase := Draining));
    es := Moves(before, a, (0, Rolling(1, 2, [])), b);
    es := Moves(es, b, (0, Flush), Both(Leading()));
  }

  /** The replica takes what it is handed. */
  lemma Hands(es: seq<(nat, Event)>, x: Server, r: Sent) returns (more: seq<(nat, Event)>, y: Server)
    requires Reaches(Begun(), es, [Leading(), x]) && x.source == Some(0) && x.phase == Draining && |x.log| < 4
    requires r == Leading().log[|x.log|] || (|x.log|, r) in Leading().left
    ensures more == es + [(1, Take(r, None))] && Reaches(Begun(), more, [Leading(), y])
    ensures y.log == x.log + [r] && y.source == Some(0) && y.phase == Draining
  {
    hide Reaches, Observed;
    y := Taken(x, r, None);
    assert [Leading(), x][1 := y] == [Leading(), y];
    more := Moves(es, [Leading(), x], (1, Take(r, None)), [Leading(), y]);
  }

  lemma ToTwice(before: seq<(nat, Event)>) returns (es: seq<(nat, Event)>, x: Server)
    requires Reaches(Begun(), before, Both(Leading()))
    ensures es == before + [(1, Attach(0)), (1, Begin), (1, Take(FIRST, None)), (1, Take(OTHER, None)),
                            (1, Take(SECOND, None)), (1, Take(SECOND, None))]
    ensures Reaches(Begun(), es, [Leading(), x]) && x.log == [FIRST, OTHER, SECOND, SECOND]
    ensures x.source == Some(0)
  {
    hide Reaches;
    var l := Leading();
    var a := REPLICA.(source := Some(0));
    assert [l, REPLICA][1 := a] == [l, a];
    es := Moves(before, Both(l), (1, Attach(0)), [l, a]);
    x := a.(phase := Draining);
    assert [l, a][1 := x] == [l, x];
    es := Moves(es, [l, a], (1, Begin), [l, x]);
    es, x := Hands(es, x, FIRST);
    es, x := Hands(es, x, OTHER);
    es, x := Hands(es, x, SECOND);
    es, x := Hands(es, x, SECOND);
  }

  function MisreadRun(): seq<(nat, Event)> {
    BackRun() +
    [(0, Begin), (0, Hello(0, 0, Draws(9))), (0, Plain(0, 1)),
     (0, Rolling(0, 2, [SECOND])), (0, Hello(1, 7, Draws(9))), (0, Rolling(1, 2, [])), (0, Flush),
     (1, Attach(0)), (1, Begin), (1, Take(FIRST, None)), (1, Take(OTHER, None)),
     (1, Take(SECOND, None)), (1, Take(SECOND, None))]
  }

  lemma ComposeMisread() returns (es: seq<(nat, Event)>, x: Server)
    ensures es == MisreadRun() && Reaches(Begun(), es, [Leading(), x]) && x.log == [FIRST, OTHER, SECOND, SECOND]
    ensures x.source == Some(0)
  {
    hide Reaches, Begun, BackRun, Back, Filled, Rolled1, Leading;
    es := ToBack();
    es := ToFilled(es);
    es := ToRolled1(es);
    es := ToLeading(es);
    es, x := ToTwice(es);
    assert es == MisreadRun();
  }

  /**
   The run happens, from nothing stored. Its one restart brings nothing back, and
   its one attachment is of a log that has nothing; yet the replica ends with one
   write stored twice, and not with its leader's log. What lets it happen is one
   record it was handed.
   */
  lemma StoredFromBehind() returns (x: Server)
    ensures Dedup.Fresh(Begun()) && Reaches(Begun(), MisreadRun(), [Leading(), x])
    ensures forall i :: 0 <= i < |MisreadRun()| && MisreadRun()[i].1.Restart? ==> MisreadRun()[i].1.extra == []
    ensures Leading().log == [FIRST, OTHER, THIRD, SECOND]
    ensures x.log == [FIRST, OTHER, SECOND, SECOND] && !Increasing(x.log)
    ensures !Fitting(Begun(), MisreadRun()) && !Changeover.JoiningRun(Begun(), MisreadRun())
  {
    var run;
    run, x := ComposeMisread();
    BegunFresh();
    RestartsBare();
    assert x.log[2] == x.log[3];
    hide Begun, MisreadRun, RunsTo, EndOf, Fitting, Increasing, Changeover.JoiningRun, Leading;
    if Fitting(Begun(), run) {
      StoredOnce(Begun(), run, 1);
    }
    NotBehind(x);
    Changeover.AtEnd(Begun(), run, [Leading(), x], 1);
  }

  lemma BegunFresh()
    ensures Dedup.Fresh(Begun())
  {}

  lemma RestartsBare()
    ensures forall i :: 0 <= i < |MisreadRun()| && MisreadRun()[i].1.Restart? ==> MisreadRun()[i].1.extra == []
  {}

  lemma NotBehind(x: Server)
    requires x.log == [FIRST, OTHER, SECOND, SECOND]
    ensures Leading().log == [FIRST, OTHER, THIRD, SECOND] && !(x.log <= Flushed(Leading()))
  {
    assert x.log[2] != Flushed(Leading())[2];
  }
}
