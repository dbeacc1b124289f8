/**
 A run in which a client is told of a second copy that does not exist. A leader
 restarts over a record it had dropped, fills the place before it and rolls
 over; its replica is then sent the dropped record for the one that comes next.
 */
module FalseCopy {
  import opened Bytes
  import opened Wrappers
  import opened Acks
  import opened Replication
  import opened Durability
  import opened Mirror
  import opened Redial

  const A := Item(1, [])
  const LOST := Item(2, [])
  const KEPT := Item(3, [1])
  const MID := Item(2, [2])
  const NEXT := Item(3, [3])

  const COPIED := Flags(true, false, true, false)
  const OWED := Client(CLEAR, Slot(true, 5, 3, REPL_DEADLINE_TICKS, COPIED, false))
  const OPEN := Conn(0, [], [], true, true)

  function World(node: Node, bases: seq<nat>, peers: seq<Option<Peer>>, client: Client, phase: Phase, one: Follower,
                 conns: seq<Conn>, left: map<nat, seq<Item>>): System {
    System(Leader(node, bases, 0, peers, [client], 0, phase, left), 0, 0, [one], conns, [])
  }

  function Begin(): System {
    World(Node([], 0), [1], [None, None], QUIET, Draining, IDLE, [], map[])
  }

  /** Three writes, the first flushed. */
  function Three(): System {
    World(Node([A, LOST, KEPT], 1), [1], [None, None], QUIET, Draining, IDLE, [], map[])
  }

  /** A restart over them has kept the first, and the replica has attached. */
  function Joined1(): System {
    World(Node([A], 1), [1], [Some(Peer(0, 1, 0)), None], QUIET, Draining, IDLE.(stream := Up(0)), [OPEN], map[])
  }

  /** Two more, the second in a segment of its own and to be answered when there are two copies. */
  function RolledOver(): System {
    World(Node([A, MID, NEXT], 3), [1, 3], [Some(Peer(0, 1, 0)), None], OWED, Served, IDLE.(stream := Up(0)), [OPEN],
          map[3 := [KEPT]])
  }

  /** The replica as it is once it has what it was sent. */
  function Misled(phase: Phase, durable: nat): Follower {
    Follower(Node([A, MID, KEPT], durable), Up(0), false, durable, phase, {A, MID, KEPT})
  }

  /** The replica has flushed what it was sent. */
  function Flushed3(): System {
    World(Node([A, MID, NEXT], 3), [1, 3], [Some(Peer(0, 4, 0)), None], OWED, Served, Misled(Settled, 3),
          [OPEN.(up := [Report(3)])], map[3 := [KEPT]])
  }

  /** And the client has been told. */
  function ToldSo(): System {
    World(Node([A, MID, NEXT], 3), [1, 3], [Some(Peer(0, 4, 3)), None], QUIET, Served, Misled(Settled, 3), [OPEN],
          map[3 := [KEPT]]).(sent := [Ack(COPIED, 3, 5)])
  }

  function FalseRun(): seq<Event> {
    [LAppend(0, PLAIN, 1, [], None), LFlush, LEmit, LBegin,
     LAppend(0, PLAIN, 2, [], None), LAppend(0, PLAIN, 3, [1], None), LCrash(1, []),
     FDial(0), FDialled(0), LRecv(0), LAppend(0, PLAIN, 4, [2], None),
     LAppend(0, Ask(COPIED, false), 5, [3], Some([KEPT])), LFlush, LEmit,
     LStream(0, 2, [KEPT]), FBegin(0), FRecv(0), FFlush(0), FReport(0),
     LBegin, LRecv(0), LFlush, LEmit]
  }

  lemma WritesPlain(s: System, clientSeq: nat, body: seq<byte>)
    requires s.leader.phase == Draining && s.leader.clients == [QUIET]
    ensures var e := LAppend(0, PLAIN, clientSeq, body, None);
      Enabled(s, e) && Apply(s, e) == s.(leader := Appended(s.leader, body, None))
  {}

  lemma OneFollower(a: Follower, b: Follower)
    ensures [a][0 := b] == [b]
  {}

  lemma ToThree() returns (es: seq<Event>)
    ensures Reaches(Begin(), es, Three())
    ensures es == [LAppend(0, PLAIN, 1, [], None), LFlush, LEmit, LBegin,
                   LAppend(0, PLAIN, 2, [], None), LAppend(0, PLAIN, 3, [1], None)]
  {
    hide Reaches, Enabled, Apply, EmitFrom;
    var a := Begin();
    Stays(a, []);
    WritesPlain(a, 1, []);
    assert [] + [A] == [A] && [A] + [LOST] == [A, LOST] && [A, LOST] + [KEPT] == [A, LOST, KEPT];
    var b := World(Node([A], 0), [1], [None, None], QUIET, Draining, IDLE, [], map[]);
    es := Leads(a, [], a, LAppend(0, PLAIN, 1, [], None), b);
    es := Pass(es, b, 1);
    var c := b.(leader := b.leader.(node := Node([A], 1)));
    WritesPlain(c, 2, []);
    var d := c.(leader := c.leader.(node := Node([A, LOST], 1)));
    es := Leads(a, es, c, LAppend(0, PLAIN, 2, [], None), d);
    WritesPlain(d, 3, [1]);
    es := Leads(a, es, d, LAppend(0, PLAIN, 3, [1], None), Three());
  }

  /** A flush with nothing owed, and on to the next pass. */
  lemma Pass(before: seq<Event>, b: System, n: nat) returns (es: seq<Event>)
    requires Reaches(Begin(), before, b) && b.leader.phase == Draining && b.leader.clients == [QUIET] && b.sent == []
    requires |b.leader.node.log| == n
    ensures es == before + [LFlush, LEmit, LBegin]
    ensures Reaches(Begin(), es, b.(leader := b.leader.(node := b.leader.node.(durable := n))))
  {
    hide Reaches, EmitFrom;
    var c := b.(leader := b.leader.(node := b.leader.node.(durable := n), phase := Settled));
    es := Leads(Begin(), before, b, LFlush, c);
    NothingOwed(c);
    var d := c.(leader := c.leader.(phase := Served));
    es := Leads(Begin(), es, c, LEmit, d);
    es := Leads(Begin(), es, d, LBegin, d.(leader := d.leader.(phase := Draining)));
    assert before + [LFlush] + [LEmit] + [LBegin] == before + [LFlush, LEmit, LBegin];
  }

  /** The restart, and the replica's opening frame on its way. */
  function Dialled1(up: seq<Message>): System {
    World(Node([A], 1), [1], [None, None], QUIET, Draining, IDLE.(stream := Up(0)),
          [Conn(0, up, [], false, true)], map[])
  }

  lemma Crashes1()
    ensures Enabled(Three(), LCrash(1, []))
    ensures Apply(Three(), LCrash(1, []))
         == World(Node([A], 1), [1], [None, None], QUIET, Draining, IDLE, [], map[])
  {
    assert [A, LOST, KEPT][..1] + [] == [A] && seq(1, _ => QUIET) == [QUIET] && Unserved([]) == [];
  }

  lemma ToDialled1(before: seq<Event>) returns (es: seq<Event>)
    requires Reaches(Begin(), before, Three())
    ensures es == before + [LCrash(1, []), FDial(0), FDialled(0)]
    ensures Reaches(Begin(), es, Dialled1([Message.Start(1)]))
  {
    hide Reaches, Begin;
    Crashes1();
    var b := World(Node([A], 1), [1], [None, None], QUIET, Draining, IDLE, [], map[]);
    es := Leads(Begin(), before, Three(), LCrash(1, []), b);
    hide Three;
    OneFollower(IDLE, IDLE.(stream := Dialling));
    var c := b.(followers := [IDLE.(stream := Dialling)]);
    es := Leads(Begin(), es, b, FDial(0), c);
    var conn := Conn(0, [Message.Start(1)], [], false, true);
    OneFollower(IDLE.(stream := Dialling), IDLE.(stream := Up(0)));
    assert [] + [conn] == [conn];
    es := Leads(Begin(), es, c, FDialled(0), Dialled1([Message.Start(1)]));
    assert before + [LCrash(1, [])] + [FDial(0)] + [FDialled(0)] == before + [LCrash(1, []), FDial(0), FDialled(0)];
  }

  lemma ToJoined1(before: seq<Event>) returns (es: seq<Event>)
    requires Reaches(Begin(), before, Three())
    ensures es == before + [LCrash(1, []), FDial(0), FDialled(0), LRecv(0)] && Reaches(Begin(), es, Joined1())
  {
    hide Reaches, Begin, Three, Floor;
    es := ToDialled1(before);
    var d, conn := Dialled1([Message.Start(1)]), Conn(0, [Message.Start(1)], [], false, true);
    assert conn.up[1..] == [] && FreeSlot([None, None]) == 0;
    OneConn(conn, conn.(up := []));
    OneConn(conn.(up := []), OPEN);
    OnePeer(None, Some(Peer(0, 1, 0)));
    NoWant([Some(Peer(0, 1, 0)), None]);
    es := Leads(Begin(), es, d, LRecv(0), Joined1());
    assert before + [LCrash(1, []), FDial(0), FDialled(0)] + [LRecv(0)]
        == before + [LCrash(1, []), FDial(0), FDialled(0), LRecv(0)];
  }

  lemma NoWant(peers: seq<Option<Peer>>)
    ensures Floor(0, 0, peers) == 0
  {}

  /** Somebody is attached, and has confirmed nothing yet, or all. */
  lemma OnePeerBest(p: Peer)
    ensures Live([Some(p), None]) && Best([Some(p), None]) == p.durable
  {
    var peers := [Some(p), None];
    assert peers[..1] == [Some(p)] && peers[..1][..0] == [];
    assert Best(peers[..1]) == Max(Best(peers[..1][..0]), p.durable);
    assert Live(peers[..1]);
  }

  lemma ToRolledOver(before: seq<Event>) returns (es: seq<Event>)
    requires Reaches(Begin(), before, Joined1())
    ensures es == before + [LAppend(0, PLAIN, 4, [2], None), LAppend(0, Ask(COPIED, false), 5, [3], Some([KEPT])),
                            LFlush, LEmit]
    ensures Reaches(Begin(), es, RolledOver())
  {
    hide Reaches, EmitFrom, Live, Best;
    var a := Joined1();
    assert [A] + [MID] == [A, MID] && [A, MID] + [NEXT] == [A, MID, NEXT] && [1] + [3] == [1, 3];
    WritesPlain(a, 4, [2]);
    var b := a.(leader := a.leader.(node := Node([A, MID], 1)));
    es := Leads(Begin(), before, a, LAppend(0, PLAIN, 4, [2], None), b);
    OnePeerBest(Peer(0, 1, 0));
    assert [QUIET][0 := OWED] == [OWED];
    assert map[][3 := [KEPT]] == map[3 := [KEPT]];
    var c := RolledOver().(leader := RolledOver().leader.(node := Node([A, MID, NEXT], 2), phase := Draining));
    es := Leads(Begin(), es, b, LAppend(0, Ask(COPIED, false), 5, [3], Some([KEPT])), c);
    var d := RolledOver().(leader := RolledOver().leader.(phase := Settled));
    es := Leads(Begin(), es, c, LFlush, d);
    StillOwed(d.leader);
    es := Leads(Begin(), es, d, LEmit, RolledOver());
    assert before + [LAppend(0, PLAIN, 4, [2], None)] + [LAppend(0, Ask(COPIED, false), 5, [3], Some([KEPT]))]
           + [LFlush] + [LEmit]
        == before + [LAppend(0, PLAIN, 4, [2], None), LAppend(0, Ask(COPIED, false), 5, [3], Some([KEPT])),
                     LFlush, LEmit];
  }

  lemma StillOwed(l: Leader)
    requires l.clients == [OWED] && l.peers == [Some(Peer(0, 1, 0)), None] && l.tick == 0
    ensures AllEmitted(l) == ([OWED], [])
  {
    OnePeerBest(Peer(0, 1, 0));
    NothingSaid([]);
    OneEmitted(OWED, OWED, [], 0, true, l.node.durable, 0);
    hide Live, Best, EmitFrom;
  }

  /** Only one client to answer. */
  lemma OneEmitted(c: Client, d: Client, out: seq<Reply>, best: nat, live: bool, durable: nat, tick: nat)
    requires Emitted(c, best, live, durable, tick) == (d, out)
    ensures EmitFrom([c], best, live, durable, tick) == ([d], out)
  {
    assert [c][1..] == [] && EmitFrom([], best, live, durable, tick) == ([], []);
    assert [d] + [] == [d] && out + [] == out;
  }

  lemma NowPaid(l: Leader)
    requires l.clients == [OWED] && l.peers == [Some(Peer(0, 4, 3)), None] && l.node.durable == 3
    ensures AllEmitted(l) == ([QUIET], [Ack(COPIED, 3, 5)])
  {
    OnePeerBest(Peer(0, 4, 3));
    assert [] + [Ack(COPIED, 3, 5)] == [Ack(COPIED, 3, 5)];
    OneEmitted(OWED, QUIET, [Ack(COPIED, 3, 5)], 3, true, 3, l.tick);
    hide Live, Best, EmitFrom;
  }

  /** The read of the finished segment gives what is left behind it as well. */
  function OnTheWire(phase: Phase): System {
    RolledOver().(leader := RolledOver().leader.(peers := [Some(Peer(0, 4, 0)), None]),
                  conns := [OPEN.(down := [[A, MID, KEPT]])],
                  followers := [IDLE.(stream := Up(0), phase := phase)])
  }

  lemma ToOnTheWire(before: seq<Event>) returns (es: seq<Event>)
    requires Reaches(Begin(), before, RolledOver())
    ensures es == before + [LStream(0, 2, [KEPT]), FBegin(0)] && Reaches(Begin(), es, OnTheWire(Draining))
  {
    hide Reaches, Begin;
    SentBoth();
    es := Leads(Begin(), before, RolledOver(), LStream(0, 2, [KEPT]), OnTheWire(Settled));
    OneFollower(IDLE.(stream := Up(0)), IDLE.(stream := Up(0), phase := Draining));
    es := Leads(Begin(), es, OnTheWire(Settled), FBegin(0), OnTheWire(Draining));
    assert before + [LStream(0, 2, [KEPT])] + [FBegin(0)] == before + [LStream(0, 2, [KEPT]), FBegin(0)];
  }

  lemma SentBoth()
    ensures Enabled(RolledOver(), LStream(0, 2, [KEPT]))
    ensures Apply(RolledOver(), LStream(0, 2, [KEPT])) == OnTheWire(Settled)
  {
    var a := RolledOver();
    FrameIs(a.leader.node.log);
    LeftIs(a.leader.left);
    assert [] + [[A, MID, KEPT]] == [[A, MID, KEPT]];
    hide LeftAt;
    OneConn(OPEN, OPEN.(down := [[A, MID, KEPT]]));
    OnePeer(Some(Peer(0, 1, 0)), Some(Peer(0, 4, 0)));
  }

  lemma FrameIs(log: seq<Item>)
    requires log == [A, MID, NEXT]
    ensures log[0..2] + [KEPT] == [A, MID, KEPT]
  {}

  lemma LeftIs(left: map<nat, seq<Item>>)
    requires left == map[3 := [KEPT]]
    ensures LeftAt(left, 3, [KEPT])
  {
    assert left[3][0..] == [KEPT];
  }

  /** Taken as they come: whole, verified and numbered on. */
  lemma Taken3(frame: seq<Item>)
    requires frame == [A, MID, KEPT]
    ensures TakeItems([], frame) == (frame, true) && {} + Contents(frame) == {A, MID, KEPT}
  {
    TakeAll([], frame);
    assert [] + frame == frame;
  }

  lemma GotBoth()
    ensures Enabled(OnTheWire(Draining), FRecv(0))
    ensures Apply(OnTheWire(Draining), FRecv(0))
         == OnTheWire(Draining).(followers := [Misled(Draining, 0)], conns := [OPEN])
  {
    hide TakeItems, Contents;
    var a, frame := OnTheWire(Draining), [A, MID, KEPT];
    Taken3(frame);
    assert [frame][1..] == [];
    OneConn(a.conns[0], OPEN);
    OneFollower(a.followers[0], Misled(Draining, 0));
  }

  lemma ToFlushed3(before: seq<Event>) returns (es: seq<Event>)
    requires Reaches(Begin(), before, OnTheWire(Draining))
    ensures es == before + [FRecv(0), FFlush(0), FReport(0)] && Reaches(Begin(), es, Flushed3())
  {
    hide Reaches, Begin;
    GotBoth();
    var x, a := Misled(Draining, 0), OnTheWire(Draining);
    var b := a.(followers := [x], conns := [OPEN]);
    es := Leads(Begin(), before, a, FRecv(0), b);
    var y := Misled(Settled, 3).(acked := 0);
    OneFollower(x, y);
    var c := b.(followers := [y]);
    es := Leads(Begin(), es, b, FFlush(0), c);
    OneFollower(y, Misled(Settled, 3));
    assert [] + [Report(3)] == [Report(3)];
    OneConn(OPEN, OPEN.(up := [Report(3)]));
    es := Leads(Begin(), es, c, FReport(0), Flushed3());
    assert before + [FRecv(0)] + [FFlush(0)] + [FReport(0)] == before + [FRecv(0), FFlush(0), FReport(0)];
  }

  lemma ToToldSo(before: seq<Event>) returns (es: seq<Event>)
    requires Reaches(Begin(), before, Flushed3())
    ensures es == before + [LBegin, LRecv(0), LFlush, LEmit] && Reaches(Begin(), es, ToldSo())
  {
    hide Reaches, EmitFrom, Live, Best;
    var a := Flushed3();
    var b := a.(leader := a.leader.(phase := Draining));
    es := Leads(Begin(), before, a, LBegin, b);
    assert [Report(3)][1..] == [] && SlotOf([Some(Peer(0, 4, 0)), None], 0) == 0;
    OneConn(OPEN.(up := [Report(3)]), OPEN);
    OnePeer(Some(Peer(0, 4, 0)), Some(Peer(0, 4, 3)));
    var c := b.(leader := b.leader.(peers := [Some(Peer(0, 4, 3)), None]), conns := [OPEN]);
    es := Leads(Begin(), es, b, LRecv(0), c);
    var d := c.(leader := c.leader.(phase := Settled));
    es := Leads(Begin(), es, c, LFlush, d);
    NowPaid(d.leader);
    assert [] + [Ack(COPIED, 3, 5)] == [Ack(COPIED, 3, 5)];
    es := Leads(Begin(), es, d, LEmit, ToldSo());
    assert before + [LBegin] + [LRecv(0)] + [LFlush] + [LEmit] == before + [LBegin, LRecv(0), LFlush, LEmit];
  }

  lemma ComposeFalse() returns (es: seq<Event>)
    ensures es == FalseRun() && Reaches(Begin(), es, ToldSo())
  {
    hide Reaches, Begin, Three, Joined1, RolledOver, OnTheWire, Flushed3, ToldSo;
    es := ToThree();
    es := ToJoined1(es);
    es := ToRolledOver(es);
    es := ToOnTheWire(es);
    es := ToFlushed3(es);
    es := ToToldSo(es);
    assert es == FalseRun();
  }

  /**
   From a fresh start, one crash of the leader that brings nothing back. At the
   end a client has been told that the leader's third record has a second copy;
   the one replica there is has flushed three records, and the third is another.
   The frame that did it was not the leader's own records.
   */
  lemma NoSecondCopy()
    ensures Fresh(Begin()) && RunsTo(Begin(), FalseRun()) && EndOf(Begin(), FalseRun()) == ToldSo()
    ensures ToldSo().sent == [Ack(COPIED, 3, 5)] && COPIED.replicated && !COPIED.degraded
    ensures ToldSo().leader.node == Node([A, MID, NEXT], 3) && |ToldSo().followers| == 1
    ensures ToldSo().followers[0].node == Node([A, MID, KEPT], 3) && KEPT != NEXT
    ensures !OwnRun(Begin(), FalseRun())
  {
    var es := ComposeFalse();
    hide RunsTo, EndOf, OwnRun, FalseRun;
    NotACopy(ToldSo().followers[0].node, ToldSo().leader.node);
    if OwnRun(Begin(), FalseRun()) {
      ReplicasFollow(Begin(), FalseRun(), 0);
    }
  }

  lemma NotACopy(x: Node, lead: Node)
    requires x == Node([A, MID, KEPT], 3) && lead == Node([A, MID, NEXT], 3)
    ensures KEPT != NEXT && !Prefix(x, lead)
  {
    assert KEPT.body[0] != NEXT.body[0];
    assert x.log[2] == KEPT && lead.log[..3][2] == NEXT;
  }
}
