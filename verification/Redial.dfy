/**
 A run in which retention deletes what a replica still lacks: another replica
 redials before the leader has noticed that its old connection is gone, holds
 both slots, and confirms twice over what only it has.
 */
module Redial {
  import opened Bytes
  import opened Wrappers
  import opened Acks
  import opened Replication
  import opened Durability
  import opened Retention
  import Store

  /** es leads from a to b. */
  ghost predicate Reaches(a: System, es: seq<Event>, b: System) {
    RunsTo(a, es) && EndOf(a, es) == b
  }

  lemma Stays(a: System, es: seq<Event>)
    requires es == []
    ensures Reaches(a, es, a)
  {}

  lemma {:induction false} OneMore(a: System, es: seq<Event>, b: System, e: Event)
    requires Reaches(a, es, b) && Enabled(b, e)
    ensures Reaches(a, es + [e], Apply(b, e))
    decreases |es|
  {
    hide Enabled, Apply;
    if es == [] {
      assert es + [e] == [e] && [e][1..] == [];
      Stays(Apply(b, e), [e][1..]);
    } else {
      OneMore(Apply(a, es[0]), es[1..], b, e);
      assert (es + [e])[1..] == es[1..] + [e];
    }
  }

  /** One event of the run, and where it leads. */
  lemma Leads(a: System, es: seq<Event>, b: System, e: Event, c: System) returns (more: seq<Event>)
    requires Reaches(a, es, b) && Enabled(b, e) && Apply(b, e) == c
    ensures more == es + [e] && Reaches(a, more, c)
  {
    hide Reaches, Enabled, Apply;
    OneMore(a, es, b, e);
    more := es + [e];
  }

  const IDLE := Follower(Node([], 0), Down, false, 0, Settled, {})
  const QUIET := Client(CLEAR, CLEAR)
  const PLAIN := Ask(NO_FLAGS, false)

  function First(body: seq<byte>): Item {
    Item(1, body)
  }

  function Second(body: seq<byte>): Item {
    Item(2, body)
  }

  /** A leader that expects two replicas and keeps one segment. */
  function With(node: Node, bases: seq<nat>, floor: nat, peers: seq<Option<Peer>>, phase: Phase, one: Follower,
                conns: seq<Conn>): System {
    var left := if |node.log| < 2 then map[] else map[2 := []];
    System(Leader(node, bases, floor, peers, [QUIET], 0, phase, left), 2, 1, [one, IDLE], conns, [])
  }

  function Start(): System {
    With(Node([], 0), [1], 0, [None, None], Draining, IDLE, [])
  }

  /** Two writes, the second in a segment of its own, both flushed. */
  function Full(body: seq<byte>): Node {
    Node([First(body), Second(body)], 2)
  }

  function Wrote(body: seq<byte>): System {
    With(Full(body), [1, 2], 0, [None, None], Served, IDLE, [])
  }

  /** The first replica has attached. */
  function Joined(body: seq<byte>): System {
    With(Full(body), [1, 2], 0, [Some(Peer(0, 1, 0)), None], Served,
         IDLE.(stream := Up(0)), [Conn(0, [], [], true, true)])
  }

  /** It has the first write, flushed, and has said so. */
  function Has(body: seq<byte>): System {
    With(Full(body), [1, 2], 0, [Some(Peer(0, 2, 1)), None], Draining,
         Follower(Node([First(body)], 1), Up(0), false, 1, Settled, {First(body)}), [Conn(0, [], [], true, true)])
  }

  /** It has redialled, and the leader still serves its old connection. */
  function TwoSlots(body: seq<byte>): System {
    With(Full(body), [1, 2], 0, [Some(Peer(0, 2, 1)), None], Draining,
         Follower(Node([First(body)], 1), Up(1), false, 1, Settled, {First(body)}),
         [Conn(0, [], [], true, true), Conn(0, [Message.Start(2)], [], false, true)])
  }

  /** What the other replica has not got is gone. */
  function Lost(body: seq<byte>): System {
    With(Full(body), [2], 1, [Some(Peer(0, 2, 1)), Some(Peer(1, 2, 1))], Served,
         Follower(Node([First(body)], 1), Up(1), false, 1, Settled, {First(body)}),
         [Conn(0, [], [], true, true), Conn(0, [], [], true, true)])
  }

  function RunToTwoSlots(body: seq<byte>): seq<Event> {
    [LAppend(0, PLAIN, 1, body, None), LAppend(0, PLAIN, 2, body, Some([])), LFlush, LEmit,
     FDial(0), FDialled(0), LBegin, LRecv(0), LFlush, LEmit,
     LStream(0, 1, []), FBegin(0), FRecv(0), FFlush(0), FReport(0), LBegin, LRecv(0),
     FBegin(0), FLost(0), FFlush(0), FRelease(0), FDial(0), FDialled(0)]
  }

  lemma NothingSaid(out: seq<Reply>)
    requires out == []
    ensures out + out == out && [QUIET] + [] == [QUIET]
  {}

  lemma NothingOwed(s: System)
    requires s.leader.clients == [QUIET]
    ensures AllEmitted(s.leader) == ([QUIET], [])
  {
    hide Best, Live;
    var l := s.leader;
    assert l.clients[1..] == [] && l.clients[0] == QUIET;
    assert EmitFrom([], Best(l.peers), Live(l.peers), l.node.durable, l.tick) == ([], []);
    assert Emitted(QUIET, Best(l.peers), Live(l.peers), l.node.durable, l.tick) == (QUIET, [] + []);
    NothingSaid([]);
  }

  lemma Writes(s: System, clientSeq: nat, body: seq<byte>, rolls: Option<seq<Item>>)
    requires s.leader.phase == Draining && s.leader.clients == [QUIET]
    requires rolls.Some? ==>
      && s.leader.bases != [] && s.leader.bases[|s.leader.bases| - 1] < Next(s.leader.node)
      && Numbered(|s.leader.node.log|, rolls.value)
    ensures var e := LAppend(0, PLAIN, clientSeq, body, rolls);
      Enabled(s, e) && Apply(s, e) == s.(leader := Appended(s.leader, body, rolls))
  {}

  /** Both written, the first flushed by the rollover. */
  function Half(body: seq<byte>): System {
    With(Node([First(body), Second(body)], 1), [1, 2], 0, [None, None], Draining, IDLE, [])
  }

  lemma ToHalf(body: seq<byte>) returns (es: seq<Event>)
    ensures es == [LAppend(0, PLAIN, 1, body, None), LAppend(0, PLAIN, 2, body, Some([]))]
    ensures Reaches(Start(), es, Half(body))
  {
    hide Reaches, Enabled, Apply;
    var a := Start();
    Stays(a, []);
    assert [] + [First(body)] == [First(body)];
    var b := With(Node([First(body)], 0), [1], 0, [None, None], Draining, IDLE, []);
    Writes(a, 1, body, None);
    es := Leads(a, [], a, LAppend(0, PLAIN, 1, body, None), b);
    assert [First(body)] + [Second(body)] == [First(body), Second(body)] && [1] + [2] == [1, 2];
    Writes(b, 2, body, Some([]));
    es := Leads(a, es, b, LAppend(0, PLAIN, 2, body, Some([])), Half(body));
  }

  lemma ToWrote(body: seq<byte>, before: seq<Event>) returns (es: seq<Event>)
    requires Reaches(Start(), before, Half(body))
    ensures es == before + [LFlush, LEmit] && Reaches(Start(), es, Wrote(body))
  {
    hide Reaches, EmitFrom, Owe;
    var b := With(Full(body), [1, 2], 0, [None, None], Settled, IDLE, []);
    es := Leads(Start(), before, Half(body), LFlush, b);
    NothingOwed(b);
    es := Leads(Start(), es, b, LEmit, Wrote(body));
  }

  lemma Two(a: Follower, x: Follower)
    ensures [a, IDLE][0 := x] == [x, IDLE]
  {}

  lemma OneConn(a: Conn, b: Conn)
    ensures [a][0 := b] == [b]
  {}

  lemma OnePeer(p: Option<Peer>, q: Option<Peer>)
    ensures [p, None][0 := q] == [q, None]
  {}

  lemma NoFloor(floor: nat, p: Peer)
    ensures Floor(2, floor, [Some(p), None]) == floor
    ensures FreeSlot([None, None]) == 0 && FreeSlot([Some(p), None]) == 1
    ensures SlotOf([Some(p), None], p.conn) == 0
  {
    LiveOfTwo([Some(p), None]);
    assert [Some(p), None][1..] == [None];
  }

  lemma ToJoined(body: seq<byte>, before: seq<Event>) returns (es: seq<Event>)
    requires Reaches(Start(), before, Wrote(body))
    ensures es == before + [FDial(0), FDialled(0), LBegin, LRecv(0), LFlush, LEmit]
    ensures Reaches(Start(), es, Joined(body))
  {
    hide Reaches, EmitFrom, Floor, FreeSlot;
    var a := Wrote(body);
    Two(IDLE, IDLE.(stream := Dialling));
    var b := With(Full(body), [1, 2], 0, [None, None], Served, IDLE.(stream := Dialling), []);
    es := Leads(Start(), before, a, FDial(0), b);
    var conn := Conn(0, [Message.Start(1)], [], false, true);
    assert [] + [conn] == [conn];
    Two(IDLE.(stream := Dialling), IDLE.(stream := Up(0)));
    var c := With(Full(body), [1, 2], 0, [None, None], Served, IDLE.(stream := Up(0)), [conn]);
    es := Leads(Start(), es, b, FDialled(0), c);
    var d := With(Full(body), [1, 2], 0, [None, None], Draining, IDLE.(stream := Up(0)), [conn]);
    es := Leads(Start(), es, c, LBegin, d);
    NoFloor(0, Peer(0, 1, 0));
    assert conn.up[1..] == [];
    OneConn(conn, conn.(up := []));
    OneConn(conn.(up := []), Conn(0, [], [], true, true));
    OnePeer(None, Some(Peer(0, 1, 0)));
    var e := With(Full(body), [1, 2], 0, [Some(Peer(0, 1, 0)), None], Draining, IDLE.(stream := Up(0)),
                  [Conn(0, [], [], true, true)]);
    es := Leads(Start(), es, d, LRecv(0), e);
    var f := With(Full(body), [1, 2], 0, [Some(Peer(0, 1, 0)), None], Settled, IDLE.(stream := Up(0)),
                  [Conn(0, [], [], true, true)]);
    es := Leads(Start(), es, e, LFlush, f);
    NothingOwed(f);
    es := Leads(Start(), es, f, LEmit, Joined(body));
  }

  /** The first write is in the replica's hands. */
  function Given(body: seq<byte>): System {
    With(Full(body), [1, 2], 0, [Some(Peer(0, 2, 0)), None], Served,
         Follower(Node([First(body)], 0), Up(0), false, 0, Draining, {First(body)}), [Conn(0, [], [], true, true)])
  }

  /** It is on its way. */
  function Sending(body: seq<byte>): System {
    With(Full(body), [1, 2], 0, [Some(Peer(0, 2, 0)), None], Served,
         Follower(Node([], 0), Up(0), false, 0, Draining, {}), [Conn(0, [], [[First(body)]], true, true)])
  }

  lemma ToSending(body: seq<byte>, before: seq<Event>) returns (es: seq<Event>)
    requires Reaches(Start(), before, Joined(body))
    ensures es == before + [LStream(0, 1, []), FBegin(0)] && Reaches(Start(), es, Sending(body))
  {
    hide Reaches, Start;
    FirstSent(body);
    es := Leads(Start(), before, Joined(body), LStream(0, 1, []), Sent1(body));
    Two(IDLE.(stream := Up(0)), Sending(body).followers[0]);
    es := Leads(Start(), es, Sent1(body), FBegin(0), Sending(body));
  }

  /** On the wire, with the replica between two passes. */
  function Sent1(body: seq<byte>): System {
    With(Full(body), [1, 2], 0, [Some(Peer(0, 2, 0)), None], Served, IDLE.(stream := Up(0)),
         [Conn(0, [], [[First(body)]], true, true)])
  }

  lemma FirstSent(body: seq<byte>)
    ensures Enabled(Joined(body), LStream(0, 1, [])) && Apply(Joined(body), LStream(0, 1, [])) == Sent1(body)
  {
    var frame, open := [First(body)], Conn(0, [], [], true, true);
    assert Full(body).log[0..1] + [] == frame && [] + [frame] == [frame];
    OneConn(open, open.(down := [frame]));
    OnePeer(Some(Peer(0, 1, 0)), Some(Peer(0, 2, 0)));
  }

  lemma ToGiven(body: seq<byte>, before: seq<Event>) returns (es: seq<Event>)
    requires Reaches(Start(), before, Sending(body))
    ensures es == before + [FRecv(0)] && Reaches(Start(), es, Given(body))
  {
    hide Reaches, TakeItems;
    var a, frame := Sending(body), [First(body)];
    TakesOne(frame);
    Two(a.followers[0], Given(body).followers[0]);
    OneConn(a.conns[0], Given(body).conns[0]);
    assert [frame][1..] == [] && {} + Contents(frame) == {First(body)};
    es := Leads(Start(), before, a, FRecv(0), Given(body));
  }

  lemma ToHas(body: seq<byte>, before: seq<Event>) returns (es: seq<Event>)
    requires Reaches(Start(), before, Given(body))
    ensures es == before + [FFlush(0), FReport(0), LBegin, LRecv(0)] && Reaches(Start(), es, Has(body))
  {
    hide Reaches, Floor, FreeSlot, SlotOf;
    var a, open := Given(body), Conn(0, [], [], true, true);
    var z := Follower(Node([First(body)], 1), Up(0), false, 0, Settled, {First(body)});
    Two(a.followers[0], z);
    var b := a.(followers := [z, IDLE]);
    es := Leads(Start(), before, a, FFlush(0), b);
    Two(z, z.(acked := 1));
    OneConn(open, open.(up := [Report(1)]));
    assert [] + [Report(1)] == [Report(1)];
    var c := a.(followers := [z.(acked := 1), IDLE], conns := [open.(up := [Report(1)])]);
    es := Leads(Start(), es, b, FReport(0), c);
    var d := c.(leader := c.leader.(phase := Draining));
    es := Leads(Start(), es, c, LBegin, d);
    NoFloor(0, Peer(0, 2, 0));
    NoFloor(0, Peer(0, 2, 1));
    OnePeer(Some(Peer(0, 2, 0)), Some(Peer(0, 2, 1)));
    OneConn(open.(up := [Report(1)]), open);
    assert [Report(1)][1..] == [];
    es := Leads(Start(), es, d, LRecv(0), Has(body));
  }

  lemma TakesOne(frame: seq<Item>)
    requires |frame| == 1 && frame[0].seqno == 1
    ensures TakeItems([], frame) == (frame, true) && [frame][1..] == []
  {
    assert [] + [frame[0]] == frame && frame[1..] == [];
    assert TakeItems(frame, []) == (frame, true);
  }

  lemma ToTwoSlots(body: seq<byte>, before: seq<Event>) returns (es: seq<Event>)
    requires Reaches(Start(), before, Has(body))
    ensures es == before + [FBegin(0), FLost(0), FFlush(0), FRelease(0), FDial(0), FDialled(0)]
    ensures Reaches(Start(), es, TwoSlots(body))
  {
    hide Reaches;
    var a, open := Has(body), Conn(0, [], [], true, true);
    var x := Follower(Node([First(body)], 1), Up(0), false, 1, Settled, {First(body)});
    Two(x, x.(phase := Draining));
    var b := a.(followers := [x.(phase := Draining), IDLE]);
    es := Leads(Start(), before, a, FBegin(0), b);
    Two(x.(phase := Draining), x.(phase := Draining, closing := true));
    var c := a.(followers := [x.(phase := Draining, closing := true), IDLE]);
    es := Leads(Start(), es, b, FLost(0), c);
    Two(x.(phase := Draining, closing := true), x.(closing := true));
    var d := a.(followers := [x.(closing := true), IDLE]);
    es := Leads(Start(), es, c, FFlush(0), d);
    Two(x.(closing := true), x.(stream := Down));
    var e := a.(followers := [x.(stream := Down), IDLE]);
    es := Leads(Start(), es, d, FRelease(0), e);
    Two(x.(stream := Down), x.(stream := Dialling));
    var f := a.(followers := [x.(stream := Dialling), IDLE]);
    es := Leads(Start(), es, e, FDial(0), f);
    Two(x.(stream := Dialling), x.(stream := Up(1)));
    assert [open] + [Conn(0, [Message.Start(2)], [], false, true)] == TwoSlots(body).conns;
    es := Leads(Start(), es, f, FDialled(0), TwoSlots(body));
  }

  lemma ToLost(body: seq<byte>, before: seq<Event>) returns (es: seq<Event>)
    requires Reaches(Start(), before, TwoSlots(body))
    ensures es == before + [LRecv(1), LFlush, LEmit, LRetain(1)] && Reaches(Start(), es, Lost(body))
  {
    hide Reaches, EmitFrom, Floor, FreeSlot;
    var a := TwoSlots(body);
    var p, q := Peer(0, 2, 1), Peer(1, 2, 1);
    NoFloor(0, p);
    BothSlots(p, q);
    assert [Some(p), None][1 := Some(q)] == [Some(p), Some(q)];
    assert a.conns[1 := Conn(0, [], [], true, true)] == Lost(body).conns;
    assert [Message.Start(2)][1..] == [];
    var b := Lost(body).(leader := Lost(body).leader.(bases := [1, 2], phase := Draining));
    es := Leads(Start(), before, a, LRecv(1), b);
    var c := b.(leader := b.leader.(phase := Settled));
    es := Leads(Start(), es, b, LFlush, c);
    NothingOwed(c);
    var d := b.(leader := b.leader.(phase := Served));
    es := Leads(Start(), es, c, LEmit, d);
    OneDropped([1, 2]);
    es := Leads(Start(), es, d, LRetain(1), Lost(body));
  }

  lemma BothSlots(p: Peer, q: Peer)
    requires p.durable == q.durable == 1
    ensures Floor(2, 0, [Some(p), Some(q)]) == 1
  {
    hide Lowest, LiveCount;
    var both := [Some(p), Some(q)];
    LiveOfTwo(both);
    LowestIs(both);
    assert both[0].Some?;
  }

  lemma OneDropped(bases: seq<nat>)
    requires bases == [1, 2]
    ensures Store.DropCount(bases, 2) == 1 && bases[1..] == [2] && Store.RetainMark(bases, 1) == 2
  {
    assert Store.DropCount(bases[1..], 2) == 0;
  }

  /** The run is made up, event by event, from a fresh start. */
  lemma ReachesTwoSlots(body: seq<byte>)
    ensures Fresh(Start()) && Start().want == |Start().followers|
    ensures RunsTo(Start(), RunToTwoSlots(body)) && EndOf(Start(), RunToTwoSlots(body)) == TwoSlots(body)
  {
    var es := Compose(body);
  }

  lemma Compose(body: seq<byte>) returns (es: seq<Event>)
    ensures es == RunToTwoSlots(body) && Reaches(Start(), es, TwoSlots(body))
  {
    hide Reaches, Start, Half, Wrote, Joined, Sending, Given, Has, TwoSlots;
    es := ToHalf(body);
    es := ToWrote(body, es);
    es := ToJoined(body, es);
    es := ToSending(body, es);
    es := ToGiven(body, es);
    es := ToHas(body, es);
    es := ToTwoSlots(body, es);
    assert es == RunToTwoSlots(body);
  }

  /**
   Why distinct slots are asked for: the run happens, from a fresh start, with
   the leader expecting exactly its replicas; and at its end the leader has
   deleted a record that one of them has never had, so that it can never come
   back.
   */
  lemma TwoSlotsLose(body: seq<byte>)
    ensures var run := RunToTwoSlots(body) + [LRecv(1), LFlush, LEmit, LRetain(1)];
      && Fresh(Start()) && Start().want == |Start().followers| && RunsTo(Start(), run)
      && var t := EndOf(Start(), run);
         && t == Lost(body) && t.leader.bases[0] > t.followers[1].node.durable + 1
         && !AlwaysDistinct(Start(), run)
  {
    hide Lost;
    var es := Compose(body);
    es := ToLost(body, es);
    hide Reaches, RunsTo, EndOf, AlwaysDistinct;
    Behind(body);
    ReachesIs(es, Lost(body));
    if AlwaysDistinct(Start(), es) {
      HistoryHeld(Start(), es, 1);
    }
  }

  lemma ReachesIs(es: seq<Event>, t: System)
    requires Reaches(Start(), es, t)
    ensures Fresh(Start()) && Start().want == |Start().followers| == 2 && RunsTo(Start(), es) && EndOf(Start(), es) == t
  {
    hide RunsTo, EndOf;
  }

  lemma Behind(body: seq<byte>)
    ensures var t := Lost(body);
      |t.followers| == 2 && t.leader.bases != [] && t.leader.bases[0] > t.followers[1].node.durable + 1
  {}
}
