/**
 One leader and its replicas as a transition system: the leader's passes, the
 replicas' passes, the connections between them as FIFO channels, and crashes
 and disconnections of either side at any point.
 */
module Replication {
  import opened Bytes
  import opened Wrappers
  import opened Acks
  import Store

  /** A record and the sequence it carries. */
  datatype Item = Item(seqno: nat, body: seq<byte>)

  /** A node's log, and how much of it a completed flush covers. */
  datatype Node = Node(log: seq<Item>, durable: nat)

  // ---- the replica's side ----

  datatype Stream = Down | Dialling | Up(conn: nat)

  /** Draining: events of the pass are being handled. Settled: its flush is done. */
  datatype Phase = Draining | Settled | Served

  /** `disk` is every record the replica ever wrote; dropped ones stay there until they are written over. */
  datatype Follower = Follower(node: Node, stream: Stream, closing: bool, acked: nat, phase: Phase, disk: set<Item>)

  datatype Message = Start(first: nat) | Report(durable: nat)

  /** A connection from a replica, with what is in flight each way. `served` is
      whether the leader still holds its end. */
  datatype Conn = Conn(who: nat, up: seq<Message>, down: seq<seq<Item>>, greeted: bool, served: bool)

  // ---- the leader's side ----

  /** `left` is what each finished segment still has behind its records, by the base of the one after it. */
  datatype Leader = Leader(node: Node, bases: seq<nat>, floor: nat, peers: seq<Option<Peer>>,
                           clients: seq<Client>, tick: nat, phase: Phase, left: map<nat, seq<Item>>)

  datatype System = System(leader: Leader, want: nat, keep: int, followers: seq<Follower>, conns: seq<Conn>,
                           sent: seq<Reply>)

  // ---- what a replica does with a frame of records ----

  /** Records are taken while each is the next one due; drift ends the stream. */
  function TakeItems(log: seq<Item>, items: seq<Item>): (seq<Item>, bool)
    decreases |items|
  {
    if items == [] then (log, true)
    else if items[0].seqno != |log| + 1 then (log, false)
    else TakeItems(log + [items[0]], items[1..])
  }

  function Flat(frames: seq<seq<Item>>): seq<Item> {
    if frames == [] then [] else frames[0] + Flat(frames[1..])
  }

  function FreeSlot(peers: seq<Option<Peer>>): nat {
    if peers == [] || peers[0].None? then 0 else 1 + FreeSlot(peers[1..])
  }

  /** The slot, if any, that streams on connection c. */
  function SlotOf(peers: seq<Option<Peer>>, c: nat): (i: nat)
    ensures i <= |peers|
    ensures i < |peers| ==> peers[i].Some? && peers[i].value.conn == c
    ensures forall k :: 0 <= k < i ==> !(peers[k].Some? && peers[k].value.conn == c)
  {
    if peers == [] then 0
    else if peers[0].Some? && peers[0].value.conn == c then 0
    else 1 + SlotOf(peers[1..], c)
  }

  function Release(peers: seq<Option<Peer>>, c: nat): (p: seq<Option<Peer>>)
    ensures |p| == |peers|
  {
    if SlotOf(peers, c) < |peers| then peers[SlotOf(peers, c) := None] else peers
  }

  function Next(n: Node): nat {
    |n.log| + 1
  }

  // ---- events ----

  datatype Event =
    | LAppend(client: nat, ask: Ask, clientSeq: nat, body: seq<byte>, rolls: Option<seq<Item>>)
    | LResend(client: nat, ask: Ask, clientSeq: nat)
    | LRecv(conn: nat)
    | LDrop(conn: nat)
    | LTick
    | LFlush
    | LEmit
    | LStream(slot: nat, n: nat, stray: seq<Item>)
    | LRetain(fails: nat)
    | LBegin
    | LCrash(kept: nat, extra: seq<Item>)
    | FDial(f: nat)
    | FDialFail(f: nat)
    | FDialled(f: nat)
    | FRecv(f: nat)
    | FLost(f: nat)
    | FFlush(f: nat)
    | FReport(f: nat)
    | FRelease(f: nat)
    | FBegin(f: nat)
    | FCrash(f: nat, kept: nat, extra: seq<Item>)

  /** Left-over records that a restart after k records takes for the next ones. */
  predicate Numbered(k: nat, extra: seq<Item>) {
    forall i :: 0 <= i < |extra| ==> extra[i].seqno == k + i + 1
  }

  /** A read that stands at `at` may find these behind a finished segment's records. */
  predicate LeftAt(left: map<nat, seq<Item>>, at: nat, stray: seq<Item>) {
    stray == [] || exists b: nat :: b in left && b <= at <= b + |left[b]| && stray <= left[b][at - b..]
  }

  predicate Enabled(s: System, e: Event) {
    match e
    case LAppend(i, ask, _, _, rolls) =>
      && s.leader.phase == Draining && i < |s.leader.clients|
      && (ask.flags.replicated ==> Live(s.leader.peers) || ask.degradable)
      && (rolls.Some? ==>
            && s.leader.bases != [] && s.leader.bases[|s.leader.bases| - 1] < Next(s.leader.node)
            && Numbered(|s.leader.node.log|, rolls.value))
    case LResend(i, ask, _) =>
      && s.leader.phase == Draining && i < |s.leader.clients|
      && (ask.flags.replicated ==> Live(s.leader.peers) || ask.degradable)
    case LRecv(c) => s.leader.phase == Draining && c < |s.conns| && s.conns[c].served && s.conns[c].up != []
    case LDrop(c) => s.leader.phase == Draining && c < |s.conns|
    case LTick => s.leader.phase == Draining
    case LFlush => s.leader.phase == Draining
    case LEmit => s.leader.phase == Settled
    case LStream(i, n, stray) =>
      && s.leader.phase == Served && i < |s.leader.peers| && s.leader.peers[i].Some? && 0 < n + |stray|
      && var p := s.leader.peers[i].value;
         && p.conn < |s.conns| && s.conns[p.conn].served
         && s.leader.bases != [] && s.leader.bases[0] <= p.cursor && 0 < p.cursor
         && p.cursor - 1 + n + |stray| <= s.leader.node.durable && s.leader.node.durable <= |s.leader.node.log|
         && LeftAt(s.leader.left, p.cursor + n, stray)
    case LRetain(_) => s.leader.phase == Served && s.leader.bases != []
    case LBegin => s.leader.phase == Served
    case LCrash(k, extra) => s.leader.node.durable <= k <= |s.leader.node.log| && Numbered(k, extra)
    case FDial(f) => f < |s.followers| && s.followers[f].stream == Down && s.followers[f].phase == Settled
    case FDialFail(f) => f < |s.followers| && s.followers[f].stream == Dialling
    case FDialled(f) => f < |s.followers| && s.followers[f].stream == Dialling
    case FRecv(f) =>
      && f < |s.followers| && s.followers[f].phase == Draining && !s.followers[f].closing
      && s.followers[f].stream.Up? && s.followers[f].stream.conn < |s.conns|
      && s.conns[s.followers[f].stream.conn].down != []
    case FLost(f) => f < |s.followers| && s.followers[f].phase == Draining && s.followers[f].stream.Up?
    case FFlush(f) => f < |s.followers| && s.followers[f].phase == Draining
    case FReport(f) =>
      && f < |s.followers| && s.followers[f].phase == Settled && !s.followers[f].closing
      && s.followers[f].stream.Up? && s.followers[f].stream.conn < |s.conns|
      && s.followers[f].acked < s.followers[f].node.durable
    case FRelease(f) =>
      && f < |s.followers| && s.followers[f].phase == Settled && s.followers[f].closing
      && s.followers[f].stream.Up?
    case FBegin(f) => f < |s.followers| && s.followers[f].phase == Settled
    case FCrash(f, k, extra) =>
      && f < |s.followers| && s.followers[f].node.durable <= k <= |s.followers[f].node.log|
      && Numbered(k, extra) && forall i :: 0 <= i < |extra| ==> extra[i] in s.followers[f].disk
  }

  function OweIfAsked(l: Leader, i: nat, ask: Ask, clientSeq: nat, walSeq: nat): Leader
    requires i < |l.clients|
  {
    if ask.flags.ackReq then
      l.(clients := l.clients[i := Owe(l.clients[i], Live(l.peers), l.tick, ask, clientSeq, walSeq)])
    else l
  }

  /**
   An append, after the flush and the new base when it rolls over. What stands
   behind the records of the segment it leaves then stays there.
   */
  function Appended(l: Leader, body: seq<byte>, rolls: Option<seq<Item>>): Leader {
    var n := Next(l.node);
    var log := l.node.log + [Item(n, body)];
    if rolls.Some? then l.(node := Node(log, n - 1), bases := l.bases + [n], left := l.left[n := rolls.value])
    else l.(node := l.node.(log := log))
  }

  /** There is a slot, and the log holds what is asked for or is about to. */
  predicate Admits(peers: seq<Option<Peer>>, base: nat, first: nat, next: nat) {
    FreeSlot(peers) < |peers| && base <= first <= next
  }

  /** REPL_START: refused when there is no slot or the log does not hold it. */
  function Attach(s: System, c: nat, first: nat): System
    requires c < |s.conns|
  {
    var l, i := s.leader, FreeSlot(s.leader.peers);
    var conn := s.conns[c];
    if conn.greeted || l.bases == [] || first == 0 || !Admits(l.peers, l.bases[0], first, Next(l.node)) then
      s.(conns := s.conns[c := conn.(served := false)], leader := l.(peers := Release(l.peers, c)))
    else
      var peers := l.peers[i := Some(Peer(c, first, first - 1))];
      s.(leader := l.(peers := peers, floor := Floor(s.want, l.floor, peers)),
         conns := s.conns[c := conn.(greeted := true)])
  }

  /** REPL_ACK: what a replica has flushed. */
  function Confirm(s: System, c: nat, durable: nat): System {
    var l, i := s.leader, SlotOf(s.leader.peers, c);
    if i < |l.peers| then
      var peers := l.peers[i := Some(l.peers[i].value.(durable := durable))];
      s.(leader := l.(peers := peers, floor := Floor(s.want, l.floor, peers)))
    else s
  }

  function Receive(s: System, c: nat): System
    requires c < |s.conns| && s.conns[c].up != []
  {
    var m := s.conns[c].up[0];
    var t := s.(conns := s.conns[c := s.conns[c].(up := s.conns[c].up[1..])]);
    match m
    case Start(first) => Attach(t, c, first)
    case Report(d) => Confirm(t, c, d)
  }

  function AllEmitted(l: Leader): (seq<Client>, seq<Reply>) {
    EmitFrom(l.clients, Best(l.peers), Live(l.peers), l.node.durable, l.tick)
  }

  function EmitFrom(clients: seq<Client>, best: nat, live: bool, durable: nat, tick: nat):
      (r: (seq<Client>, seq<Reply>))
    ensures |r.0| == |clients|
  {
    if clients == [] then ([], [])
    else
      var (c, out) := Emitted(clients[0], best, live, durable, tick);
      var (rest, more) := EmitFrom(clients[1..], best, live, durable, tick);
      ([c] + rest, out + more)
  }

  /** Retention keeps from the mark, or from past the floor while replicas are expected. */
  function Bound(want: nat, floor: nat, mark: nat): (b: nat)
    ensures b <= mark && (want > 0 ==> b <= floor + 1)
    ensures b == mark || (want > 0 && b == floor + 1)
  {
    if want > 0 && floor + 1 < mark then floor + 1 else mark
  }

  /** The sequence a retention pass keeps from, 0 when it has nothing to do. */
  function KeepFrom(s: System): nat {
    Bound(s.want, s.leader.floor, Store.RetainMark(s.leader.bases, s.keep))
  }

  function Retained(s: System, fails: nat): seq<nat>
    requires s.leader.bases != []
  {
    var keep := KeepFrom(s);
    var drop := Store.DropCount(s.leader.bases, keep);
    if keep == 0 || keep <= s.leader.bases[0] then s.leader.bases
    else s.leader.bases[if fails < drop then fails else drop..]
  }

  /** The records that are due, and behind the last of its segment what the walk takes for more. */
  function FrameOf(l: Leader, i: nat, n: nat, stray: seq<Item>): (frame: seq<Item>)
    requires i < |l.peers| && l.peers[i].Some? && 0 < l.peers[i].value.cursor
    requires l.peers[i].value.cursor - 1 + n <= |l.node.log|
    ensures |frame| == n + |stray|
  {
    var c := l.peers[i].value.cursor;
    l.node.log[c - 1..c - 1 + n] + stray
  }

  function Streamed(s: System, i: nat, n: nat, stray: seq<Item>): System
    requires Enabled(s, LStream(i, n, stray))
  {
    var l, p := s.leader, s.leader.peers[i].value;
    var frame := FrameOf(l, i, n, stray);
    var conn := s.conns[p.conn];
    s.(leader := l.(peers := l.peers[i := Some(p.(cursor := p.cursor + |frame|))]),
       conns := s.conns[p.conn := conn.(down := conn.down + [frame])])
  }

  function Unserved(conns: seq<Conn>): (r: seq<Conn>)
    ensures |r| == |conns| && forall i :: 0 <= i < |r| ==> r[i] == conns[i].(served := false)
  {
    seq(|conns|, i requires 0 <= i < |conns| => conns[i].(served := false))
  }

  /** Restart: the flushed log, whatever else survived and whatever was left over, nothing in memory. */
  function Restarted(s: System, kept: nat, extra: seq<Item>): System
    requires kept <= |s.leader.node.log|
  {
    var l := s.leader;
    s.(leader := l.(node := Node(l.node.log[..kept] + extra, kept + |extra|), floor := 0, peers := [None, None],
                    clients := seq(|l.clients|, _ => Client(CLEAR, CLEAR)), phase := Draining),
       conns := Unserved(s.conns))
  }

  function SetFollower(s: System, f: nat, x: Follower): System
    requires f < |s.followers|
  {
    s.(followers := s.followers[f := x])
  }

  /** The dial completed: a new connection, opened by naming the next sequence. */
  function Connected(s: System, f: nat): System
    requires f < |s.followers|
  {
    var x := s.followers[f];
    SetFollower(s, f, x.(stream := Up(|s.conns|), closing := false, acked := x.node.durable))
      .(conns := s.conns + [Conn(f, [Start(Next(x.node))], [], false, true)])
  }

  function Contents(log: seq<Item>): set<Item> {
    set x | x in log
  }

  function Received(s: System, f: nat): System
    requires Enabled(s, FRecv(f))
  {
    var x := s.followers[f];
    var c := x.stream.conn;
    var (log, ok) := TakeItems(x.node.log, s.conns[c].down[0]);
    SetFollower(s, f, x.(node := x.node.(log := log), closing := !ok, disk := x.disk + Contents(log)))
      .(conns := s.conns[c := s.conns[c].(down := s.conns[c].down[1..])])
  }

  function Apply(s: System, e: Event): System
    requires Enabled(s, e)
  {
    match e
    case LAppend(i, ask, cs, body, rolls) =>
      s.(leader := OweIfAsked(Appended(s.leader, body, rolls), i, ask, cs, Next(s.leader.node)))
    case LResend(i, ask, cs) => s.(leader := OweIfAsked(s.leader, i, ask, cs, s.leader.node.durable))
    case LRecv(c) => Receive(s, c)
    case LDrop(c) =>
      s.(conns := s.conns[c := s.conns[c].(served := false)],
         leader := s.leader.(peers := Release(s.leader.peers, c)))
    case LTick => s.(leader := s.leader.(tick := s.leader.tick + 1))
    case LFlush => s.(leader := s.leader.(node := s.leader.node.(durable := |s.leader.node.log|), phase := Settled))
    case LEmit =>
      var (clients, out) := AllEmitted(s.leader);
      s.(leader := s.leader.(clients := clients, phase := Served), sent := s.sent + out)
    case LStream(i, n, stray) => Streamed(s, i, n, stray)
    case LRetain(fails) => s.(leader := s.leader.(bases := Retained(s, fails)))
    case LBegin => s.(leader := s.leader.(phase := Draining))
    case LCrash(k, extra) => Restarted(s, k, extra)
    case FDial(f) => SetFollower(s, f, s.followers[f].(stream := Dialling))
    case FDialFail(f) => SetFollower(s, f, s.followers[f].(stream := Down))
    case FDialled(f) => Connected(s, f)
    case FRecv(f) => Received(s, f)
    case FLost(f) => SetFollower(s, f, s.followers[f].(closing := true))
    case FFlush(f) =>
      var x := s.followers[f];
      SetFollower(s, f, x.(node := x.node.(durable := |x.node.log|), phase := Settled))
    case FReport(f) =>
      var x := s.followers[f];
      var c := x.stream.conn;
      SetFollower(s, f, x.(acked := x.node.durable))
        .(conns := s.conns[c := s.conns[c].(up := s.conns[c].up + [Report(x.node.durable)])])
    case FRelease(f) => SetFollower(s, f, s.followers[f].(stream := Down, closing := false))
    case FBegin(f) => SetFollower(s, f, s.followers[f].(phase := Draining))
    case FCrash(f, k, extra) =>
      var x := s.followers[f];
      SetFollower(s, f, Follower(Node(x.node.log[..k] + extra, k + |extra|), Down, false, 0, Settled, x.disk))
  }
}
