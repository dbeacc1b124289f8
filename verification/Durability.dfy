/**
 What every run of the replicated system keeps by number: no replica is ahead
 of what the leader has flushed, what a slot says is confirmed has been flushed,
 and what a client was told has a second copy has as many records behind it.
 */
module Durability {
  import opened Bytes
  import opened Wrappers
  import opened Acks
  import opened SegTable
  import opened Replication
  import Store

  ghost predicate NodeOk(n: Node) {
    n.durable <= |n.log| && forall i :: 0 <= i < |n.log| ==> n.log[i].seqno == i + 1
  }

  ghost predicate LeaderOk(l: Leader) {
    && NodeOk(l.node) && |l.peers| == MAX_REPLICAS
    && (l.phase != Draining ==> l.node.durable == |l.node.log|)
    && l.bases != [] && 0 < l.bases[0] && Ascending(l.bases) && l.bases[|l.bases| - 1] <= l.node.durable + 1
    && LeftOk(l.left)
  }

  /** What is behind a finished segment is numbered from the base of the next one. */
  ghost predicate LeftOk(left: map<nat, seq<Item>>) {
    forall b: nat :: b in left ==> 0 < b && Numbered(b - 1, left[b])
  }

  /** No longer than what the leader has flushed, and numbered as it is. */
  ghost predicate Counts(f: Node, lead: Node) {
    NodeOk(f) && f.durable <= |f.log| <= lead.durable <= |lead.log|
  }

  /** Whatever a replica ever wrote carries a sequence the leader has flushed. */
  ghost predicate InRange(disk: set<Item>, lead: Node) {
    forall x :: x in disk ==> 0 < x.seqno <= lead.durable
  }

  ghost predicate FollowerOk(x: Follower, lead: Node) {
    && Counts(x.node, lead) && x.acked <= x.node.durable && InRange(x.disk, lead)
    && (x.phase != Draining || !x.stream.Up? ==> x.node.durable == |x.node.log|)
  }

  /** Nothing in flight claims more than its sender had flushed. */
  ghost predicate MessageOk(m: Message, durable: nat) {
    match m
    case Start(first) => 0 < first <= durable + 1
    case Report(d) => d <= durable
  }

  ghost predicate ConnOk(c: Conn, fs: seq<Follower>) {
    && c.who < |fs|
    && (forall i :: 0 <= i < |c.up| ==> MessageOk(c.up[i], fs[c.who].node.durable))
    && (forall i :: 0 <= i < |c.up| && c.up[i].Start? ==> i == 0 && !c.greeted)
  }

  /** What is in flight to a replica is numbered on from what it has, and no further than the leader has flushed. */
  ghost predicate Follows(n: nat, c: Conn, lead: Node) {
    && n + |Flat(c.down)| <= lead.durable <= |lead.log|
    && Numbered(n, Flat(c.down))
    && (c.up != [] && c.up[0].Start? ==> c.up[0].first == n + 1 && c.down == [])
  }

  ghost predicate CurrentOk(f: nat, x: Follower, conns: seq<Conn>, lead: Node) {
    x.stream.Up? ==>
      && x.stream.conn < |conns| && conns[x.stream.conn].who == f
      && Follows(|x.node.log|, conns[x.stream.conn], lead)
  }

  ghost predicate PeerOk(p: Peer, conns: seq<Conn>, fs: seq<Follower>, lead: Node) {
    && p.conn < |conns| && conns[p.conn].greeted && conns[p.conn].who < |fs|
    && 0 < p.cursor <= lead.durable + 1
    && var x := fs[conns[p.conn].who];
       && p.durable <= x.node.durable
       && (x.stream == Up(p.conn) ==> p.cursor == |x.node.log| + |Flat(conns[p.conn].down)| + 1)
  }

  ghost predicate PeersOk(peers: seq<Option<Peer>>, conns: seq<Conn>, fs: seq<Follower>, lead: Node) {
    && (forall i :: 0 <= i < |peers| && peers[i].Some? ==> PeerOk(peers[i].value, conns, fs, lead))
    && (forall i, j :: 0 <= i < j < |peers| && peers[i].Some? && peers[j].Some? ==>
          peers[i].value.conn != peers[j].value.conn)
  }

  /** Everything up to W is flushed here and on some replica. */
  ghost predicate TwoCopies(w: nat, lead: Node, fs: seq<Follower>) {
    w <= lead.durable && (w == 0 || exists f :: 0 <= f < |fs| && w <= fs[f].node.durable)
  }

  /** An acknowledgement that promises a second copy names a sequence that has one. */
  ghost predicate ReplyOk(r: Reply, lead: Node, fs: seq<Follower>) {
    r.Ack? && r.flags.replicated && !r.flags.degraded ==> TwoCopies(r.walSeq, lead, fs)
  }

  ghost predicate ClientOk(c: Client) {
    c.local.flags.replicated ==> c.local.flags.degraded
  }

  ghost predicate ClientsOk(cs: seq<Client>) {
    forall i :: 0 <= i < |cs| ==> ClientOk(cs[i])
  }

  ghost predicate Inv(s: System) {
    && LeaderOk(s.leader)
    && (forall f :: 0 <= f < |s.followers| ==> FollowerOk(s.followers[f], s.leader.node))
    && (forall c :: 0 <= c < |s.conns| ==> ConnOk(s.conns[c], s.followers))
    && (forall f :: 0 <= f < |s.followers| ==> CurrentOk(f, s.followers[f], s.conns, s.leader.node))
    && PeersOk(s.leader.peers, s.conns, s.followers, s.leader.node)
    && ClientsOk(s.leader.clients)
    && (forall r :: r in s.sent ==> ReplyOk(r, s.leader.node, s.followers))
  }

  // ---- the leader moves on ----

  /** More log, nothing flushed taken back. */
  ghost predicate Grows(a: Node, b: Node) {
    && a.durable <= |a.log| && a.durable <= b.durable <= |b.log|
    && a.log[..a.durable] == b.log[..a.durable]
  }

  lemma CountsGrow(f: Node, disk: set<Item>, a: Node, b: Node)
    requires Counts(f, a) && InRange(disk, a) && Grows(a, b)
    ensures Counts(f, b) && InRange(disk, b)
  {
    hide NodeOk;
  }

  /** Left-over records of a replica go on where its log stops, and no further than the leader has flushed. */
  lemma CrashCounts(x: Node, disk: set<Item>, lead: Node, k: nat, extra: seq<Item>)
    requires Counts(x, lead) && InRange(disk, lead) && x.durable <= k <= |x.log| && Numbered(k, extra)
    requires forall i :: 0 <= i < |extra| ==> extra[i] in disk
    ensures Counts(Node(x.log[..k] + extra, k + |extra|), lead)
  {
    if extra != [] { assert extra[|extra| - 1] in disk; }
    var log := x.log[..k] + extra;
    forall i | 0 <= i < |log|
      ensures log[i].seqno == i + 1
    {
      if i >= k { assert log[i] == extra[i - k]; }
    }
  }

  lemma ContentsInRange(x: Node, disk: set<Item>, lead: Node)
    requires Counts(x, lead) && InRange(disk, lead)
    ensures InRange(disk + Contents(x.log), lead)
  {
    forall it | it in x.log
      ensures 0 < it.seqno <= lead.durable
    {
      var i :| 0 <= i < |x.log| && x.log[i] == it;
    }
  }

  lemma FollowsGrows(n: nat, c: Conn, a: Node, b: Node)
    requires Follows(n, c, a) && Grows(a, b)
    ensures Follows(n, c, b)
  {
    hide Flat;
  }

  /** A leader step that touches no connection and lets no slot go keeps everything. */
  lemma LeaderSteps(s: System, l: Leader, sent: seq<Reply>)
    requires Inv(s) && LeaderOk(l) && Grows(s.leader.node, l.node) && l.peers == s.leader.peers
    requires ClientsOk(l.clients)
    requires forall r :: r in sent ==> ReplyOk(r, l.node, s.followers)
    ensures Inv(s.(leader := l, sent := s.sent + sent))
  {
    hide LeaderOk, Flat, Grows, Counts, Follows, InRange;
    forall f | 0 <= f < |s.followers|
      ensures FollowerOk(s.followers[f], l.node) && CurrentOk(f, s.followers[f], s.conns, l.node)
    {
      assert FollowerOk(s.followers[f], s.leader.node) && CurrentOk(f, s.followers[f], s.conns, s.leader.node);
      CountsGrow(s.followers[f].node, s.followers[f].disk, s.leader.node, l.node);
      if s.followers[f].stream.Up? {
        FollowsGrows(|s.followers[f].node.log|, s.conns[s.followers[f].stream.conn], s.leader.node, l.node);
      }
    }
    assert s.leader.node.durable <= l.node.durable by { GrowsDurable(s.leader.node, l.node); }
    forall r | r in s.sent + sent
      ensures ReplyOk(r, l.node, s.followers)
    {
      if r in s.sent { assert ReplyOk(r, s.leader.node, s.followers); }
    }
  }

  lemma GrowsDurable(a: Node, b: Node)
    requires Grows(a, b)
    ensures a.durable <= b.durable
  {}

  lemma OweKeepsClients(l: Leader, i: nat, ask: Ask, clientSeq: nat, walSeq: nat)
    requires i < |l.clients| && ClientsOk(l.clients)
    ensures var m := OweIfAsked(l, i, ask, clientSeq, walSeq);
      && m == l.(clients := m.clients) && ClientsOk(m.clients)
  {
    hide Live;
    OweKeeps(l.clients[i], Live(l.peers), l.tick, ask, clientSeq, walSeq);
  }

  lemma AppendOk(l: Leader, body: seq<byte>, rolls: Option<seq<Item>>)
    requires LeaderOk(l) && l.phase == Draining
    requires rolls.Some? ==> l.bases[|l.bases| - 1] < Next(l.node) && Numbered(|l.node.log|, rolls.value)
    ensures LeaderOk(Appended(l, body, rolls)) && Grows(l.node, Appended(l, body, rolls).node)
  {
    var m := Appended(l, body, rolls);
    assert m.node.log[..l.node.durable] == l.node.log[..l.node.durable];
  }

  lemma {:induction false} EmitOk(clients: seq<Client>, peers: seq<Option<Peer>>, durable: nat, tick: nat,
                                  lead: Node, fs: seq<Follower>)
    requires ClientsOk(clients)
    requires durable == lead.durable
    requires forall i :: 0 <= i < |peers| && peers[i].Some? ==>
      exists f :: 0 <= f < |fs| && peers[i].value.durable <= fs[f].node.durable
    ensures var e := EmitFrom(clients, Best(peers), Live(peers), durable, tick);
      && ClientsOk(e.0)
      && (forall r :: r in e.1 ==> ReplyOk(r, lead, fs))
  {
    hide Best, Live;
    if clients != [] {
      EmitOk(clients[1..], peers, durable, tick, lead, fs);
      EmitOneOk(clients[0], peers, durable, tick, lead, fs);
      var (c, out) := Emitted(clients[0], Best(peers), Live(peers), durable, tick);
      var (rest, more) := EmitFrom(clients[1..], Best(peers), Live(peers), durable, tick);
      assert EmitFrom(clients, Best(peers), Live(peers), durable, tick) == ([c] + rest, out + more);
    }
  }

  lemma EmitOneOk(c: Client, peers: seq<Option<Peer>>, durable: nat, tick: nat, lead: Node, fs: seq<Follower>)
    requires ClientOk(c) && durable == lead.durable
    requires forall i :: 0 <= i < |peers| && peers[i].Some? ==>
      exists f :: 0 <= f < |fs| && peers[i].value.durable <= fs[f].node.durable
    ensures var (d, out) := Emitted(c, Best(peers), Live(peers), durable, tick);
      ClientOk(d) && forall r :: r in out ==> ReplyOk(r, lead, fs)
  {
    hide Best, Live;
    var (d, out) := Emitted(c, Best(peers), Live(peers), durable, tick);
    forall r | r in out
      ensures ReplyOk(r, lead, fs)
    {
      if r.Ack? && r.flags.replicated && !r.flags.degraded {
        EmittedIsConfirmed(c, peers, durable, tick, r);
        if r.walSeq != 0 {
          var i :| 0 <= i < |peers| && peers[i].Some? && r.walSeq <= peers[i].value.durable;
          var f :| 0 <= f < |fs| && peers[i].value.durable <= fs[f].node.durable;
          assert r.walSeq <= fs[f].node.durable;
        }
      }
    }
  }

  lemma PeersBacked(s: System)
    requires Inv(s)
    ensures forall i :: 0 <= i < |s.leader.peers| && s.leader.peers[i].Some? ==>
      exists f :: 0 <= f < |s.followers| && s.leader.peers[i].value.durable <= s.followers[f].node.durable
  {
    hide LeaderOk, Counts, Follows, Flat;
    forall i | 0 <= i < |s.leader.peers| && s.leader.peers[i].Some?
      ensures exists f :: 0 <= f < |s.followers| && s.leader.peers[i].value.durable <= s.followers[f].node.durable
    {
      assert PeerOk(s.leader.peers[i].value, s.conns, s.followers, s.leader.node);
      var f := s.conns[s.leader.peers[i].value.conn].who;
      assert s.leader.peers[i].value.durable <= s.followers[f].node.durable;
    }
  }

  lemma DrainOk(s: System, e: Event)
    requires Inv(s) && Enabled(s, e)
    requires e.LAppend? || e.LResend? || e.LTick? || e.LFlush? || e.LBegin?
    ensures Inv(Apply(s, e))
  {
    hide Owe, Live, Counts, Follows, Flat;
    assert s.sent + [] == s.sent;
    match e
    case LAppend(i, ask, cs, body, rolls) =>
      AppendOk(s.leader, body, rolls);
      OweKeepsClients(Appended(s.leader, body, rolls), i, ask, cs, Next(s.leader.node));
      LeaderSteps(s, Apply(s, e).leader, []);
    case LResend(i, ask, cs) =>
      OweKeepsClients(s.leader, i, ask, cs, s.leader.node.durable);
      LeaderSteps(s, Apply(s, e).leader, []);
    case LTick => LeaderSteps(s, Apply(s, e).leader, []);
    case LFlush => LeaderSteps(s, Apply(s, e).leader, []);
    case LBegin => LeaderSteps(s, Apply(s, e).leader, []);
  }

  lemma EmitStepOk(s: System)
    requires Inv(s) && Enabled(s, LEmit)
    ensures Inv(Apply(s, LEmit))
  {
    hide Best, Live, Emitted, Counts, Follows, Flat;
    PeersBacked(s);
    EmitOk(s.leader.clients, s.leader.peers, s.leader.node.durable, s.leader.tick, s.leader.node, s.followers);
    var e := AllEmitted(s.leader);
    LeaderSteps(s, s.leader.(clients := e.0, phase := Served), e.1);
  }

  /** What a replica takes of a frame: all that are numbered on from its log, up to the first that is not. */
  lemma {:induction false} TakeItemsIs(log: seq<Item>, items: seq<Item>) returns (k: nat)
    ensures k <= |items| && TakeItems(log, items) == (log + items[..k], k == |items|)
    ensures Numbered(|log|, items[..k])
    ensures k < |items| ==> items[k].seqno != |log| + k + 1
    decreases |items|
  {
    k := 0;
    assert log + items[..0] == log;
    if items != [] && items[0].seqno == |log| + 1 {
      var m := TakeItemsIs(log + [items[0]], items[1..]);
      k := m + 1;
      assert items[..k] == [items[0]] + items[1..][..m];
      assert log + items[..k] == log + [items[0]] + items[1..][..m];
      forall i | 0 <= i < k
        ensures items[..k][i].seqno == |log| + i + 1
      {
        if i > 0 { assert items[..k][i] == items[1..][..m][i - 1]; }
      }
    }
  }

  lemma RetainedOk(s: System, fails: nat)
    requires LeaderOk(s.leader)
    ensures var b := Retained(s, fails);
      && b != [] && 0 < b[0] && Ascending(b) && b[|b| - 1] == s.leader.bases[|s.leader.bases| - 1]
      && (b[0] <= KeepFrom(s) || b == s.leader.bases)
      && |b| <= |s.leader.bases| <= |b| + fails
      && (|s.leader.bases| < |b| + fails ==> |b| == 1 || KeepFrom(s) < b[1])
  {
    hide NodeOk, Ascending, Store.DropCount, Store.RetainMark;
    var bases, keep := s.leader.bases, KeepFrom(s);
    var drop := Store.DropCount(bases, keep);
    Dropped(bases, keep, if fails < drop then fails else drop);
    FirstTwo(bases);
    assert bases[0..] == bases;
  }

  lemma FirstTwo(bases: seq<nat>)
    requires Ascending(bases)
    ensures |bases| > 1 ==> bases[0] < bases[1]
  {}

  /** What is left when so many of the oldest segments are let go. */
  lemma Dropped(bases: seq<nat>, keep: nat, n: nat)
    requires bases != [] && 0 < bases[0] && Ascending(bases) && n <= Store.DropCount(bases, keep)
    ensures n < |bases| && var b := bases[n..];
      && b != [] && 0 < b[0] && Ascending(b) && b[|b| - 1] == bases[|bases| - 1] && (n > 0 ==> b[0] <= keep)
      && (n == Store.DropCount(bases, keep) ==> |b| == 1 || keep < b[1])
  {
    Store.DropIs(bases, keep);
  }

  lemma RetainStepOk(s: System, fails: nat)
    requires Inv(s) && Enabled(s, LRetain(fails))
    ensures Inv(Apply(s, LRetain(fails)))
  {
    hide Counts, Follows, Flat, Retained, Ascending;
    RetainedOk(s, fails);
    assert s.sent + [] == s.sent;
    LeaderSteps(s, s.leader.(bases := Retained(s, fails)), []);
  }

  // ---- connections and slots ----

  /** Letting a slot go, or the leader's end of a connection, frees and breaks nothing. */
  lemma DropKeeps(s: System, c: nat)
    requires Inv(s) && c < |s.conns|
    ensures Inv(s.(conns := s.conns[c := s.conns[c].(served := false)],
                   leader := s.leader.(peers := Release(s.leader.peers, c))))
  {
    hide NodeOk, Ascending, Counts, Flat;
    var conns := s.conns[c := s.conns[c].(served := false)];
    var peers := Release(s.leader.peers, c);
    forall i | 0 <= i < |conns|
      ensures ConnOk(conns[i], s.followers)
    {
      assert ConnOk(s.conns[i], s.followers);
    }
    forall f | 0 <= f < |s.followers|
      ensures CurrentOk(f, s.followers[f], conns, s.leader.node)
    {
      assert CurrentOk(f, s.followers[f], s.conns, s.leader.node);
    }
    forall i | 0 <= i < |peers| && peers[i].Some?
      ensures PeerOk(peers[i].value, conns, s.followers, s.leader.node)
    {
      assert peers[i] == s.leader.peers[i];
      assert PeerOk(s.leader.peers[i].value, s.conns, s.followers, s.leader.node);
    }
  }

  lemma DropOk(s: System, c: nat)
    requires Inv(s) && Enabled(s, LDrop(c))
    ensures Inv(Apply(s, LDrop(c)))
  {
    hide Inv;
    DropKeeps(s, c);
  }

  lemma CrashGrows(a: Node, kept: nat, extra: seq<Item>)
    requires NodeOk(a) && a.durable <= kept <= |a.log| && Numbered(kept, extra)
    ensures var b := Node(a.log[..kept] + extra, kept + |extra|);
      Grows(a, b) && NodeOk(b)
  {
    var b := Node(a.log[..kept] + extra, kept + |extra|);
    assert b.log[..a.durable] == a.log[..a.durable];
  }

  lemma CrashOk(s: System, kept: nat, extra: seq<Item>)
    requires Inv(s) && Enabled(s, LCrash(kept, extra))
    ensures Inv(Apply(s, LCrash(kept, extra)))
  {
    hide Flat, Ascending, InRange;
    var t := Restarted(s, kept, extra);
    CrashGrows(s.leader.node, kept, extra);
    hide Grows, Counts, Follows, NodeOk, Numbered;
    GrowsDurable(s.leader.node, t.leader.node);
    forall f | 0 <= f < |t.followers|
      ensures FollowerOk(t.followers[f], t.leader.node) && CurrentOk(f, t.followers[f], t.conns, t.leader.node)
    {
      var x := s.followers[f];
      assert FollowerOk(x, s.leader.node) && CurrentOk(f, x, s.conns, s.leader.node);
      CountsGrow(x.node, x.disk, s.leader.node, t.leader.node);
      if x.stream.Up? {
        FollowsGrows(|x.node.log|, s.conns[x.stream.conn], s.leader.node, t.leader.node);
        FollowsServed(|x.node.log|, s.conns[x.stream.conn], t.leader.node);
      }
    }
    forall c | 0 <= c < |t.conns|
      ensures ConnOk(t.conns[c], t.followers)
    {
      assert ConnOk(s.conns[c], s.followers);
    }
    forall r | r in t.sent
      ensures ReplyOk(r, t.leader.node, t.followers)
    {
      assert ReplyOk(r, s.leader.node, s.followers);
    }
  }

  lemma FollowsServed(n: nat, c: Conn, lead: Node)
    requires Follows(n, c, lead)
    ensures Follows(n, c.(served := false), lead)
  {}

  lemma {:induction false} FlatPush(frames: seq<seq<Item>>, frame: seq<Item>)
    ensures Flat(frames + [frame]) == Flat(frames) + frame
  {
    if frames == [] {
      assert [] + [frame] == [frame];
      assert [frame][1..] == [];
      assert Flat([]) == [];
    } else {
      assert (frames + [frame])[1..] == frames[1..] + [frame];
      FlatPush(frames[1..], frame);
    }
  }

  lemma FrameNumbered(s: System, i: nat, n: nat, stray: seq<Item>)
    requires LeaderOk(s.leader) && Enabled(s, LStream(i, n, stray))
    ensures Numbered(s.leader.peers[i].value.cursor - 1, FrameOf(s.leader, i, n, stray))
  {
    hide Ascending;
    var l, at := s.leader, s.leader.peers[i].value.cursor + n;
    if stray != [] {
      var b: nat :| b in l.left && b <= at <= b + |l.left[b]| && stray <= l.left[b][at - b..];
      assert forall k :: 0 <= k < |stray| ==> stray[k] == l.left[b][at - b + k];
    }
  }

  /** The leader puts what a read gives on the wire. */
  lemma StreamOk(s: System, i: nat, n: nat, stray: seq<Item>)
    requires Inv(s) && Enabled(s, LStream(i, n, stray))
    ensures Inv(Apply(s, LStream(i, n, stray)))
  {
    FrameNumbered(s, i, n, stray);
    hide NodeOk, LeftOk, Ascending, Counts, Flat, ReplyOk, MessageOk, Numbered, FrameOf, LeftAt;
    var p, t := s.leader.peers[i].value, Streamed(s, i, n, stray);
    var conn, who := s.conns[p.conn], s.conns[p.conn].who;
    var frame, lead := FrameOf(s.leader, i, n, stray), s.leader.node;
    assert PeerOk(p, s.conns, s.followers, lead);
    FlatPush(conn.down, frame);
    forall c | 0 <= c < |t.conns|
      ensures ConnOk(t.conns[c], t.followers)
    {
      assert ConnOk(s.conns[c], s.followers);
    }
    forall f | 0 <= f < |t.followers|
      ensures CurrentOk(f, t.followers[f], t.conns, lead)
    {
      assert CurrentOk(f, s.followers[f], s.conns, lead);
      if s.followers[f].stream == Up(p.conn) {
        assert ConnOk(conn, s.followers);
        FollowsMore(|s.followers[f].node.log|, conn, lead, frame);
      }
    }
    forall k | 0 <= k < |t.leader.peers| && t.leader.peers[k].Some?
      ensures PeerOk(t.leader.peers[k].value, t.conns, t.followers, lead)
    {
      assert PeerOk(s.leader.peers[k].value, s.conns, s.followers, lead);
    }
  }

  lemma FollowsMore(n: nat, c: Conn, lead: Node, frame: seq<Item>)
    requires Follows(n, c, lead) && !(c.up != [] && c.up[0].Start?)
    requires var m := n + |Flat(c.down)|;
      m + |frame| <= lead.durable && Numbered(m, frame)
    ensures Follows(n, c.(down := c.down + [frame]), lead)
  {
    hide Flat;
    FlatPush(c.down, frame);
    NumberedJoin(n, Flat(c.down), frame);
  }

  lemma NumberedJoin(n: nat, a: seq<Item>, b: seq<Item>)
    ensures Numbered(n, a + b) <==> Numbered(n, a) && Numbered(n + |a|, b)
  {
    if Numbered(n, a + b) {
      assert forall i :: 0 <= i < |a| ==> (a + b)[i] == a[i];
      assert forall i :: 0 <= i < |b| ==> (a + b)[|a| + i] == b[i];
    }
  }

  /** Taking a message off a channel leaves the rest as sound as it was. */
  lemma PopKeeps(s: System, c: nat)
    requires Inv(s) && c < |s.conns| && s.conns[c].up != []
    ensures Inv(s.(conns := s.conns[c := s.conns[c].(up := s.conns[c].up[1..])]))
  {
    hide NodeOk, Ascending, Counts, Flat;
    var conn := s.conns[c].(up := s.conns[c].up[1..]);
    var conns := s.conns[c := conn];
    assert ConnOk(s.conns[c], s.followers);
    assert forall i :: 0 <= i < |conn.up| ==> conn.up[i] == s.conns[c].up[i + 1];
    forall i | 0 <= i < |conns|
      ensures ConnOk(conns[i], s.followers)
    {
      assert ConnOk(s.conns[i], s.followers);
    }
    forall f | 0 <= f < |s.followers|
      ensures CurrentOk(f, s.followers[f], conns, s.leader.node)
    {
      assert CurrentOk(f, s.followers[f], s.conns, s.leader.node);
    }
    forall i | 0 <= i < |s.leader.peers| && s.leader.peers[i].Some?
      ensures PeerOk(s.leader.peers[i].value, conns, s.followers, s.leader.node)
    {
      assert PeerOk(s.leader.peers[i].value, s.conns, s.followers, s.leader.node);
    }
  }

  lemma {:induction false} FreeSlotIs(peers: seq<Option<Peer>>)
    ensures FreeSlot(peers) <= |peers|
    ensures FreeSlot(peers) < |peers| ==> peers[FreeSlot(peers)].None?
    ensures forall k :: 0 <= k < FreeSlot(peers) ==> peers[k].Some?
  {
    if peers != [] && peers[0].Some? {
      FreeSlotIs(peers[1..]);
    }
  }

  /** A replica's opening frame: a slot from where it asked, or the door. */
  lemma AttachKeeps(s: System, c: nat, first: nat)
    requires Inv(s) && c < |s.conns|
    requires forall i :: 0 <= i < |s.conns[c].up| ==> !s.conns[c].up[i].Start?
    requires MessageOk(Start(first), s.followers[s.conns[c].who].node.durable)
    requires var f := s.conns[c].who;
      s.followers[f].stream == Up(c) ==> first == |s.followers[f].node.log| + 1 && s.conns[c].down == []
    ensures Inv(Attach(s, c, first))
  {
    hide NodeOk, Ascending, Counts, Floor, Flat, ReplyOk;
    var l, conn, i := s.leader, s.conns[c], FreeSlot(s.leader.peers);
    FreeSlotIs(l.peers);
    assert ConnOk(conn, s.followers);
    if conn.greeted || i >= |l.peers| || first < l.bases[0] || first > Next(l.node) {
      DropKeeps(s, c);
    } else {
      hide MessageOk, Follows;
      var t, lead := Attach(s, c, first), l.node;
      forall k | 0 <= k < |t.conns|
        ensures ConnOk(t.conns[k], t.followers)
      {
        assert ConnOk(s.conns[k], s.followers);
      }
      forall f | 0 <= f < |t.followers|
        ensures CurrentOk(f, t.followers[f], t.conns, lead)
      {
        assert CurrentOk(f, s.followers[f], s.conns, lead);
        FollowsGreeted(|s.followers[f].node.log|, conn, lead);
      }
      forall k | 0 <= k < |t.leader.peers| && t.leader.peers[k].Some?
        ensures PeerOk(t.leader.peers[k].value, t.conns, t.followers, lead)
        ensures k != i ==> t.leader.peers[k].value.conn != c
      {
        if k != i {
          assert PeerOk(l.peers[k].value, s.conns, s.followers, lead);
        } else {
          AttachCursor(s.followers[conn.who], lead, first, conn);
        }
      }
    }
  }

  lemma FollowsGreeted(n: nat, c: Conn, lead: Node)
    ensures Follows(n, c, lead) == Follows(n, c.(greeted := true), lead)
  {}

  lemma AttachCursor(x: Follower, lead: Node, first: nat, conn: Conn)
    requires FollowerOk(x, lead) && MessageOk(Start(first), x.node.durable)
    ensures 0 < first <= lead.durable + 1 && first - 1 <= x.node.durable
    ensures conn.down == [] ==> Flat(conn.down) == []
  {}

  lemma ConfirmKeeps(s: System, c: nat, d: nat)
    requires Inv(s) && c < |s.conns| && d <= s.followers[s.conns[c].who].node.durable
    ensures Inv(Confirm(s, c, d))
  {
    hide NodeOk, Ascending, Counts, Floor, Flat;
    var l, i := s.leader, SlotOf(s.leader.peers, c);
    if i < |l.peers| {
      var t := Confirm(s, c, d);
      forall k | 0 <= k < |t.leader.peers| && t.leader.peers[k].Some?
        ensures PeerOk(t.leader.peers[k].value, t.conns, t.followers, l.node)
      {
        assert PeerOk(l.peers[k].value, s.conns, s.followers, l.node);
      }
    }
  }

  lemma RecvOk(s: System, c: nat)
    requires Inv(s) && Enabled(s, LRecv(c))
    ensures Inv(Apply(s, LRecv(c)))
  {
    hide LeaderOk, Counts, PeersOk, Attach, Confirm, Flat;
    var m := s.conns[c].up[0];
    var t := s.(conns := s.conns[c := s.conns[c].(up := s.conns[c].up[1..])]);
    PopKeeps(s, c);
    assert ConnOk(s.conns[c], s.followers);
    assert MessageOk(m, s.followers[s.conns[c].who].node.durable);
    assert forall i :: 0 <= i < |t.conns[c].up| ==> t.conns[c].up[i] == s.conns[c].up[i + 1];
    assert CurrentOk(s.conns[c].who, s.followers[s.conns[c].who], s.conns, s.leader.node);
    match m
    case Start(first) => AttachKeeps(t, c, first);
    case Report(d) => ConfirmKeeps(t, c, d);
  }

  // ---- a replica's own steps ----

  lemma ConnMonotone(c: Conn, fs: seq<Follower>, f: nat, x: Follower)
    requires ConnOk(c, fs) && f < |fs| && fs[f].node.durable <= x.node.durable
    ensures ConnOk(c, fs[f := x])
  {
    forall i | 0 <= i < |c.up|
      ensures MessageOk(c.up[i], fs[f := x][c.who].node.durable)
    {
      assert MessageOk(c.up[i], fs[c.who].node.durable);
    }
  }

  lemma ReplyMonotone(r: Reply, lead: Node, fs: seq<Follower>, f: nat, x: Follower)
    requires ReplyOk(r, lead, fs) && f < |fs| && fs[f].node.durable <= x.node.durable
    ensures ReplyOk(r, lead, fs[f := x])
  {
    if r.Ack? && r.flags.replicated && !r.flags.degraded && r.walSeq != 0 {
      var k :| 0 <= k < |fs| && r.walSeq <= fs[k].node.durable;
      assert r.walSeq <= fs[f := x][k].node.durable;
    }
  }

  /** A replica step that touches no channel, and no stream that goes on. */
  lemma FollowerSteps(s: System, f: nat, x: Follower)
    requires Inv(s) && f < |s.followers| && FollowerOk(x, s.leader.node)
    requires s.followers[f].node.durable <= x.node.durable
    requires x.stream.Up? ==> x.stream == s.followers[f].stream && x.node.log == s.followers[f].node.log
    ensures Inv(SetFollower(s, f, x))
  {
    hide NodeOk, Ascending, Counts, Flat, Follows, MessageOk, ReplyOk;
    var t, lead := SetFollower(s, f, x), s.leader.node;
    forall c | 0 <= c < |t.conns|
      ensures ConnOk(t.conns[c], t.followers)
    {
      ConnMonotone(s.conns[c], s.followers, f, x);
    }
    forall g | 0 <= g < |t.followers|
      ensures FollowerOk(t.followers[g], lead) && CurrentOk(g, t.followers[g], t.conns, lead)
    {
      assert FollowerOk(s.followers[g], lead) && CurrentOk(g, s.followers[g], s.conns, lead);
    }
    forall k | 0 <= k < |t.leader.peers| && t.leader.peers[k].Some?
      ensures PeerOk(t.leader.peers[k].value, t.conns, t.followers, lead)
    {
      assert PeerOk(s.leader.peers[k].value, s.conns, s.followers, lead);
    }
    forall r | r in t.sent
      ensures ReplyOk(r, lead, t.followers)
    {
      ReplyMonotone(r, lead, s.followers, f, x);
    }
  }

  lemma FlushCounts(x: Node, lead: Node)
    requires Counts(x, lead)
    ensures Counts(x.(durable := |x.log|), lead)
  {}

  lemma QuietOk(s: System, e: Event)
    requires Inv(s) && Enabled(s, e)
    requires e.FDial? || e.FDialFail? || e.FLost? || e.FFlush? || e.FRelease? || e.FBegin? || e.FCrash?
    ensures Inv(Apply(s, e))
  {
    hide NodeOk, Ascending, ConnOk, PeersOk, ReplyOk, Flat, Follows, Counts, LeaderOk, CurrentOk, ClientsOk,
      Receive, Streamed, Connected, Received, AllEmitted, OweIfAsked, Appended, Retained, Restarted, Release;
    assert FollowerOk(s.followers[e.f], s.leader.node);
    CountsBound(s.followers[e.f].node, s.leader.node);
    FlushCounts(s.followers[e.f].node, s.leader.node);
    if e.FCrash? {
      CrashCounts(s.followers[e.f].node, s.followers[e.f].disk, s.leader.node, e.kept, e.extra);
    }
    FollowerSteps(s, e.f, Apply(s, e).followers[e.f]);
  }

  lemma DialledOk(s: System, f: nat)
    requires Inv(s) && Enabled(s, FDialled(f))
    ensures Inv(Apply(s, FDialled(f)))
  {
    hide NodeOk, Ascending, Counts, ReplyOk;
    var t, lead := Connected(s, f), s.leader.node;
    var x, conn := t.followers[f], t.conns[|s.conns|];
    assert FollowerOk(s.followers[f], lead);
    assert Flat([]) == [];
    assert Counts(x.node, lead);
    hide Flat;
    forall c | 0 <= c < |t.conns|
      ensures ConnOk(t.conns[c], t.followers)
    {
      if c < |s.conns| { ConnMonotone(s.conns[c], s.followers, f, x); }
    }
    CountsBound(x.node, lead);
    forall g | 0 <= g < |t.followers|
      ensures FollowerOk(t.followers[g], lead) && CurrentOk(g, t.followers[g], t.conns, lead)
    {
      assert FollowerOk(s.followers[g], lead) && CurrentOk(g, s.followers[g], s.conns, lead);
    }
    forall k | 0 <= k < |t.leader.peers| && t.leader.peers[k].Some?
      ensures PeerOk(t.leader.peers[k].value, t.conns, t.followers, lead)
    {
      assert PeerOk(s.leader.peers[k].value, s.conns, s.followers, lead);
    }
    forall r | r in t.sent
      ensures ReplyOk(r, lead, t.followers)
    {
      ReplyMonotone(r, lead, s.followers, f, x);
    }
  }

  lemma CountsBound(f: Node, lead: Node)
    requires Counts(f, lead)
    ensures f.durable <= |f.log| <= lead.durable <= |lead.log|
  {}

  lemma ReportOk(s: System, f: nat)
    requires Inv(s) && Enabled(s, FReport(f))
    ensures Inv(Apply(s, FReport(f)))
  {
    hide NodeOk, Ascending, Counts, Flat;
    var t, lead := Apply(s, FReport(f)), s.leader.node;
    var c := s.followers[f].stream.conn;
    assert CurrentOk(f, s.followers[f], s.conns, lead) && FollowerOk(s.followers[f], lead);
    assert ConnOk(s.conns[c], s.followers);
    forall k | 0 <= k < |t.conns|
      ensures ConnOk(t.conns[k], t.followers)
    {
      ConnMonotone(s.conns[k], s.followers, f, t.followers[f]);
      if k == c { PushReport(s.conns[c], t.followers, t.followers[f].node.durable); }
    }
    forall g | 0 <= g < |t.followers|
      ensures FollowerOk(t.followers[g], lead) && CurrentOk(g, t.followers[g], t.conns, lead)
    {
      assert FollowerOk(s.followers[g], lead) && CurrentOk(g, s.followers[g], s.conns, lead);
    }
    forall k | 0 <= k < |t.leader.peers| && t.leader.peers[k].Some?
      ensures PeerOk(t.leader.peers[k].value, t.conns, t.followers, lead)
    {
      assert PeerOk(s.leader.peers[k].value, s.conns, s.followers, lead);
    }
    forall r | r in t.sent
      ensures ReplyOk(r, lead, t.followers)
    {
      ReplyMonotone(r, lead, s.followers, f, t.followers[f]);
    }
  }

  lemma PushReport(c: Conn, fs: seq<Follower>, d: nat)
    requires ConnOk(c, fs) && d <= fs[c.who].node.durable
    ensures ConnOk(c.(up := c.up + [Report(d)]), fs)
  {}

  /** Records that come next are all taken. */
  lemma {:induction false} TakeAll(log: seq<Item>, items: seq<Item>)
    requires forall i :: 0 <= i < |items| ==> items[i].seqno == |log| + i + 1
    ensures TakeItems(log, items) == (log + items, true)
    decreases |items|
  {
    if items == [] {
      assert log + items == log;
    } else {
      assert items[0].seqno == |log| + 0 + 1;
      assert forall i :: 0 <= i < |items[1..]| ==> items[1..][i] == items[i + 1];
      TakeAll(log + [items[0]], items[1..]);
      assert (log + [items[0]]) + items[1..] == log + items;
    }
  }

  /**
   The frame at the head of a replica's channel: its records are numbered as
   the next ones due, so the replica takes them all and never finds it has
   drifted.
   */
  lemma FrameFits(x: Node, conn: Conn, lead: Node)
    requires Counts(x, lead) && Follows(|x.log|, conn, lead) && conn.down != []
    ensures var frame := conn.down[0];
      && TakeItems(x.log, frame) == (x.log + frame, true)
      && Counts(Node(x.log + frame, x.durable), lead)
      && Follows(|x.log + frame|, conn.(down := conn.down[1..]), lead)
      && |Flat(conn.down)| == |frame| + |Flat(conn.down[1..])|
  {
    var frame, rest := conn.down[0], Flat(conn.down[1..]);
    assert Flat(conn.down) == frame + rest;
    NumberedJoin(|x.log|, frame, rest);
    hide Flat, TakeItems;
    TakeAll(x.log, frame);
    var log := x.log + frame;
    forall i | 0 <= i < |log|
      ensures log[i].seqno == i + 1
    {
      if i >= |x.log| { assert log[i] == frame[i - |x.log|]; }
    }
  }

  lemma ApplyOk(s: System, f: nat)
    requires Inv(s) && Enabled(s, FRecv(f))
    ensures Inv(Apply(s, FRecv(f)))
    ensures !Apply(s, FRecv(f)).followers[f].closing
  {
    hide Ascending, Follows, Counts, NodeOk, Flat, ReplyOk, TakeItems;
    var t, lead := Apply(s, FRecv(f)), s.leader.node;
    var x, y := s.followers[f], t.followers[f];
    var c := x.stream.conn;
    assert FollowerOk(x, lead) && CurrentOk(f, x, s.conns, lead);
    FrameFits(x.node, s.conns[c], lead);
    ContentsInRange(y.node, x.disk, lead);
    assert ConnOk(s.conns[c], s.followers);
    forall k | 0 <= k < |t.conns|
      ensures ConnOk(t.conns[k], t.followers)
    {
      ConnMonotone(s.conns[k], s.followers, f, y);
    }
    forall g | 0 <= g < |t.followers|
      ensures FollowerOk(t.followers[g], lead) && CurrentOk(g, t.followers[g], t.conns, lead)
    {
      assert FollowerOk(s.followers[g], lead) && CurrentOk(g, s.followers[g], s.conns, lead);
    }
    forall k | 0 <= k < |t.leader.peers| && t.leader.peers[k].Some?
      ensures PeerOk(t.leader.peers[k].value, t.conns, t.followers, lead)
    {
      assert PeerOk(s.leader.peers[k].value, s.conns, s.followers, lead);
    }
    forall r | r in t.sent
      ensures ReplyOk(r, lead, t.followers)
    {
      ReplyMonotone(r, lead, s.followers, f, y);
    }
  }

  // ---- whole runs ----

  /** Every step of the system, crashes and disconnections included, keeps it. */
  lemma StepOk(s: System, e: Event)
    requires Inv(s) && Enabled(s, e)
    ensures Inv(Apply(s, e))
  {
    hide Inv, Enabled, Apply;
    match e
    case LAppend(_, _, _, _, _) => DrainOk(s, e);
    case LResend(_, _, _) => DrainOk(s, e);
    case LRecv(c) => RecvOk(s, c);
    case LDrop(c) => DropOk(s, c);
    case LTick => DrainOk(s, e);
    case LFlush => DrainOk(s, e);
    case LEmit => EmitStepOk(s);
    case LStream(i, n, stray) => StreamOk(s, i, n, stray);
    case LRetain(fails) => RetainStepOk(s, fails);
    case LBegin => DrainOk(s, e);
    case LCrash(k, extra) => CrashOk(s, k, extra);
    case FDial(_) => QuietOk(s, e);
    case FDialFail(_) => QuietOk(s, e);
    case FDialled(f) => DialledOk(s, f);
    case FRecv(f) => ApplyOk(s, f);
    case FLost(_) => QuietOk(s, e);
    case FFlush(_) => QuietOk(s, e);
    case FReport(f) => ReportOk(s, f);
    case FRelease(_) => QuietOk(s, e);
    case FBegin(_) => QuietOk(s, e);
    case FCrash(_, _, _) => QuietOk(s, e);
  }

  ghost predicate RunsTo(s: System, es: seq<Event>)
    decreases |es|
  {
    es == [] || (Enabled(s, es[0]) && RunsTo(Apply(s, es[0]), es[1..]))
  }

  function EndOf(s: System, es: seq<Event>): System
    requires RunsTo(s, es)
    decreases |es|
  {
    if es == [] then s else EndOf(Apply(s, es[0]), es[1..])
  }

  lemma {:induction false} RunOk(s: System, es: seq<Event>)
    requires Inv(s) && RunsTo(s, es)
    ensures Inv(EndOf(s, es))
    decreases |es|
  {
    hide Inv, Enabled, Apply;
    if es != [] {
      StepOk(s, es[0]);
      RunOk(Apply(s, es[0]), es[1..]);
    }
  }

  /** Nothing written, nobody connected. */
  predicate Fresh(s: System) {
    && s.leader.node == Node([], 0) && s.leader.bases == [1] && s.leader.floor == 0
    && s.leader.peers == [None, None] && s.leader.phase == Draining && s.leader.left == map[]
    && (forall i :: 0 <= i < |s.leader.clients| ==> s.leader.clients[i] == Client(CLEAR, CLEAR))
    && (forall f :: 0 <= f < |s.followers| ==> s.followers[f] == Follower(Node([], 0), Down, false, 0, Settled, {}))
    && s.conns == [] && s.sent == []
  }

  lemma FreshOk(s: System)
    requires Fresh(s)
    ensures Inv(s)
  {}

  /**
   In every run a replica's log is no longer than what the leader has flushed,
   and what a slot says a replica has confirmed, that replica has flushed.
   */
  lemma ReplicasCount(s: System, es: seq<Event>)
    requires Fresh(s) && RunsTo(s, es)
    ensures var t := EndOf(s, es);
      && (forall f :: 0 <= f < |t.followers| ==> Counts(t.followers[f].node, t.leader.node))
      && (forall i :: 0 <= i < |t.leader.peers| && t.leader.peers[i].Some? ==>
            var p := t.leader.peers[i].value;
            && p.conn < |t.conns| && t.conns[p.conn].who < |t.followers|
            && p.durable <= t.followers[t.conns[p.conn].who].node.durable)
  {
    FreshOk(s);
    RunOk(s, es);
    hide RunsTo, EndOf, Counts, Follows, Flat;
    var t := EndOf(s, es);
    forall f | 0 <= f < |t.followers|
      ensures Counts(t.followers[f].node, t.leader.node)
    {
      assert FollowerOk(t.followers[f], t.leader.node);
    }
    forall i | 0 <= i < |t.leader.peers| && t.leader.peers[i].Some?
      ensures PeerOk(t.leader.peers[i].value, t.conns, t.followers, t.leader.node)
    {
    }
  }

  /**
   Every acknowledgement ever sent that promised a second copy of W: at every
   later moment, whatever has crashed since, the leader and some replica have
   both flushed as many records.
   */
  lemma PromisesCounted(s: System, es: seq<Event>, r: Reply)
    requires Fresh(s) && RunsTo(s, es) && r in EndOf(s, es).sent
    requires r.Ack? && r.flags.replicated && !r.flags.degraded && r.walSeq > 0
    ensures var t := EndOf(s, es);
      && r.walSeq <= t.leader.node.durable <= |t.leader.node.log|
      && exists f :: 0 <= f < |t.followers| && r.walSeq <= t.followers[f].node.durable <= |t.followers[f].node.log|
  {
    FreshOk(s);
    RunOk(s, es);
    hide RunsTo, EndOf, Follows, Flat;
    var t := EndOf(s, es);
    assert ReplyOk(r, t.leader.node, t.followers);
    var f :| 0 <= f < |t.followers| && r.walSeq <= t.followers[f].node.durable;
    assert FollowerOk(t.followers[f], t.leader.node);
  }
}
