/**
 When a replica's records are its leader's own. A stream sends what a read of the
 leader's files gives, and behind a finished segment that may be a record the
 leader never logged there. Exactly which runs keep every replica a copy, and
 what is promised in them.
 */
module Mirror {
  import opened Wrappers
  import opened Acks
  import opened Replication
  import opened Durability
  import SegTable

  /** Record for record a prefix of what the leader has flushed. */
  ghost predicate Prefix(f: Node, lead: Node) {
    f.durable <= |f.log| <= lead.durable <= |lead.log| && f.log == lead.log[..|f.log|]
  }

  /** Whatever a replica ever wrote is a record the leader has flushed. */
  ghost predicate Copied(disk: set<Item>, lead: Node) {
    forall x :: x in disk ==> 0 < x.seqno <= lead.durable <= |lead.log| && lead.log[x.seqno - 1] == x
  }

  /** What is in flight is what comes next in the leader's flushed log. */
  ghost predicate Onward(n: nat, down: seq<seq<Item>>, lead: Node) {
    n + |Flat(down)| <= lead.durable <= |lead.log| && Flat(down) == lead.log[n..n + |Flat(down)|]
  }

  ghost predicate CopyOk(x: Follower, conns: seq<Conn>, lead: Node) {
    && Prefix(x.node, lead) && Copied(x.disk, lead)
    && (x.stream.Up? ==> x.stream.conn < |conns| && Onward(|x.node.log|, conns[x.stream.conn].down, lead))
  }

  /** Every replica has, on disk and in flight to it, only the leader's own records. */
  ghost predicate Same(s: System) {
    forall f :: 0 <= f < |s.followers| ==> CopyOk(s.followers[f], s.conns, s.leader.node)
  }

  // ---- the leader moves on ----

  lemma PrefixGrows(f: Node, a: Node, b: Node)
    requires Prefix(f, a) && Grows(a, b)
    ensures Prefix(f, b)
  {
    assert a.log[..|f.log|] == a.log[..a.durable][..|f.log|];
    assert b.log[..|f.log|] == b.log[..a.durable][..|f.log|];
  }

  lemma CopiedGrows(disk: set<Item>, a: Node, b: Node)
    requires Copied(disk, a) && Grows(a, b)
    ensures Copied(disk, b)
  {
    forall x | x in disk
      ensures 0 < x.seqno <= b.durable <= |b.log| && b.log[x.seqno - 1] == x
    {
      assert a.log[..a.durable][x.seqno - 1] == b.log[..a.durable][x.seqno - 1];
    }
  }

  lemma OnwardGrows(n: nat, down: seq<seq<Item>>, a: Node, b: Node)
    requires Onward(n, down, a) && Grows(a, b)
    ensures Onward(n, down, b)
  {
    hide Flat;
    var m := n + |Flat(down)|;
    assert a.log[n..m] == a.log[..a.durable][n..m];
    assert b.log[n..m] == b.log[..a.durable][n..m];
  }

  /** The same records, on disk and in flight; a stream may have been let go. */
  ghost predicate Alike(x: Follower, y: Follower) {
    && y.node.log == x.node.log && y.node.durable <= |y.node.log| && y.disk == x.disk
    && (y.stream.Up? ==> y.stream == x.stream)
  }

  ghost predicate SameDown(a: seq<Conn>, b: seq<Conn>) {
    |a| <= |b| && forall c :: 0 <= c < |a| ==> b[c].down == a[c].down
  }

  lemma CopyKept(x: Follower, y: Follower, a: seq<Conn>, b: seq<Conn>, lead: Node, more: Node)
    requires CopyOk(x, a, lead) && Alike(x, y) && SameDown(a, b) && Grows(lead, more)
    ensures CopyOk(y, b, more)
  {
    hide Flat, Grows, Onward, Copied;
    PrefixGrows(x.node, lead, more);
    CopiedGrows(x.disk, lead, more);
    if y.stream.Up? { OnwardGrows(|x.node.log|, a[x.stream.conn].down, lead, more); }
  }

  /** A step that neither sends records nor takes any, nor loses any that a replica holds. */
  lemma SameKept(s: System, t: System)
    requires Same(s) && Grows(s.leader.node, t.leader.node) && |t.followers| == |s.followers|
    requires forall f :: 0 <= f < |s.followers| ==> Alike(s.followers[f], t.followers[f])
    requires SameDown(s.conns, t.conns)
    ensures Same(t)
  {
    hide CopyOk, Alike, SameDown, Grows;
    forall f | 0 <= f < |t.followers|
      ensures CopyOk(t.followers[f], t.conns, t.leader.node)
    {
      CopyKept(s.followers[f], t.followers[f], s.conns, t.conns, s.leader.node, t.leader.node);
    }
  }

  // ---- each step ----

  lemma StaysGrown(a: Node)
    requires a.durable <= |a.log|
    ensures Grows(a, a) && Grows(a, a.(durable := |a.log|))
  {}

  predicate LeaderEvent(e: Event) {
    e.LAppend? || e.LResend? || e.LRecv? || e.LDrop? || e.LTick? || e.LFlush? || e.LEmit? || e.LRetain? || e.LBegin?
    || e.LCrash?
  }

  lemma LeaderNode(s: System, e: Event)
    requires Inv(s) && Enabled(s, e) && LeaderEvent(e)
    ensures Grows(s.leader.node, Apply(s, e).leader.node)
  {
    hide Flat, SegTable.Ascending, Live, Owe, Floor, Retained, Counts, Follows, ReplyOk, PeersOk, EmitFrom, Release,
      SlotOf, FreeSlot, LeftOk, CurrentOk, FollowerOk, ConnOk, ClientsOk;
    StaysGrown(s.leader.node);
    match e
    case LAppend(_, _, _, body, rolls) => AppendOk(s.leader, body, rolls);
    case LCrash(k, extra) => CrashGrows(s.leader.node, k, extra);
    case _ =>
  }

  lemma LeaderQuiet(s: System, e: Event)
    requires Enabled(s, e) && LeaderEvent(e)
    ensures Apply(s, e).followers == s.followers && SameDown(s.conns, Apply(s, e).conns)
  {
    hide Flat, Live, Owe, Floor, Retained, EmitFrom, Release, SlotOf, FreeSlot, Appended, Numbered;
  }

  predicate ReplicaQuiet(e: Event) {
    e.FDial? || e.FDialFail? || e.FDialled? || e.FLost? || e.FFlush? || e.FReport? || e.FRelease? || e.FBegin?
  }

  lemma ReplicaSteps(s: System, e: Event)
    requires Enabled(s, e) && ReplicaQuiet(e)
    ensures var t := Apply(s, e);
      && t.leader == s.leader && |t.followers| == |s.followers| && SameDown(s.conns, t.conns)
      && forall f :: 0 <= f < |s.followers| && s.followers[f].node.durable <= |s.followers[f].node.log| ==>
           (e.FDialled? && f == e.f) || Alike(s.followers[f], t.followers[f])
  {
    hide Flat, Live, Owe, Floor, Retained, EmitFrom, Release, SlotOf, FreeSlot, TakeItems;
  }

  lemma DialledSame(s: System, f: nat)
    requires Inv(s) && Same(s) && Enabled(s, FDialled(f))
    ensures Same(Apply(s, FDialled(f)))
  {
    DialIndex(s, f);
    hide Inv, Enabled, Prefix, Copied;
    var t, lead := Connected(s, f), s.leader.node;
    assert Flat([]) == [];
    forall g | 0 <= g < |t.followers|
      ensures CopyOk(t.followers[g], t.conns, lead)
    {
      assert CopyOk(s.followers[g], s.conns, lead);
      if g == f { assert Prefix(s.followers[f].node, lead); PrefixBound(s.followers[f].node, lead); }
    }
  }

  lemma DialIndex(s: System, f: nat)
    requires Enabled(s, FDialled(f))
    ensures f < |s.followers|
  {}

  lemma PrefixBound(f: Node, lead: Node)
    requires Prefix(f, lead)
    ensures |f.log| <= lead.durable <= |lead.log|
  {}

  /** Left-over records of a replica are the leader's own, and go on where its log stops. */
  lemma CrashPrefix(x: Node, disk: set<Item>, lead: Node, k: nat, extra: seq<Item>)
    requires Prefix(x, lead) && Copied(disk, lead) && x.durable <= k <= |x.log| && Numbered(k, extra)
    requires forall i :: 0 <= i < |extra| ==> extra[i] in disk
    ensures Prefix(Node(x.log[..k] + extra, k + |extra|), lead)
  {
    assert lead.log[..|x.log|][..k] == lead.log[..k];
    if extra != [] { assert extra[|extra| - 1] in disk; }
    var log := x.log[..k] + extra;
    forall i | 0 <= i < |log|
      ensures log[i] == lead.log[i]
    {
      if i >= k { assert extra[i - k] in disk; }
    }
  }

  lemma CrashSame(s: System, f: nat, k: nat, extra: seq<Item>)
    requires Same(s) && Enabled(s, FCrash(f, k, extra))
    ensures Same(Apply(s, FCrash(f, k, extra)))
  {
    hide Flat, Prefix, Copied, Onward;
    var x, t, lead := s.followers[f], Apply(s, FCrash(f, k, extra)), s.leader.node;
    assert CopyOk(x, s.conns, lead);
    CrashPrefix(x.node, x.disk, lead, k, extra);
    forall g | 0 <= g < |t.followers|
      ensures CopyOk(t.followers[g], t.conns, lead)
    {
      assert CopyOk(s.followers[g], s.conns, lead);
    }
  }

  /** The next of what is in flight. */
  lemma NextFrame(log: seq<Item>, down: seq<seq<Item>>, lead: Node)
    requires down != [] && |log| <= |lead.log| && log == lead.log[..|log|] && Onward(|log|, down, lead)
    ensures var more := log + down[0];
      && |more| <= lead.durable <= |lead.log| && more == lead.log[..|more|] && Onward(|more|, down[1..], lead)
  {
    var frame, rest := down[0], Flat(down[1..]);
    assert Flat(down) == frame + rest;
    hide Flat;
    SliceSplits(lead.log, |log|, frame, rest);
  }

  /** A stretch of the log cut in two, the first part joined to what is before it. */
  lemma SliceSplits(log: seq<Item>, n: nat, frame: seq<Item>, rest: seq<Item>)
    requires n + |frame + rest| <= |log| && frame + rest == log[n..n + |frame + rest|]
    ensures frame == log[n..n + |frame|] && rest == log[n + |frame|..n + |frame| + |rest|]
    ensures log[..n] + frame == log[..n + |frame|]
  {
    var all := frame + rest;
    assert frame == all[..|frame|] && rest == all[|frame|..];
  }

  lemma ContentsCopied(x: Node, disk: set<Item>, lead: Node)
    requires Prefix(x, lead) && NodeOk(lead) && Copied(disk, lead)
    ensures Copied(disk + Contents(x.log), lead)
  {
    forall it | it in x.log
      ensures 0 < it.seqno <= lead.durable && lead.log[it.seqno - 1] == it
    {
      var i :| 0 <= i < |x.log| && x.log[i] == it;
      assert lead.log[i] == it;
    }
  }

  lemma RecvSame(s: System, f: nat)
    requires Inv(s) && Same(s) && Enabled(s, FRecv(f))
    ensures Same(Apply(s, FRecv(f)))
  {
    hide Flat, Onward, TakeItems, Copied, Counts, Follows, SegTable.Ascending, LeftOk, ReplyOk, PeersOk, NodeOk;
    var x, t, lead := s.followers[f], Apply(s, FRecv(f)), s.leader.node;
    var c := x.stream.conn;
    assert FollowerOk(x, lead) && CurrentOk(f, x, s.conns, lead) && CopyOk(x, s.conns, lead);
    FrameFits(x.node, s.conns[c], lead);
    NextFrame(x.node.log, s.conns[c].down, lead);
    ContentsCopied(t.followers[f].node, x.disk, lead);
    forall g | 0 <= g < |t.followers|
      ensures CopyOk(t.followers[g], t.conns, lead)
    {
      assert CopyOk(s.followers[g], s.conns, lead) && CurrentOk(g, s.followers[g], s.conns, lead);
    }
  }

  // ---- what is sent ----

  /** The replica this slot streams to is still on that connection. */
  predicate Current(s: System, i: nat)
    requires i < |s.leader.peers| && s.leader.peers[i].Some? && s.leader.peers[i].value.conn < |s.conns|
  {
    var c := s.leader.peers[i].value.conn;
    s.conns[c].who < |s.followers| && s.followers[s.conns[c].who].stream == Up(c)
  }

  /** If this step sends a replica records, they are the leader's own: what its log has there. */
  predicate Own(s: System, e: Event)
    requires Enabled(s, e)
  {
    e.LStream? && Current(s, e.slot) ==>
      var at := s.leader.peers[e.slot].value.cursor - 1 + e.n;
      e.stray == s.leader.node.log[at..at + |e.stray|]
  }

  lemma FrameOwn(l: Leader, i: nat, n: nat, stray: seq<Item>)
    requires i < |l.peers| && l.peers[i].Some? && 0 < l.peers[i].value.cursor
    requires l.peers[i].value.cursor - 1 + n + |stray| <= |l.node.log|
    ensures var c, frame := l.peers[i].value.cursor - 1, FrameOf(l, i, n, stray);
      frame == l.node.log[c..c + |frame|] <==> stray == l.node.log[c + n..c + n + |stray|]
  {
    var c, frame := l.peers[i].value.cursor - 1, FrameOf(l, i, n, stray);
    var own := l.node.log[c..c + |frame|];
    assert own == l.node.log[c..c + n] + l.node.log[c + n..c + n + |stray|];
    assert own[n..] == l.node.log[c + n..c + n + |stray|] && frame[n..] == stray;
  }

  /** What is in flight stays the leader's own exactly when what joins it is. */
  lemma OnwardMore(n: nat, down: seq<seq<Item>>, lead: Node, frame: seq<Item>)
    requires Onward(n, down, lead) && n + |Flat(down)| + |frame| <= lead.durable
    ensures var m := n + |Flat(down)|;
      Onward(n, down + [frame], lead) <==> frame == lead.log[m..m + |frame|]
  {
    hide Flat;
    FlatPush(down, frame);
    var m := n + |Flat(down)|;
    var all := lead.log[n..m + |frame|];
    assert all == lead.log[n..m] + lead.log[m..m + |frame|];
    assert all[m - n..] == lead.log[m..m + |frame|];
    assert (Flat(down) + frame)[m - n..] == frame;
  }

  /** A stream step keeps every replica a copy if and only if it sends the leader's own records. */
  lemma StreamSameIff(s: System, i: nat, n: nat, stray: seq<Item>)
    requires Inv(s) && Same(s) && Enabled(s, LStream(i, n, stray))
    ensures Same(Apply(s, LStream(i, n, stray))) <==> Own(s, LStream(i, n, stray))
  {
    hide Flat, Onward, Copied, Counts, Follows, SegTable.Ascending, LeftOk, ReplyOk, NodeOk, FrameOf, LeftAt, Prefix,
      ClientsOk, ConnOk, FollowerOk;
    var p, t, lead := s.leader.peers[i].value, Apply(s, LStream(i, n, stray)), s.leader.node;
    var frame, conn := FrameOf(s.leader, i, n, stray), s.conns[p.conn];
    assert PeerOk(p, s.conns, s.followers, lead);
    FrameOwn(s.leader, i, n, stray);
    if Current(s, i) {
      assert CopyOk(s.followers[conn.who], s.conns, lead);
      OnwardMore(|s.followers[conn.who].node.log|, conn.down, lead, frame);
    }
    forall g | 0 <= g < |t.followers|
      ensures CopyOk(s.followers[g], t.conns, lead) <==> (s.followers[g].stream == Up(p.conn) ==>
                                                           Own(s, LStream(i, n, stray)))
    {
      assert CopyOk(s.followers[g], s.conns, lead) && CurrentOk(g, s.followers[g], s.conns, lead);
    }
    if Current(s, i) { assert t.followers[conn.who] == s.followers[conn.who]; }
  }

  /** Every other step keeps it. */
  lemma StepSame(s: System, e: Event)
    requires Inv(s) && Same(s) && Enabled(s, e) && !e.LStream?
    ensures Same(Apply(s, e))
  {
    hide Inv, Same, Enabled, Apply, Grows, SameDown, Alike;
    if LeaderEvent(e) {
      LeaderNode(s, e);
      LeaderQuiet(s, e);
      Unmoved(s);
      SameKept(s, Apply(s, e));
    } else if e.FDialled? {
      DialledSame(s, e.f);
    } else if e.FRecv? {
      RecvSame(s, e.f);
    } else if e.FCrash? {
      CrashSame(s, e.f, e.kept, e.extra);
    } else {
      ReplicaSteps(s, e);
      Unmoved(s);
      SameKept(s, Apply(s, e));
    }
  }

  lemma Unmoved(s: System)
    requires Inv(s)
    ensures Grows(s.leader.node, s.leader.node)
    ensures forall f :: 0 <= f < |s.followers| ==>
      s.followers[f].node.durable <= |s.followers[f].node.log| && Alike(s.followers[f], s.followers[f])
  {
    hide Flat, Follows, SegTable.Ascending, LeftOk, ReplyOk, PeersOk, ConnOk;
    forall f | 0 <= f < |s.followers|
      ensures s.followers[f].node.durable <= |s.followers[f].node.log|
    {
      assert FollowerOk(s.followers[f], s.leader.node);
    }
  }

  // ---- whole runs ----

  /** Every frame of the run that goes to a replica still on its connection is the leader's own records. */
  ghost predicate OwnRun(s: System, es: seq<Event>)
    requires RunsTo(s, es)
    decreases |es|
  {
    es == [] || (Own(s, es[0]) && OwnRun(Apply(s, es[0]), es[1..]))
  }

  /** At every moment of the run. */
  ghost predicate SameThroughout(s: System, es: seq<Event>)
    requires RunsTo(s, es)
    decreases |es|
  {
    Same(s) && (es == [] || SameThroughout(Apply(s, es[0]), es[1..]))
  }

  lemma StepSameIff(s: System, e: Event)
    requires Inv(s) && Same(s) && Enabled(s, e)
    ensures Same(Apply(s, e)) <==> Own(s, e)
  {
    hide Inv, Same, Enabled, Apply;
    if e.LStream? {
      StreamSameIff(s, e.slot, e.n, e.stray);
    } else {
      StepSame(s, e);
    }
  }

  /**
   Replicas hold only the leader's own records at every moment of a run,
   crashes of anyone included, if and only if every frame sent to them is the
   leader's own records.
   */
  lemma {:induction false} SameIff(s: System, es: seq<Event>)
    requires Inv(s) && Same(s) && RunsTo(s, es)
    ensures SameThroughout(s, es) <==> OwnRun(s, es)
    ensures OwnRun(s, es) ==> Same(EndOf(s, es))
    decreases |es|
  {
    hide Inv, Same, Enabled, Apply, Own;
    if es != [] {
      StepOk(s, es[0]);
      StepSameIff(s, es[0]);
      if Own(s, es[0]) {
        SameIff(Apply(s, es[0]), es[1..]);
      } else {
        ThenNot(Apply(s, es[0]), es[1..]);
      }
    }
  }

  lemma ThenNot(s: System, es: seq<Event>)
    requires RunsTo(s, es) && !Same(s)
    ensures !SameThroughout(s, es)
  {}

  lemma FreshSame(s: System)
    requires Fresh(s)
    ensures Inv(s) && Same(s)
  {
    FreshOk(s);
  }

  /**
   In every run whose frames are the leader's own records, a replica's log is
   record for record a prefix of what the leader has flushed.
   */
  lemma ReplicasFollow(s: System, es: seq<Event>, f: nat)
    requires Fresh(s) && RunsTo(s, es) && OwnRun(s, es) && f < |EndOf(s, es).followers|
    ensures Prefix(EndOf(s, es).followers[f].node, EndOf(s, es).leader.node)
  {
    FreshSame(s);
    SameIff(s, es);
    hide RunsTo, EndOf, OwnRun, Prefix, Copied, Onward;
    assert CopyOk(EndOf(s, es).followers[f], EndOf(s, es).conns, EndOf(s, es).leader.node);
  }

  /**
   In those runs every acknowledgement ever sent that promised a second copy of
   W is kept: at every later moment, whatever has crashed since, the leader and
   some replica have both flushed the same records up to W.
   */
  lemma PromisesKept(s: System, es: seq<Event>, r: Reply)
    requires Fresh(s) && RunsTo(s, es) && OwnRun(s, es) && r in EndOf(s, es).sent
    requires r.Ack? && r.flags.replicated && !r.flags.degraded && r.walSeq > 0
    ensures var t := EndOf(s, es);
      && r.walSeq <= t.leader.node.durable <= |t.leader.node.log|
      && exists f :: 0 <= f < |t.followers| && r.walSeq <= t.followers[f].node.durable <= |t.followers[f].node.log|
           && t.followers[f].node.log[..r.walSeq] == t.leader.node.log[..r.walSeq]
  {
    PromisesCounted(s, es, r);
    var t := EndOf(s, es);
    var f :| 0 <= f < |t.followers| && r.walSeq <= t.followers[f].node.durable <= |t.followers[f].node.log|;
    ReplicasFollow(s, es, f);
    hide RunsTo, EndOf, OwnRun;
    var x, lead := t.followers[f].node, t.leader.node;
    assert lead.log[..|x.log|][..r.walSeq] == lead.log[..r.walSeq];
  }

  // ---- when that is sure ----

  /** No rollover of the run leaves a record behind its segment. */
  predicate Tidy(es: seq<Event>) {
    forall i :: 0 <= i < |es| && es[i].LAppend? && es[i].rolls.Some? ==> es[i].rolls.value == []
  }

  predicate NothingLeft(left: map<nat, seq<Item>>) {
    forall b: nat :: b in left ==> left[b] == []
  }

  lemma LeftStays(s: System, e: Event)
    requires Enabled(s, e) && NothingLeft(s.leader.left) && Tidy([e])
    ensures NothingLeft(Apply(s, e).leader.left)
  {
    hide Flat, Live, Owe, Floor, Retained, EmitFrom, Release, SlotOf, FreeSlot, TakeItems, Numbered, LeftAt, FrameOf;
    assert [e][0] == e;
  }

  lemma NothingStray(left: map<nat, seq<Item>>, at: nat, stray: seq<Item>)
    requires NothingLeft(left) && LeftAt(left, at, stray)
    ensures stray == []
  {}

  lemma OwnWhenNothing(s: System, e: Event)
    requires Enabled(s, e) && NothingLeft(s.leader.left)
    ensures Own(s, e)
  {
    hide NothingLeft, LeftAt, Numbered;
    if e.LStream? { NothingStray(s.leader.left, s.leader.peers[e.slot].value.cursor + e.n, e.stray); }
  }

  /** While rollovers leave nothing behind, all that is ever sent is the leader's own. */
  lemma {:induction false} TidyOwn(s: System, es: seq<Event>)
    requires RunsTo(s, es) && NothingLeft(s.leader.left) && Tidy(es)
    ensures OwnRun(s, es)
    decreases |es|
  {
    hide Enabled, Apply, Own, NothingLeft;
    if es != [] {
      assert Tidy([es[0]]) && Tidy(es[1..]);
      OwnWhenNothing(s, es[0]);
      LeftStays(s, es[0]);
      TidyOwn(Apply(s, es[0]), es[1..]);
    }
  }
}
